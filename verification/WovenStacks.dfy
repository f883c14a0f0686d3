/** Stacked `#[aspect]` attributes: the emitted wrappers, run together, mean what the aspects mean. */
module WovenStacks {
  import opened Common
  import opened AroundChain
  import opened Weaving

  // ------------------------------------------------------------------ generated names

  /** The names of a stack: the function's own, then the one each attribute moves it to. */
  function Names<W>(sig: Signature, name: string, attrs: seq<Attribute<W>>): (names: seq<string>)
    ensures |names| == |attrs| + 1
    decreases attrs
  {
    if |attrs| == 0 then [name] else [name] + Names(sig, OriginalName(sig, attrs[0], name), attrs[1..])
  }

  lemma {:induction false} NamesGrow<W>(sig: Signature, name: string, attrs: seq<Attribute<W>>, i: nat, j: nat)
    requires i <= j <= |attrs|
    ensures |Names(sig, name, attrs)[j]| >= |name| + j && (i < j ==> |Names(sig, name, attrs)[i]| < |Names(sig, name, attrs)[j]|)
    decreases attrs
  {
    if j > 0 {
      var original := OriginalName(sig, attrs[0], name);
      NamesGrow(sig, original, attrs[1..], if i == 0 then 0 else i - 1, j - 1);
      assert Names(sig, name, attrs)[j] == Names(sig, original, attrs[1..])[j - 1];
      assert i > 0 ==> Names(sig, name, attrs)[i] == Names(sig, original, attrs[1..])[i - 1];
    }
  }

  /** The names of a stack are pairwise distinct. */
  lemma NamesAreDistinct<W>(sig: Signature, name: string, attrs: seq<Attribute<W>>)
    ensures forall i, j | 0 <= i < j <= |attrs| :: Names(sig, name, attrs)[i] != Names(sig, name, attrs)[j]
  {
    forall i, j | 0 <= i < j <= |attrs|
      ensures Names(sig, name, attrs)[i] != Names(sig, name, attrs)[j]
    {
      NamesGrow(sig, name, attrs, i, j);
    }
  }

  /** The expansion defines exactly these names, one for each attribute and one for the body as written. */
  lemma {:induction false} ExpansionDefinesNames<W>(sig: Signature, name: string, attrs: seq<Attribute<W>>)
    requires Expand(sig, name, attrs).Ok?
    ensures
      var scope := Expand(sig, name, attrs).value;
      && (forall x :: x in scope <==> x in Names(sig, name, attrs))
      && |scope.Keys| == |attrs| + 1
    decreases attrs
  {
    if |attrs| > 0 {
      var original := OriginalName(sig, attrs[0], name);
      var inner := Expand(sig, original, attrs[1..]).value;
      ExpansionDefinesNames(sig, original, attrs[1..]);
      NamesAreLonger(sig, original, attrs[1..], name);
      assert Expand(sig, name, attrs).value.Keys == inner.Keys + {name};
    }
  }

  lemma NamesAreLonger<W>(sig: Signature, name: string, attrs: seq<Attribute<W>>, short: string)
    requires |short| < |name|
    ensures short !in Names(sig, name, attrs)
  {
    forall j | 0 <= j <= |attrs|
      ensures Names(sig, name, attrs)[j] != short
    {
      NamesGrow(sig, name, attrs, j, j);
    }
  }

  // ------------------------------------------------------------------ the meaning of one layer

  function BoxedAs<E>(sig: Signature, f: Formats<E>, a: Answer<E>): Answer<E> {
    if IsResult(sig.output) then Boxing(f, a) else BoxingValue(a)
  }

  function UnboxedAs<E>(sig: Signature, f: Formats<E>, a: Answer<E>): Answer<E> {
    if IsResult(sig.output) then Unboxing(f, a) else UnboxingOrPanic(f, AroundFailed(sig), a)
  }

  /** A function of this signature can answer so. */
  predicate Answers<E>(sig: Signature, a: Answer<E>) {
    if IsResult(sig.output) then a.Good? || a.Bad? else a.Plain?
  }

  /** The aspect's `around` about `inner`, with the answer boxed on the way in and unboxed on the way out. */
  function AroundLayer<W, E>(sig: Signature, aspect: Aspect<W>, ctx: JoinPoint, f: Formats<E>,
                             inner: W -> (W, Answer<E>), w: W): (W, Answer<E>)
  {
    var advice := aspect.AroundAdvice();
    match advice.enter(w, ctx)
    case Skip(w', o) => (w', UnboxedAs(sig, f, Boxed(o)))
    case Go(w', memo) =>
      var (v, a) := inner(w');
      var (v', b) := Leaving(advice, ctx, memo, v, BoxedAs(sig, f, a));
      (v', UnboxedAs(sig, f, b))
  }

  /** The hooks about `inner`, whose answer is passed on as it is. */
  function HookLayer<W, E>(sig: Signature, aspect: Aspect<W>, ctx: JoinPoint, f: Formats<E>,
                           inner: W -> (W, Answer<E>), w: W): (W, Answer<E>)
  {
    var (v, a) := inner(aspect.before(w, ctx));
    if Answers(sig, a) then (Closing(aspect, ctx, f, v, a), a) else (v, if a.Panicked? then a else Stuck)
  }

  /** An overridden `around` is always honoured; without one, async functions get the hooks alone. */
  function Layer<W, E>(sig: Signature, aspect: Aspect<W>, ctx: JoinPoint, f: Formats<E>,
                       inner: W -> (W, Answer<E>), w: W): (W, Answer<E>)
  {
    if sig.isAsync && aspect.custom.None? then HookLayer(sig, aspect, ctx, f, inner, w)
    else AroundLayer(sig, aspect, ctx, f, inner, w)
  }

  /** The layers of a stack, outermost first, about the body as written. */
  function Layered<W, E>(sig: Signature, p: Program<W, E>, name: string, attrs: seq<Attribute<W>>, w: W): (W, Answer<E>)
    decreases attrs
  {
    if |attrs| == 0 then p.source(w)
    else
      var original := OriginalName(sig, attrs[0], name);
      Layer(sig, attrs[0].aspect, ContextOf(sig, name, attrs[0]), p.formats,
            (w': W) => Layered(sig, p, original, attrs[1..], w'), w)
  }

  // ------------------------------------------------------------------ emitted code means its layer

  lemma AroundCallMeans<W, E>(scope: Scope<W>, sig: Signature, p: Program<W, E>, name: string, attr: Attribute<W>,
                              original: string, inner: W -> (W, Answer<E>), w: W)
    requires var e := attr.aspect.AroundAdvice().enter(w, ContextOf(sig, name, attr));
      e.Go? ==> Eval(scope, p, Call(original), e.world) == inner(e.world)
    ensures Eval(scope, p, AroundCall(sig, name, attr, original), w)
         == AroundLayer(sig, attr.aspect, ContextOf(sig, name, attr), p.formats, inner, w)
  {
    var ctx := ContextOf(sig, name, attr);
    var boxed := if IsResult(sig.output) then BoxResult(Call(original)) else BoxValue(Call(original));
    var around := Code.Around(attr.aspect, ctx, boxed);
    var e := attr.aspect.AroundAdvice().enter(w, ctx);
    if e.Go? {
      assert Eval(scope, p, boxed, e.world) == (inner(e.world).0, BoxedAs(sig, p.formats, inner(e.world).1));
    }
    var (v, a) := Eval(scope, p, around, w);
    assert Eval(scope, p, AroundCall(sig, name, attr, original), w) == (v, UnboxedAs(sig, p.formats, a));
  }

  lemma HookCallsMean<W, E>(scope: Scope<W>, sig: Signature, p: Program<W, E>, name: string, attr: Attribute<W>,
                            original: string, inner: W -> (W, Answer<E>), w: W)
    requires var w' := attr.aspect.before(w, ContextOf(sig, name, attr)); Eval(scope, p, Call(original), w') == inner(w')
    ensures Eval(scope, p, HookCalls(sig, name, attr, original), w)
         == HookLayer(sig, attr.aspect, ContextOf(sig, name, attr), p.formats, inner, w)
  {
    var ctx := ContextOf(sig, name, attr);
    var rest := if IsResult(sig.output) then AfterResult(attr.aspect, ctx, Call(original))
                else AfterValue(attr.aspect, ctx, Call(original));
    assert HookCalls(sig, name, attr, original) == BeforeThen(attr.aspect, ctx, rest);
    assert Eval(scope, p, HookCalls(sig, name, attr, original), w) == Eval(scope, p, rest, attr.aspect.before(w, ctx));
  }

  /** What validation lets through never runs into `compile_error!`, and never drops an overridden `around`. */
  lemma AcceptedWrapper<W>(sig: Signature, name: string, attr: Attribute<W>, original: string)
    requires Validate(sig, attr).Ok?
    ensures WrapperBody(sig, name, attr, original)
         == if sig.isAsync && attr.aspect.custom.None? then HookCalls(sig, name, attr, original)
            else AroundCall(sig, name, attr, original)
  {}

  lemma CallingGenerated<W, E>(scope: Scope<W>, p: Program<W, E>, name: string, body: Code<W>, w: W)
    requires name !in scope
    ensures Eval(scope[name := Generated(body)], p, Call(name), w) == Eval(scope, p, body, w)
  {
    assert scope[name := Generated(body)] - {name} == scope;
  }

  /** Calling the woven function, through all the names the expansion introduced, runs the layers one inside the other. */
  lemma {:induction false} ExpansionMeansLayers<W, E>(sig: Signature, p: Program<W, E>, name: string, attrs: seq<Attribute<W>>, w: W)
    requires Expand(sig, name, attrs).Ok?
    ensures Eval(Expand(sig, name, attrs).value, p, Call(name), w) == Layered(sig, p, name, attrs, w)
    decreases attrs
  {
    if |attrs| > 0 {
      var (attr, rest) := (attrs[0], attrs[1..]);
      var original := OriginalName(sig, attr, name);
      var scope := Expand(sig, original, rest).value;
      var inner := (w': W) => Layered(sig, p, original, rest, w');
      ExpansionDefinesNames(sig, original, rest);
      NamesAreLonger(sig, original, rest, name);
      CallingGenerated(scope, p, name, WrapperBody(sig, name, attr, original), w);
      AcceptedWrapper(sig, name, attr, original);
      if sig.isAsync && attr.aspect.custom.None? {
        ExpansionMeansLayers(sig, p, original, rest, attr.aspect.before(w, ContextOf(sig, name, attr)));
        HookCallsMean(scope, sig, p, name, attr, original, inner, w);
      } else {
        var e := attr.aspect.AroundAdvice().enter(w, ContextOf(sig, name, attr));
        if e.Go? {
          ExpansionMeansLayers(sig, p, original, rest, e.world);
        }
        AroundCallMeans(scope, sig, p, name, attr, original, inner, w);
      }
    }
  }

  /** May this attribute stand on a function of this signature? */
  predicate MayStand<W>(sig: Signature, attr: Attribute<W>) {
    && (attr.isAsyncAspect ==> sig.isAsync)
    && (sig.isAsync && attr.aspect.custom.Some? ==> attr.isAsyncAspect && !sig.output.ImplTrait?)
  }

  /**
   Async aspects need an async function; on an async function an overridden `around` needs an async aspect
   and a return type that can be named. The complaint is about whichever of the three is missing.
   */
  lemma UsageIsValidIff<W>(sig: Signature, attr: Attribute<W>)
    ensures Validate(sig, attr).Ok? <==> MayStand(sig, attr)
    ensures
      Validate(sig, attr) == Ok(()) ||
      Validate(sig, attr) == Err(
        if !sig.isAsync then
          "async aspects can only be applied to async fn; sync fn must use a type that implements Aspect"
        else if attr.isAsyncAspect then
          "async aspects that override around() cannot be applied to async fn returning impl Trait; use a concrete return type or rely on before/after/after_error only"
        else
          "sync aspects that override around() cannot be applied to async fn; implement AsyncAspect or rely on before/after/after_error only")
  {}

  /** An expansion is refused exactly when some attribute is, for the outermost such attribute. */
  lemma {:induction false} ExpandsIffAllValid<W>(sig: Signature, name: string, attrs: seq<Attribute<W>>)
    ensures Expand(sig, name, attrs).Ok? <==> forall i | 0 <= i < |attrs| :: MayStand(sig, attrs[i])
    ensures Expand(sig, name, attrs).Err? ==>
      exists i: nat :: i < |attrs| && !MayStand(sig, attrs[i]) && (forall j | 0 <= j < i :: MayStand(sig, attrs[j]))
                       && Validate(sig, attrs[i]) == Err(Expand(sig, name, attrs).error)
    decreases attrs
  {
    if |attrs| > 0 {
      UsageIsValidIff(sig, attrs[0]);
      var original := OriginalName(sig, attrs[0], name);
      ExpandsIffAllValid(sig, original, attrs[1..]);
      assert forall i | 1 <= i < |attrs| :: attrs[i] == attrs[1..][i - 1];
      if Validate(sig, attrs[0]).Ok? && Expand(sig, name, attrs).Err? {
        var i: nat :| i < |attrs[1..]| && !MayStand(sig, attrs[1..][i]) && (forall j | 0 <= j < i :: MayStand(sig, attrs[1..][j]))
                       && Validate(sig, attrs[1..][i]) == Err(Expand(sig, original, attrs[1..]).error);
        assert forall j | 0 <= j < i + 1 :: MayStand(sig, attrs[j]);
        assert !MayStand(sig, attrs[i + 1]);
      }
    }
  }

  /** What calling the woven function does. */
  function RunWoven<W, E>(sig: Signature, p: Program<W, E>, name: string, attrs: seq<Attribute<W>>, w: W): (W, Answer<E>)
    requires Expand(sig, name, attrs).Ok?
  {
    Eval(Expand(sig, name, attrs).value, p, Call(name), w)
  }

  // ------------------------------------------------------------------ an overridden around

  /** `Result` is recognised by the last name of the written path alone. */
  lemma ResultByLastName(path: seq<string>, last: string)
    ensures IsResult(TypePath(path + [last])) <==> last == "Result"
    ensures !IsResult(Unit) && !IsResult(ImplTrait) && !IsResult(OtherType)
  {}

  /** What the caller gets for an outcome of `around`. */
  function Delivered<E>(sig: Signature, f: Formats<E>, o: Outcome): Answer<E> {
    match o
    case Ok(v) => if IsResult(sig.output) then Good(v) else Plain(v)
    case Err(e) =>
      if IsResult(sig.output) then Bad(f.into(f.debugAspect(e)))
      else Panicked((if sig.isAsync then "async aspect around() failed: " else "aspect around() failed: ") + f.debugAspect(e))
  }

  /** What `around` gets for an answer of the body. */
  function Presented<E>(f: Formats<E>, a: Answer<E>): Outcome
    requires a.Plain? || a.Good? || a.Bad?
  {
    match a case Bad(e) => Err(ExecutionError(f.debug(e))) case Good(v) => Ok(v) case Plain(v) => Ok(v)
  }

  /**
   A function under one attribute whose aspect overrides `around`. If the aspect does not proceed, the body
   does not run and the caller gets the aspect's own outcome; otherwise the caller gets what the aspect makes
   of the body's answer. An error comes back as the function's error type, or as a panic if it has none.
   */
  lemma OverriddenAround<W, E>(sig: Signature, p: Program<W, E>, name: string, attr: Attribute<W>, w: W)
    requires Expand(sig, name, [attr]).Ok? && attr.aspect.custom.Some?
    requires var e := attr.aspect.custom.value.enter(w, JoinPoint(name, sig.modulePath, sig.file, attr.line, sig.args));
      e.Go? ==> Answers(sig, p.source(e.world).1)
    ensures
      var (advice, ctx) := (attr.aspect.custom.value, JoinPoint(name, sig.modulePath, sig.file, attr.line, sig.args));
      RunWoven(sig, p, name, [attr], w) ==
        match advice.enter(w, ctx)
        case Skip(w', o) => (w', Delivered(sig, p.formats, o))
        case Go(w', memo) =>
          var (v, a) := p.source(w');
          var (v', o) := advice.leave(v, ctx, memo, Presented(p.formats, a));
          (v', Delivered(sig, p.formats, o))
  {
    ExpansionMeansLayers(sig, p, name, [attr], w);
    ExpandsIffAllValid(sig, name, [attr]);
    assert [attr][0] == attr && MayStand(sig, [attr][0]);
  }

  /** A panic from inside passes every layer, and no closing hook is called. */
  lemma PanicPasses<W, E>(sig: Signature, aspect: Aspect<W>, ctx: JoinPoint, f: Formats<E>, inner: W -> (W, Answer<E>), w: W)
    requires aspect.custom.None? && inner(aspect.before(w, ctx)).1.Panicked?
    ensures Layer(sig, aspect, ctx, f, inner, w) == inner(aspect.before(w, ctx))
  {}

  // ------------------------------------------------------------------ stacks of default-around aspects

  ghost predicate AllDefault<W>(attrs: seq<Attribute<W>>) { forall i | 0 <= i < |attrs| :: attrs[i].aspect.custom.None? }

  /** An error on its way through one sync layer: formatted into an aspect error, formatted back into its own type. */
  function Reformat<E>(f: Formats<E>, e: E): E { f.into(f.debugAspect(ExecutionError(f.debug(e)))) }

  function Reformatted<E>(f: Formats<E>, e: E, times: nat): E {
    if times == 0 then e else Reformat(f, Reformatted(f, e, times - 1))
  }

  /** An answer that has come out through some layers: async layers leave it alone, sync layers reformat errors. */
  function Out<E>(sig: Signature, f: Formats<E>, a: Answer<E>, layers: nat): Answer<E> {
    if a.Bad? && !sig.isAsync then Bad(Reformatted(f, a.error, layers)) else a
  }

  /** The world the body sees: every `before` has run, outermost first. */
  function Opened<W>(sig: Signature, name: string, attrs: seq<Attribute<W>>, w: W): W
    decreases attrs
  {
    if |attrs| == 0 then w
    else
      Opened(sig, OriginalName(sig, attrs[0], name), attrs[1..],
             attrs[0].aspect.before(w, ContextOf(sig, name, attrs[0])))
  }

  /** The world after the body answered a in world w: every closing hook has run, innermost first. */
  function Closed<W, E>(sig: Signature, f: Formats<E>, name: string, attrs: seq<Attribute<W>>, w: W, a: Answer<E>): W
    decreases attrs
  {
    if |attrs| == 0 then w
    else
      var rest := attrs[1..];
      Closing(attrs[0].aspect, ContextOf(sig, name, attrs[0]), f,
              Closed(sig, f, OriginalName(sig, attrs[0], name), rest, w, a), Out(sig, f, a, |rest|))
  }

  /** One layer with the default `around`: the same hooks either way, and only the sync one touches the error. */
  lemma DefaultLayer<W, E>(sig: Signature, aspect: Aspect<W>, ctx: JoinPoint, f: Formats<E>, inner: W -> (W, Answer<E>), w: W)
    requires aspect.custom.None? && Answers(sig, inner(aspect.before(w, ctx)).1)
    ensures
      var (v, a) := inner(aspect.before(w, ctx));
      Layer(sig, aspect, ctx, f, inner, w)
        == (Closing(aspect, ctx, f, v, a), if a.Bad? && !sig.isAsync then Bad(Reformat(f, a.error)) else a)
  {}

  /** A stack of n default-around aspects: hooks nested, value passed on, and errors reformatted n times or not at all. */
  lemma {:induction false} DefaultStack<W, E>(sig: Signature, p: Program<W, E>, name: string, attrs: seq<Attribute<W>>, w: W)
    requires AllDefault(attrs) && Answers(sig, p.source(Opened(sig, name, attrs, w)).1)
    ensures
      var (v, a) := p.source(Opened(sig, name, attrs, w));
      Layered(sig, p, name, attrs, w) == (Closed(sig, p.formats, name, attrs, v, a), Out(sig, p.formats, a, |attrs|))
    decreases attrs
  {
    if |attrs| > 0 {
      var (attr, rest) := (attrs[0], attrs[1..]);
      var original := OriginalName(sig, attr, name);
      var ctx := ContextOf(sig, name, attr);
      DefaultStack(sig, p, original, rest, attr.aspect.before(w, ctx));
      DefaultLayer(sig, attr.aspect, ctx, p.formats, (w': W) => Layered(sig, p, original, rest, w'), w);
    }
  }

  // ------------------------------------------------------------------ sync against async

  /** The same function, made async. */
  function Async(sig: Signature): Signature { sig.(isAsync := true) }

  /** Sync aspects only, as a function that may be either needs them. */
  ghost predicate AllSyncAspects<W>(attrs: seq<Attribute<W>>) { forall i | 0 <= i < |attrs| :: !attrs[i].isAsyncAspect }

  /** No aspect looks into the error it is shown. */
  ghost predicate BlindToErrors<W(!new)>(attrs: seq<Attribute<W>>) {
    forall i, w, ctx, e, e' | 0 <= i < |attrs| ::
      attrs[i].aspect.afterError(w, ctx, e) == attrs[i].aspect.afterError(w, ctx, e')
  }

  lemma {:induction false} SameWayIn<W>(sig: Signature, name: string, attrs: seq<Attribute<W>>, w: W)
    requires AllSyncAspects(attrs)
    ensures Opened(Async(sig), name, attrs, w) == Opened(sig, name, attrs, w)
    decreases attrs
  {
    if |attrs| > 0 {
      SameWayIn(sig, OriginalName(sig, attrs[0], name), attrs[1..], attrs[0].aspect.before(w, ContextOf(sig, name, attrs[0])));
    }
  }

  lemma {:induction false} SameWayOut<W(!new), E>(sig: Signature, f: Formats<E>, name: string, attrs: seq<Attribute<W>>,
                                                  w: W, a: Answer<E>)
    requires AllSyncAspects(attrs) && (a.Bad? ==> BlindToErrors(attrs))
    ensures Closed(Async(sig), f, name, attrs, w, a) == Closed(sig, f, name, attrs, w, a)
    decreases attrs
  {
    if |attrs| > 0 {
      var rest := attrs[1..];
      assert a.Bad? ==> BlindToErrors(rest) by {
        if a.Bad? {
          assert forall i | 0 <= i < |rest| :: rest[i] == attrs[i + 1];
        }
      }
      SameWayOut(sig, f, OriginalName(sig, attrs[0], name), rest, w, a);
    }
  }

  lemma DefaultsAreAccepted<W>(sig: Signature, name: string, attrs: seq<Attribute<W>>)
    requires AllDefault(attrs) && AllSyncAspects(attrs)
    ensures Expand(sig, name, attrs).Ok?
  {
    ExpandsIffAllValid(sig, name, attrs);
  }

  /** The emitted wrappers of a default-around stack mean what `DefaultStack` says. */
  lemma WovenDefaultStack<W, E>(sig: Signature, p: Program<W, E>, name: string, attrs: seq<Attribute<W>>, w: W)
    requires AllDefault(attrs) && Expand(sig, name, attrs).Ok? && Answers(sig, p.source(Opened(sig, name, attrs, w)).1)
    ensures
      var (v, a) := p.source(Opened(sig, name, attrs, w));
      RunWoven(sig, p, name, attrs, w) == (Closed(sig, p.formats, name, attrs, v, a), Out(sig, p.formats, a, |attrs|))
  {
    ExpansionMeansLayers(sig, p, name, attrs, w);
    DefaultStack(sig, p, name, attrs, w);
  }

  /**
   The same stack of default-around aspects on a function and on its async twin. A value comes back the
   same with the same effects. An error comes back as it is from the async twin, and reformatted once per
   attribute from the sync one; the effects still agree if no aspect looks into the error.
   */
  lemma SyncAndAsyncAgree<W(!new), E>(sig: Signature, p: Program<W, E>, name: string, attrs: seq<Attribute<W>>, w: W)
    requires !sig.isAsync && AllDefault(attrs) && AllSyncAspects(attrs)
    requires Answers(sig, p.source(Opened(sig, name, attrs, w)).1)
    ensures Expand(sig, name, attrs).Ok? && Expand(Async(sig), name, attrs).Ok?
    ensures
      var a := p.source(Opened(sig, name, attrs, w)).1;
      var (sync, async) := (RunWoven(sig, p, name, attrs, w), RunWoven(Async(sig), p, name, attrs, w));
      && async.1 == a
      && sync.1 == (if a.Bad? then Bad(Reformatted(p.formats, a.error, |attrs|)) else a)
      && (!a.Bad? || BlindToErrors(attrs) ==> sync.0 == async.0)
  {
    DefaultsAreAccepted(sig, name, attrs);
    DefaultsAreAccepted(Async(sig), name, attrs);
    SameWayIn(sig, name, attrs, w);
    WovenDefaultStack(sig, p, name, attrs, w);
    WovenDefaultStack(Async(sig), p, name, attrs, w);
    var (v, a) := p.source(Opened(sig, name, attrs, w));
    if !a.Bad? || BlindToErrors(attrs) {
      SameWayOut(sig, p.formats, name, attrs, v, a);
    }
  }

  // ------------------------------------------------------------------ the events themselves

  datatype Event =
    | Entered(context: JoinPoint)
    | Returned(context: JoinPoint, value: Value)
    | Failed(context: JoinPoint, error: AspectError)
    | BodyRan

  type Log = seq<Event>

  /** An aspect that notes every hook that is called. */
  function Logger(): Aspect<Log> {
    Aspect(
      (log: Log, ctx: JoinPoint) => log + [Entered(ctx)],
      (log: Log, ctx: JoinPoint, v: Value) => log + [Returned(ctx, v)],
      (log: Log, ctx: JoinPoint, e: AspectError) => log + [Failed(ctx, e)],
      None)
  }

  ghost predicate AllLoggers(attrs: seq<Attribute<Log>>) { forall i | 0 <= i < |attrs| :: attrs[i].aspect == Logger() }

  function ClosingEvent<E>(ctx: JoinPoint, f: Formats<E>, a: Answer<E>): Log {
    match a
    case Plain(v) => [Returned(ctx, v)]
    case Good(v) => [Returned(ctx, v)]
    case Bad(e) => [Failed(ctx, ExecutionError(f.debug(e)))]
    case _ => []
  }

  function OpeningEvents(sig: Signature, name: string, attrs: seq<Attribute<Log>>): Log
    decreases attrs
  {
    if |attrs| == 0 then []
    else [Entered(ContextOf(sig, name, attrs[0]))] + OpeningEvents(sig, OriginalName(sig, attrs[0], name), attrs[1..])
  }

  function ClosingEvents<E>(sig: Signature, f: Formats<E>, name: string, attrs: seq<Attribute<Log>>, a: Answer<E>): Log
    decreases attrs
  {
    if |attrs| == 0 then []
    else
      ClosingEvents(sig, f, OriginalName(sig, attrs[0], name), attrs[1..], a)
      + ClosingEvent(ContextOf(sig, name, attrs[0]), f, Out(sig, f, a, |attrs| - 1))
  }

  lemma {:induction false} OpenedLogs(sig: Signature, name: string, attrs: seq<Attribute<Log>>, log: Log)
    requires AllLoggers(attrs)
    ensures Opened(sig, name, attrs, log) == log + OpeningEvents(sig, name, attrs)
    decreases attrs
  {
    if |attrs| > 0 {
      var ctx := ContextOf(sig, name, attrs[0]);
      OpenedLogs(sig, OriginalName(sig, attrs[0], name), attrs[1..], log + [Entered(ctx)]);
    }
  }

  lemma {:induction false} ClosedLogs<E>(sig: Signature, f: Formats<E>, name: string, attrs: seq<Attribute<Log>>, log: Log, a: Answer<E>)
    requires AllLoggers(attrs) && Answers(sig, a)
    ensures Closed(sig, f, name, attrs, log, a) == log + ClosingEvents(sig, f, name, attrs, a)
    decreases attrs
  {
    if |attrs| > 0 {
      ClosedLogs(sig, f, OriginalName(sig, attrs[0], name), attrs[1..], log, a);
    }
  }

  /** A woven stack of loggers, sync or async: everyone enters, the body runs once, everyone leaves. */
  lemma WovenEvents<E>(sig: Signature, p: Program<Log, E>, name: string, attrs: seq<Attribute<Log>>, a: Answer<E>)
    requires AllLoggers(attrs) && Expand(sig, name, attrs).Ok? && Answers(sig, a)
    requires var log := OpeningEvents(sig, name, attrs); p.source(log) == (log + [BodyRan], a)
    ensures RunWoven(sig, p, name, attrs, []) ==
      (OpeningEvents(sig, name, attrs) + [BodyRan] + ClosingEvents(sig, p.formats, name, attrs, a), Out(sig, p.formats, a, |attrs|))
  {
    OpenedLogs(sig, name, attrs, []);
    assert [] + OpeningEvents(sig, name, attrs) == OpeningEvents(sig, name, attrs);
    WovenDefaultStack(sig, p, name, attrs, []);
    ClosedLogs(sig, p.formats, name, attrs, OpeningEvents(sig, name, attrs) + [BodyRan], a);
  }

  /** The prefix an attribute puts in front of the name, once more for each attribute further out. */
  lemma {:induction false} NamesBuildUp<W>(sig: Signature, name: string, attrs: seq<Attribute<W>>, k: nat)
    requires k < |attrs|
    ensures
      var names := Names(sig, name, attrs);
      && names[0] == name
      && names[k + 1] == (if sig.isAsync && attrs[k].isAsyncAspect then "__async_aspect_original_" else "__aspect_original_") + names[k]
    decreases attrs
  {
    var original := OriginalName(sig, attrs[0], name);
    if k > 0 {
      NamesBuildUp(sig, original, attrs[1..], k - 1);
      assert Names(sig, name, attrs)[k] == Names(sig, original, attrs[1..])[k - 1];
      assert Names(sig, name, attrs)[k + 1] == Names(sig, original, attrs[1..])[k];
    } else {
      assert Names(sig, name, attrs)[1] == Names(sig, original, attrs[1..])[0];
    }
  }

  /** Layer k enters as the k-th event and leaves as the k-th last, in the same context. */
  lemma {:induction false} EventsAreNested<E>(sig: Signature, f: Formats<E>, name: string, attrs: seq<Attribute<Log>>, a: Answer<E>, k: nat)
    requires Answers(sig, a) && k < |attrs|
    ensures
      var (ins, outs, n) := (OpeningEvents(sig, name, attrs), ClosingEvents(sig, f, name, attrs, a), |attrs|);
      var ctx := JoinPoint(Names(sig, name, attrs)[k], sig.modulePath, sig.file, attrs[k].line, sig.args);
      && |ins| == |outs| == n
      && ins[k] == Entered(ctx)
      && [outs[n - 1 - k]] == ClosingEvent(ctx, f, Out(sig, f, a, n - 1 - k))
    decreases attrs
  {
    var original := OriginalName(sig, attrs[0], name);
    var rest := attrs[1..];
    if |rest| == 0 {
    } else {
      EventsAreNested(sig, f, original, rest, a, if k == 0 then 0 else k - 1);
      assert k > 0 ==> Names(sig, name, attrs)[k] == Names(sig, original, rest)[k - 1];
    }
  }

  /** The event an aspect sees at the end: what came out of the layers inside it, a failure in the form it has there. */
  ghost predicate Saw<E>(e: Event, ctx: JoinPoint, f: Formats<E>, a: Answer<E>, reformattings: nat) {
    match a
    case Bad(error) => e == Failed(ctx, ExecutionError(f.debug(Reformatted(f, error, reformattings))))
    case Plain(v) => e == Returned(ctx, v)
    case Good(v) => e == Returned(ctx, v)
    case _ => false
  }

  /**
   The log of a woven stack of n loggers, seen from layer k: it enters k-th, the body runs, and it leaves
   k-th last, in the same context. The context bears the function's module, file and arguments, the
   attribute's own line, and the generated name of the layer. A failure has been reformatted once for each
   sync layer inside this one, and never for async ones.
   */
  ghost predicate Logged<E>(sig: Signature, f: Formats<E>, name: string, attrs: seq<Attribute<Log>>, a: Answer<E>, k: nat, log: Log)
    requires k < |attrs|
  {
    var n := |attrs|;
    var ctx := JoinPoint(Names(sig, name, attrs)[k], sig.modulePath, sig.file, attrs[k].line, sig.args);
    && |log| == 2 * n + 1 && log[n] == BodyRan
    && log[k] == Entered(ctx)
    && Saw(log[2 * n - k], ctx, f, a, if sig.isAsync then 0 else n - 1 - k)
  }

  /** The log of a run is that, and only the outermost aspect sees the function's own name. */
  lemma WovenLog<E>(sig: Signature, p: Program<Log, E>, name: string, attrs: seq<Attribute<Log>>, a: Answer<E>, k: nat)
    requires AllLoggers(attrs) && Expand(sig, name, attrs).Ok? && Answers(sig, a) && k < |attrs|
    requires var log := OpeningEvents(sig, name, attrs); p.source(log) == (log + [BodyRan], a)
    ensures Logged(sig, p.formats, name, attrs, a, k, RunWoven(sig, p, name, attrs, []).0)
    ensures Names(sig, name, attrs)[k] == name <==> k == 0
  {
    WovenEvents(sig, p, name, attrs, a);
    OwnNameOutermost(sig, name, attrs, k);
    LogShape(sig, p.formats, name, attrs, a, k, OpeningEvents(sig, name, attrs) + [BodyRan] + ClosingEvents(sig, p.formats, name, attrs, a));
  }

  lemma OwnNameOutermost<W>(sig: Signature, name: string, attrs: seq<Attribute<W>>, k: nat)
    requires k < |attrs|
    ensures Names(sig, name, attrs)[k] == name <==> k == 0
  {
    NamesAreDistinct(sig, name, attrs);
    NamesBuildUp(sig, name, attrs, k);
  }

  lemma LogShape<E>(sig: Signature, f: Formats<E>, name: string, attrs: seq<Attribute<Log>>, a: Answer<E>, k: nat, log: Log)
    requires Answers(sig, a) && k < |attrs|
    requires log == OpeningEvents(sig, name, attrs) + [BodyRan] + ClosingEvents(sig, f, name, attrs, a)
    ensures Logged(sig, f, name, attrs, a, k, log)
  {
    var (outs, inside) := (ClosingEvents(sig, f, name, attrs, a), |attrs| - 1 - k);
    EventsAreNested(sig, f, name, attrs, a, k);
    LogParts(OpeningEvents(sig, name, attrs), outs, k);
    ClosingSeen(sig, f, Names(sig, name, attrs)[k], attrs[k].line, a, inside, outs[inside]);
  }

  lemma ClosingSeen<E>(sig: Signature, f: Formats<E>, name: string, line: nat, a: Answer<E>, inside: nat, e: Event)
    requires var ctx := JoinPoint(name, sig.modulePath, sig.file, line, sig.args);
      Answers(sig, a) && [e] == ClosingEvent(ctx, f, Out(sig, f, a, inside))
    ensures Saw(e, JoinPoint(name, sig.modulePath, sig.file, line, sig.args), f, a, if sig.isAsync then 0 else inside)
  {
    assert e == ClosingEvent(JoinPoint(name, sig.modulePath, sig.file, line, sig.args), f, Out(sig, f, a, inside))[0];
  }

  lemma LogParts(ins: Log, outs: Log, k: nat)
    requires |ins| == |outs| && k < |ins|
    ensures
      var (log, n) := (ins + [BodyRan] + outs, |ins|);
      |log| == 2 * n + 1 && log[n] == BodyRan && log[k] == ins[k] && log[2 * n - k] == outs[n - 1 - k]
  {}

  // ------------------------------------------------------------------ when the events of sync and async agree

  /** The failure reads the same after every number of reformattings that some layer of a stack of n sees. */
  ghost predicate ReadsTheSame<E>(f: Formats<E>, e: E, n: nat) {
    forall j: nat | j < n :: f.debug(Reformatted(f, e, j)) == f.debug(e)
  }

  lemma {:induction false} ClosingEventsAgree<E>(sig: Signature, f: Formats<E>, name: string, attrs: seq<Attribute<Log>>, a: Answer<E>)
    requires !sig.isAsync && AllSyncAspects(attrs) && Answers(sig, a)
    ensures |ClosingEvents(sig, f, name, attrs, a)| == |ClosingEvents(Async(sig), f, name, attrs, a)| == |attrs|
    ensures ClosingEvents(sig, f, name, attrs, a) == ClosingEvents(Async(sig), f, name, attrs, a)
       <==> !a.Bad? || ReadsTheSame(f, a.error, |attrs|)
    decreases attrs
  {
    if |attrs| > 0 {
      var (rest, original, ctx) := (attrs[1..], OriginalName(sig, attrs[0], name), ContextOf(sig, name, attrs[0]));
      ClosingEventsAgree(sig, f, original, rest, a);
      var (xs, ys) := (ClosingEvents(sig, f, original, rest, a), ClosingEvents(Async(sig), f, original, rest, a));
      var (x, y) := (ClosingEvent(ctx, f, Out(sig, f, a, |rest|)), ClosingEvent(ctx, f, a));
      assert xs + x == ys + y <==> xs == ys && x == y by {
        assert (xs + x)[..|rest|] == xs && (ys + y)[..|rest|] == ys;
        assert (xs + x)[|rest|..] == x && (ys + y)[|rest|..] == y;
      }
    }
  }

  /**
   The logs of a stack on a function and on its async twin agree exactly when the body succeeds, or when
   formatting the error back and forth does not change how it reads.
   */
  lemma LogsAgreeIff<E>(sig: Signature, p: Program<Log, E>, name: string, attrs: seq<Attribute<Log>>, a: Answer<E>)
    requires !sig.isAsync && AllSyncAspects(attrs) && AllLoggers(attrs) && Answers(sig, a)
    requires var log := OpeningEvents(sig, name, attrs); p.source(log) == (log + [BodyRan], a)
    ensures Expand(sig, name, attrs).Ok? && Expand(Async(sig), name, attrs).Ok?
    ensures RunWoven(sig, p, name, attrs, []).0 == RunWoven(Async(sig), p, name, attrs, []).0
       <==> !a.Bad? || ReadsTheSame(p.formats, a.error, |attrs|)
  {
    DefaultsAreAccepted(sig, name, attrs);
    DefaultsAreAccepted(Async(sig), name, attrs);
    SameOpeningEvents(sig, name, attrs);
    WovenEvents(sig, p, name, attrs, a);
    WovenEvents(Async(sig), p, name, attrs, a);
    ClosingEventsAgree(sig, p.formats, name, attrs, a);
    var front := OpeningEvents(sig, name, attrs) + [BodyRan];
    var (xs, ys) := (ClosingEvents(sig, p.formats, name, attrs, a), ClosingEvents(Async(sig), p.formats, name, attrs, a));
    assert (front + xs)[|front|..] == xs && (front + ys)[|front|..] == ys;
  }

  lemma {:induction false} SameOpeningEvents(sig: Signature, name: string, attrs: seq<Attribute<Log>>)
    requires AllSyncAspects(attrs)
    ensures OpeningEvents(Async(sig), name, attrs) == OpeningEvents(sig, name, attrs)
    decreases attrs
  {
    if |attrs| > 0 {
      SameOpeningEvents(sig, OriginalName(sig, attrs[0], name), attrs[1..]);
    }
  }
}
