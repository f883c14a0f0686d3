/** The `#[aspect]` attribute: the code it emits, and what that code means (aspect-macros codegen.rs, aspect_attr.rs). */
module Weaving {
  import opened Common
  import opened AroundChain

  // ------------------------------------------------------------------ what is woven

  /** An aspect: its three hooks, and `around` when its type overrides it. */
  datatype Aspect<!W> = Aspect(
    before: (W, JoinPoint) -> W,
    after: (W, JoinPoint, Value) -> W,
    afterError: (W, JoinPoint, AspectError) -> W,
    custom: Option<Advice<W>>)
  {
    function AroundAdvice(): Advice<W> {
      if custom.Some? then custom.value else DefaultAround(before, after, afterError)
    }
  }

  /** One `#[aspect(..)]` attribute, and whether the aspect's type implements `AsyncAspect`. */
  datatype Attribute<!W> = Attribute(aspect: Aspect<W>, isAsyncAspect: bool, line: nat)

  datatype ReturnType = Unit | TypePath(segments: seq<string>) | ImplTrait | OtherType

  /** `is_result_type`: judged by the last name of the written type. */
  predicate IsResult(t: ReturnType) { t.TypePath? && |t.segments| > 0 && t.segments[|t.segments| - 1] == "Result" }

  /** The annotated function, apart from its name and body. */
  datatype Signature = Signature(isAsync: bool, output: ReturnType, modulePath: string, file: string, args: seq<Value>)

  // ------------------------------------------------------------------ emitted code

  /** The shapes of expression the templates are made of. */
  datatype Code<!W> =
    | Call(callee: string)
    /** `aspect.around(ProceedingJoinPoint::new(|| body, context))` */
    | Around(aspect: Aspect<W>, context: JoinPoint, body: Code<W>)
    /** `match body { Ok(v) => Ok(Box::new(v)), Err(e) => Err(AspectError::execution(format!("{:?}", e))) }` */
    | BoxResult(body: Code<W>)
    /** `Ok(Box::new(body))` */
    | BoxValue(body: Code<W>)
    /** `match body { Ok(b) => Ok(*b), Err(e) => Err(format!("{:?}", e).into()) }` */
    | UnboxResult(body: Code<W>)
    /** `match body { Ok(b) => *b, Err(e) => panic!("<complaint>{:?}", e) }` */
    | UnboxOrPanic(body: Code<W>, complaint: string)
    /** `aspect.before(&context); body` */
    | BeforeThen(aspect: Aspect<W>, context: JoinPoint, body: Code<W>)
    /** `match body { Ok(v) => { after; Ok(v) } Err(e) => { after_error; Err(e) } }` */
    | AfterResult(aspect: Aspect<W>, context: JoinPoint, body: Code<W>)
    /** `let v = body; after; v` */
    | AfterValue(aspect: Aspect<W>, context: JoinPoint, body: Code<W>)
    | CompileError(message: string)

  function ContextOf<W>(sig: Signature, name: string, attr: Attribute<W>): JoinPoint {
    JoinPoint(name, sig.modulePath, sig.file, attr.line, sig.args)
  }

  const IMPL_TRAIT_REFUSED := "async aspects that override around() cannot be applied to async fn returning impl Trait; use a concrete return type or rely on before/after/after_error only"
  const SYNC_AROUND_REFUSED := "sync aspects that override around() cannot be applied to async fn; implement AsyncAspect or rely on before/after/after_error only"
  const ASYNC_ASPECT_REFUSED := "async aspects can only be applied to async fn; sync fn must use a type that implements Aspect"

  /** How the templates for functions without a `Result` begin their panic message. */
  function AroundFailed(sig: Signature): string {
    if sig.isAsync then "async aspect around() failed: " else "aspect around() failed: "
  }

  /** A call of the aspect's `around`, as the sync and the overriding async templates make it. */
  function AroundCall<W>(sig: Signature, name: string, attr: Attribute<W>, original: string): Code<W> {
    var context := ContextOf(sig, name, attr);
    if IsResult(sig.output) then UnboxResult(Around(attr.aspect, context, BoxResult(Call(original))))
    else UnboxOrPanic(Around(attr.aspect, context, BoxValue(Call(original))), AroundFailed(sig))
  }

  /** The hooks around an awaited call, as both async templates without `around` write them out. */
  function HookCalls<W>(sig: Signature, name: string, attr: Attribute<W>, original: string): Code<W> {
    var context := ContextOf(sig, name, attr);
    BeforeThen(attr.aspect, context,
               if IsResult(sig.output) then AfterResult(attr.aspect, context, Call(original))
               else AfterValue(attr.aspect, context, Call(original)))
  }

  /** The body of the generated wrapper. */
  function WrapperBody<W>(sig: Signature, name: string, attr: Attribute<W>, original: string): Code<W> {
    if sig.isAsync && attr.isAsyncAspect then
      if attr.aspect.custom.None? then HookCalls(sig, name, attr, original)
      else if !IsResult(sig.output) && sig.output.ImplTrait? then CompileError(IMPL_TRAIT_REFUSED)
      else AroundCall(sig, name, attr, original)
    else if sig.isAsync then HookCalls(sig, name, attr, original)
    else AroundCall(sig, name, attr, original)
  }

  /** `validate_aspect_usage` */
  function Validate<W>(sig: Signature, attr: Attribute<W>): Result<(), string> {
    if !sig.isAsync && attr.isAsyncAspect then Err(ASYNC_ASPECT_REFUSED)
    else if sig.isAsync && !attr.isAsyncAspect && attr.aspect.custom.Some? then Err(SYNC_AROUND_REFUSED)
    else if sig.isAsync && attr.isAsyncAspect && sig.output.ImplTrait? && attr.aspect.custom.Some? then Err(IMPL_TRAIT_REFUSED)
    else Ok(())
  }

  /** The name the annotated function is moved to. */
  function OriginalName<W>(sig: Signature, attr: Attribute<W>, name: string): string {
    (if sig.isAsync && attr.isAsyncAspect then "__async_aspect_original_" else "__aspect_original_") + name
  }

  // ------------------------------------------------------------------ expansion

  /** What a name stands for after expansion: the body as written, or a generated wrapper. */
  datatype Definition<!W> = Written | Generated(body: Code<W>)

  type Scope<!W> = map<string, Definition<W>>

  /**
   Expands a stack of attributes, outermost first. Each attribute moves the function, with the
   attributes still below it, to a new name, and puts a wrapper in its place.
   */
  function Expand<W>(sig: Signature, name: string, attrs: seq<Attribute<W>>): Result<Scope<W>, string>
    decreases attrs
  {
    if |attrs| == 0 then Ok(map[name := Written])
    else if Validate(sig, attrs[0]).Err? then Err(Validate(sig, attrs[0]).error)
    else
      var original := OriginalName(sig, attrs[0], name);
      match Expand(sig, original, attrs[1..])
      case Err(e) => Err(e)
      case Ok(scope) => Ok(scope[name := Generated(WrapperBody(sig, name, attrs[0], original))])
  }

  // ------------------------------------------------------------------ meaning of emitted code

  /** What an expression evaluates to; E is the function's own error type. */
  datatype Answer<+E> =
    | Plain(value: Value)
    | Good(value: Value)
    | Bad(error: E)
    | Boxed(outcome: Outcome)
    | Panicked(message: string)
    | Stuck

  /** The conversions the emitted code leaves to the types: `{:?}` of both error types, and `String::into`. */
  datatype Formats<!E> = Formats(debug: E -> string, into: string -> E, debugAspect: AspectError -> string)

  /** The body as written, and the conversions of its error type. */
  datatype Program<!W, !E> = Program(source: W -> (W, Answer<E>), formats: Formats<E>)

  function Boxing<E>(f: Formats<E>, a: Answer<E>): Answer<E> {
    match a
    case Good(v) => Boxed(Ok(v))
    case Bad(e) => Boxed(Err(ExecutionError(f.debug(e))))
    case Panicked(m) => Panicked(m)
    case _ => Stuck
  }

  function BoxingValue<E>(a: Answer<E>): Answer<E> {
    match a case Plain(v) => Boxed(Ok(v)) case Panicked(m) => Panicked(m) case _ => Stuck
  }

  function Unboxing<E>(f: Formats<E>, a: Answer<E>): Answer<E> {
    match a
    case Boxed(Ok(v)) => Good(v)
    case Boxed(Err(e)) => Bad(f.into(f.debugAspect(e)))
    case Panicked(m) => Panicked(m)
    case _ => Stuck
  }

  function UnboxingOrPanic<E>(f: Formats<E>, complaint: string, a: Answer<E>): Answer<E> {
    match a
    case Boxed(Ok(v)) => Plain(v)
    case Boxed(Err(e)) => Panicked(complaint + f.debugAspect(e))
    case Panicked(m) => Panicked(m)
    case _ => Stuck
  }

  /** What the hooks do once the call is back. */
  function Closing<W, E>(aspect: Aspect<W>, ctx: JoinPoint, f: Formats<E>, w: W, a: Answer<E>): W {
    match a
    case Plain(v) => aspect.after(w, ctx, v)
    case Good(v) => aspect.after(w, ctx, v)
    case Bad(e) => aspect.afterError(w, ctx, ExecutionError(f.debug(e)))
    case _ => w
  }

  /** What `around` does once its closure has answered. */
  function Leaving<W, E>(advice: Advice<W>, ctx: JoinPoint, memo: Instant, w: W, a: Answer<E>): (W, Answer<E>) {
    match a
    case Boxed(o) => var (w', o') := advice.leave(w, ctx, memo, o); (w', Boxed(o'))
    case Panicked(m) => (w, Panicked(m))
    case _ => (w, Stuck)
  }

  /** Runs code. A generated wrapper is not recursive: its name is out of scope while its body runs. */
  function Eval<W, E>(scope: Scope<W>, p: Program<W, E>, code: Code<W>, w: W): (W, Answer<E>)
    decreases |scope.Keys|, code
  {
    match code
    case Call(callee) =>
      if callee !in scope then (w, Stuck)
      else if scope[callee].Written? then p.source(w)
      else
        assert (scope - {callee}).Keys == scope.Keys - {callee};
        Eval(scope - {callee}, p, scope[callee].body, w)
    case Around(aspect, context, body) =>
      (match aspect.AroundAdvice().enter(w, context)
       case Skip(w', o) => (w', Boxed(o))
       case Go(w', memo) =>
         var (w'', a) := Eval(scope, p, body, w');
         Leaving(aspect.AroundAdvice(), context, memo, w'', a))
    case BoxResult(body) => var (w', a) := Eval(scope, p, body, w); (w', Boxing(p.formats, a))
    case BoxValue(body) => var (w', a) := Eval(scope, p, body, w); (w', BoxingValue(a))
    case UnboxResult(body) => var (w', a) := Eval(scope, p, body, w); (w', Unboxing(p.formats, a))
    case UnboxOrPanic(body, complaint) =>
      var (w', a) := Eval(scope, p, body, w); (w', UnboxingOrPanic(p.formats, complaint, a))
    case BeforeThen(aspect, context, body) => Eval(scope, p, body, aspect.before(w, context))
    case AfterResult(aspect, context, body) =>
      var (w', a) := Eval(scope, p, body, w);
      if a.Good? || a.Bad? then (Closing(aspect, context, p.formats, w', a), a)
      else (w', if a.Panicked? then a else Stuck)
    case AfterValue(aspect, context, body) =>
      var (w', a) := Eval(scope, p, body, w);
      if a.Plain? then (Closing(aspect, context, p.formats, w', a), a)
      else (w', if a.Panicked? then a else Stuck)
    case CompileError(_) => (w, Stuck)
  }
}
