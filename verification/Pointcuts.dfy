/** Pointcut trees, their patterns, and their evaluation (aspect-core/src/pointcut/{ast,pattern,matcher}.rs). */
module Pointcuts {
  import opened Common
  import opened Strings

  datatype Visibility = Public | Crate | Super | Private {
    predicate Matches(vis: string) {
      match this
      case Public => vis == "pub"
      case Crate => vis == "pub(crate)"
      case Super => vis == "pub(super)"
      case Private => vis == ""
    }
  }

  datatype NamePattern = Wildcard | Exact(text: string) | Prefix(text: string) | Suffix(text: string) | Containing(text: string) {
    predicate Matches(name: string) {
      match this
      case Wildcard => true
      case Exact(t) => name == t
      case Prefix(t) => StartsWith(name, t)
      case Suffix(t) => EndsWith(name, t)
      case Containing(t) => Contains(name, t)
    }
  }

  datatype ExecutionPattern = ExecutionPattern(
    visibility: Option<Visibility>,
    name: NamePattern,
    returnType: Option<string>)

  datatype ModulePattern = ModulePattern(path: string) {
    /** The module itself, or any module below it. */
    predicate MatchesPath(modulePath: string) { modulePath == path || StartsWith(modulePath, path + "::") }
  }

  datatype Pointcut =
    | Execution(execution: ExecutionPattern)
    | Within(module_: ModulePattern)
    | And(left: Pointcut, right: Pointcut)
    | Or(left: Pointcut, right: Pointcut)
    | Not(inner: Pointcut)
  {
    predicate IsLeaf() { Execution? || Within? }
  }

  datatype FunctionInfo = FunctionInfo(
    name: string,
    modulePath: string,
    visibility: string,
    returnType: Option<string>)

  predicate MatchesExecution(p: ExecutionPattern, f: FunctionInfo) {
    && (p.visibility.Some? ==> p.visibility.value.Matches(f.visibility))
    && p.name.Matches(f.name)
    && (p.returnType.Some? ==> f.returnType.Some? && Contains(f.returnType.value, p.returnType.value))
  }

  predicate Matches(p: Pointcut, f: FunctionInfo) {
    match p
    case Execution(e) => MatchesExecution(e, f)
    case Within(m) => m.MatchesPath(f.modulePath)
    case And(l, r) => Matches(l, f) && Matches(r, f)
    case Or(l, r) => Matches(l, f) || Matches(r, f)
    case Not(x) => !Matches(x, f)
  }

  /** A return type in a pattern only narrows it: to the functions whose return type has that text in it. */
  lemma ReturnTypeNarrows(e: ExecutionPattern, t: string, f: FunctionInfo)
    ensures Matches(Execution(e.(returnType := Some(t))), f)
       <==> Matches(Execution(e.(returnType := None)), f)
            && f.returnType.Some? && exists a, b :: f.returnType.value == a + t + b
  {
    if f.returnType.Some? {
      var r := f.returnType.value;
      if Contains(r, t) {
        var i :| 0 <= i <= |r| && OccursAt(r, t, i);
        assert r == r[..i] + t + r[i + |t|..];
      }
      if a, b :| r == a + t + b {
        assert OccursAt(r, t, |a|);
      }
    }
  }

  /** Each of the four spellings of a visibility is matched by exactly one visibility, and no other text by any. */
  lemma VisibilitiesPartition(vis: string)
    ensures (exists v: Visibility :: v.Matches(vis)) <==> vis in ["pub", "pub(crate)", "pub(super)", ""]
    ensures forall v: Visibility, u: Visibility | v.Matches(vis) && u.Matches(vis) :: v == u
  {
    var texts := ["pub", "pub(crate)", "pub(super)", ""];
    assert Public.Matches(texts[0]) && Crate.Matches(texts[1]) && Super.Matches(texts[2]) && Private.Matches(texts[3]);
  }
}
