/**
 Admission by a token bucket, with time measured in tokens earned. On this scale everything is
 linear: between readings u and v the bucket earns v - u.
 */
module TokenWindows {
  import opened Common

  /** Tokens left and decisions taken after calls at the credit readings `us`. */
  function CreditRun(max: real, tokens: real, last: real, us: seq<real>): (r: (real, seq<bool>))
    ensures |r.1| == |us|
  {
    if |us| == 0 then (tokens, [])
    else
      var n := |us| - 1;
      var (before, ds) := CreditRun(max, tokens, last, us[..n]);
      var held := Held(max, before, if n == 0 then last else us[n - 1], us[n]);
      if held >= 1.0 then (held - 1.0, ds + [true]) else (held, ds + [false])
  }

  /** Tokens in the bucket once the credit from `last` to `now` is in. */
  function Held(max: real, tokens: real, last: real, now: real): real {
    Min(tokens + (now - last), max)
  }

  /** How many of the calls s, s+1, .., e-1 were admitted. */
  function Admitted(ds: seq<bool>, s: nat, e: nat): nat
    requires s <= e <= |ds|
  {
    if s == e then 0 else Admitted(ds, s, e - 1) + if ds[e - 1] then 1 else 0
  }

  /** What the window opened by call s still allows just before call e decides. */
  function Allowance(max: real, us: seq<real>, ds: seq<bool>, s: nat, e: nat): real
    requires s <= e < |us| && e <= |ds|
  {
    max + (us[e] - us[s]) - Admitted(ds, s, e) as real
  }

  ghost predicate Rising(last: real, us: seq<real>) {
    forall i | 0 <= i < |us| :: (if i == 0 then last else us[i - 1]) <= us[i]
  }

  lemma {:induction false} AdmittedIgnoresLater(ds: seq<bool>, more: seq<bool>, s: nat, e: nat)
    requires s <= e <= |ds|
    ensures Admitted(ds + more, s, e) == Admitted(ds, s, e)
    decreases e
  {
    if s < e {
      AdmittedIgnoresLater(ds, more, s, e - 1);
    }
  }

  /** The decisions taken so far do not depend on calls still to come. */
  lemma {:induction false} CreditRunPrefix(max: real, tokens: real, last: real, us: seq<real>, n: nat)
    requires n <= |us|
    ensures CreditRun(max, tokens, last, us[..n]).1 == CreditRun(max, tokens, last, us).1[..n]
    decreases |us|
  {
    if n == |us| {
      assert us[..n] == us;
    } else {
      var init := us[..|us| - 1];
      CreditRunPrefix(max, tokens, last, init, n);
      assert init[..n] == us[..n];
    }
  }

  /** The bucket holds the smallest allowance of all windows open at call e. */
  ghost predicate IsTightest(max: real, us: seq<real>, ds: seq<bool>, e: nat, held: real)
    requires e < |us| && e <= |ds|
  {
    && (forall s {:trigger Allowance(max, us, ds, s, e)} | 0 <= s <= e :: held <= Allowance(max, us, ds, s, e))
    && (exists s {:trigger Allowance(max, us, ds, s, e)} :: 0 <= s <= e && held == Allowance(max, us, ds, s, e))
  }

  /** Bucket content just before call e spends. */
  function HeldAt(max: real, last: real, us: seq<real>, e: nat): real
    requires e < |us|
  {
    Held(max, CreditRun(max, max, last, us[..e]).0, if e == 0 then last else us[e - 1], us[e])
  }

  /** A window still open at call e loses what call e - 1 spent and gains what was earned since. */
  lemma AllowanceStep(max: real, us: seq<real>, ds: seq<bool>, s: nat, e: nat)
    requires s < e < |us| && e <= |ds|
    ensures Allowance(max, us, ds, s, e)
         == Allowance(max, us, ds, s, e - 1) - (if ds[e - 1] then 1.0 else 0.0) + (us[e] - us[e - 1])
  {}

  /** The content at call e, from the content at the call before. */
  lemma HeldStep(max: real, last: real, us: seq<real>, e: nat)
    requires 0 < e < |us|
    ensures
      var spent := if CreditRun(max, max, last, us).1[e - 1] then 1.0 else 0.0;
      && HeldAt(max, last, us, e) == Held(max, HeldAt(max, last, us, e - 1) - spent, us[e - 1], us[e])
      && (spent == 1.0 ==> HeldAt(max, last, us, e - 1) >= 1.0)
  {
    assert us[..e][..e - 1] == us[..e - 1];
    CreditRunPrefix(max, max, last, us, e);
  }

  lemma {:induction false} HeldIsTightest(max: real, last: real, us: seq<real>, e: nat)
    requires max >= 0.0 && Rising(last, us) && e < |us|
    ensures HeldAt(max, last, us, e) >= 0.0
    ensures IsTightest(max, us, CreditRun(max, max, last, us).1, e, HeldAt(max, last, us, e))
    decreases e
  {
    var ds := CreditRun(max, max, last, us).1;
    var held := HeldAt(max, last, us, e);
    assert Allowance(max, us, ds, e, e) == max;
    if e > 0 {
      HeldIsTightest(max, last, us, e - 1);
      HeldStep(max, last, us, e);
      TightestStep(max, us, ds, e, HeldAt(max, last, us, e - 1), held);
    }
  }

  lemma TightestStep(max: real, us: seq<real>, ds: seq<bool>, e: nat, earlier: real, held: real)
    requires 0 < e < |us| && e <= |ds| && us[e - 1] <= us[e]
    requires IsTightest(max, us, ds, e - 1, earlier)
    requires held == Held(max, earlier - (if ds[e - 1] then 1.0 else 0.0), us[e - 1], us[e])
    ensures IsTightest(max, us, ds, e, held)
  {
    assert Allowance(max, us, ds, e, e) == max;
    var s :| 0 <= s <= e - 1 && earlier == Allowance(max, us, ds, s, e - 1);
    AllowanceStep(max, us, ds, s, e);
    assert held == Allowance(max, us, ds, s, e) || held == Allowance(max, us, ds, e, e);
    forall s | 0 <= s <= e
      ensures held <= Allowance(max, us, ds, s, e)
    {
      if s < e {
        AllowanceStep(max, us, ds, s, e);
      }
    }
  }

  /** Call e is admitted exactly when a whole token is held. */
  lemma DecidedByHeld(max: real, last: real, us: seq<real>, e: nat)
    requires e < |us|
    ensures CreditRun(max, max, last, us).1[e] <==> HeldAt(max, last, us, e) >= 1.0
  {
    CreditRunPrefix(max, max, last, us, e + 1);
    assert us[..e + 1][..e] == us[..e];
  }

  /** What call e spends still fits into every window open at it. */
  lemma NoWindowOverspends(max: real, last: real, us: seq<real>, s: nat, e: nat)
    requires max >= 0.0 && Rising(last, us) && s <= e < |us|
    ensures
      var ds := CreditRun(max, max, last, us).1;
      Admitted(ds, s, e + 1) as real <= Allowance(max, us, ds, s, e) + Admitted(ds, s, e) as real
  {
    HeldIsTightest(max, last, us, e);
    DecidedByHeld(max, last, us, e);
  }
}
