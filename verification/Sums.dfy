/** Sums over sequences. */
module Sums {

  function Soma<T>(f: T -> int, s: seq<T>): int {
    if s == [] then 0 else f(s[0]) + Soma(f, s[1..])
  }

  lemma {:induction false} SomaUpdate<T>(f: T -> int, s: seq<T>, i: nat, v: T)
    requires i < |s|
    ensures Soma(f, s[i := v]) == Soma(f, s) - f(s[i]) + f(v)
  {
    if i == 0 {
      assert s[i := v][1..] == s[1..];
    } else {
      SomaUpdate(f, s[1..], i - 1, v);
      assert s[i := v][1..] == s[1..][i - 1 := v];
    }
  }

  lemma {:induction false} SomaNonNegative<T>(f: T -> int, s: seq<T>)
    requires forall i :: 0 <= i < |s| ==> f(s[i]) >= 0
    ensures Soma(f, s) >= 0
    ensures Soma(f, s) > 0 ==> exists i :: 0 <= i < |s| && f(s[i]) > 0
  {
    if s != [] {
      SomaNonNegative(f, s[1..]);
      if Soma(f, s) > 0 && f(s[0]) == 0 {
        var i :| 0 <= i < |s[1..]| && f(s[1..][i]) > 0;
        assert f(s[i + 1]) > 0;
      }
    }
  }

  lemma {:induction false} SomaZero<T>(f: T -> int, s: seq<T>)
    requires forall i :: 0 <= i < |s| ==> f(s[i]) == 0
    ensures Soma(f, s) == 0
  {
    if s != [] { SomaZero(f, s[1..]); }
  }
}
