/** Lexicographic order on sequences of character codes, as Python compares
    `str`, C++ compares `std::string` and Qt compares `QString`. */
module Lex {

  /** The code points of a string, in order. */
  function Codes(s: string): (r: seq<int>)
    ensures |r| == |s|
  {
    seq(|s|, i requires 0 <= i < |s| => s[i] as int)
  }

  predicate Less(a: seq<int>, b: seq<int>) {
    if b == [] then false
    else if a == [] then true
    else if a[0] != b[0] then a[0] < b[0]
    else Less(a[1..], b[1..])
  }

  lemma {:induction false} LessIrreflexive(a: seq<int>)
    ensures !Less(a, a)
  {
    if a != [] {
      LessIrreflexive(a[1..]);
    }
  }

  lemma {:induction false} LessTransitive(a: seq<int>, b: seq<int>, c: seq<int>)
    requires Less(a, b) && Less(b, c)
    ensures Less(a, c)
  {
    if a != [] && a[0] == b[0] == c[0] {
      LessTransitive(a[1..], b[1..], c[1..]);
    }
  }

  lemma {:induction false} LessTotal(a: seq<int>, b: seq<int>)
    ensures a == b || Less(a, b) || Less(b, a)
  {
    if a != [] && b != [] && a[0] == b[0] {
      LessTotal(a[1..], b[1..]);
      assert a == [a[0]] + a[1..] && b == [b[0]] + b[1..];
    }
  }

  lemma LessAsymmetric(a: seq<int>, b: seq<int>)
    requires Less(a, b)
    ensures !Less(b, a)
  {
    if Less(b, a) {
      LessTransitive(a, b, a);
      LessIrreflexive(a);
    }
  }

  /** `a` comes before `b` if and only if, after a common beginning, it ends or has the smaller element. */
  lemma {:induction false} LessIsFirstDifference(a: seq<int>, b: seq<int>)
    ensures Less(a, b) <==> exists k: nat :: FirstDifference(a, b, k)
  {
    if a != [] && b != [] && a[0] == b[0] {
      LessIsFirstDifference(a[1..], b[1..]);
      if k: nat :| FirstDifference(a[1..], b[1..], k) {
        assert a[..k + 1] == [a[0]] + a[1..][..k] && b[..k + 1] == [b[0]] + b[1..][..k];
        assert FirstDifference(a, b, k + 1);
      }
      if k: nat :| FirstDifference(a, b, k) {
        assert k > 0 && a[1..][..k - 1] == a[..k][1..] && b[1..][..k - 1] == b[..k][1..];
        assert FirstDifference(a[1..], b[1..], k - 1);
      }
    } else if b != [] && (a == [] || a[0] < b[0]) {
      assert FirstDifference(a, b, 0);
    } else {
      forall k: nat
        ensures !FirstDifference(a, b, k)
      {
        if 0 < k <= |a| && k < |b| {
          assert a[..k][0] == a[0] && b[..k][0] == b[0];
        }
      }
    }
  }

  /** The sequences agree up to place `k`, where `a` has ended or has the smaller element. */
  predicate FirstDifference(a: seq<int>, b: seq<int>, k: nat) {
    k <= |a| && k < |b| && a[..k] == b[..k] && (k == |a| || a[k] < b[k])
  }

  lemma CodesInjective(s: string, t: string)
    requires Codes(s) == Codes(t)
    ensures s == t
  {
    forall i | 0 <= i < |s|
      ensures s[i] == t[i]
    {
      assert Codes(s)[i] == Codes(t)[i];
    }
  }

  /** String order by code point. */
  predicate Before(s: string, t: string) {
    Less(Codes(s), Codes(t))
  }

  /** `s` comes before `t` if and only if, after a common beginning, it ends or has the smaller character. */
  lemma BeforeIsFirstDifference(s: string, t: string)
    ensures Before(s, t) <==>
            exists k: nat :: k <= |s| && k < |t| && s[..k] == t[..k] && (k == |s| || s[k] < t[k])
  {
    LessIsFirstDifference(Codes(s), Codes(t));
    forall k: nat
      ensures FirstDifference(Codes(s), Codes(t), k) <==>
              k <= |s| && k < |t| && s[..k] == t[..k] && (k == |s| || s[k] < t[k])
    {
      if k <= |s| && k < |t| {
        CodesOfPrefix(s, k);
        CodesOfPrefix(t, k);
        if Codes(s[..k]) == Codes(t[..k]) {
          CodesInjective(s[..k], t[..k]);
        }
      }
    }
  }

  lemma CodesOfPrefix(s: string, k: nat)
    requires k <= |s|
    ensures Codes(s)[..k] == Codes(s[..k])
  {
  }

  /** `Before` is a strict total order on strings. */
  lemma BeforeIsStrictTotalOrder(s: string, t: string, u: string)
    ensures !Before(s, s)
    ensures s == t || Before(s, t) || Before(t, s)
    ensures !(Before(s, t) && Before(t, s))
    ensures Before(s, t) && Before(t, u) ==> Before(s, u)
  {
    LessIrreflexive(Codes(s));
    LessTotal(Codes(s), Codes(t));
    if Codes(s) == Codes(t) {
      CodesInjective(s, t);
    }
    if Before(s, t) {
      LessAsymmetric(Codes(s), Codes(t));
      if Before(t, u) {
        LessTransitive(Codes(s), Codes(t), Codes(u));
      }
    }
  }
}
