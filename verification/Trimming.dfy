/** White space off the ends of a text, as Qt's `trimmed` takes it. */
module Trimming {
  function TrimLeft<T>(s: seq<T>, isSpace: T -> bool): seq<T> {
    if s != [] && isSpace(s[0]) then TrimLeft(s[1..], isSpace) else s
  }

  function TrimRight<T>(s: seq<T>, isSpace: T -> bool): seq<T> {
    if s != [] && isSpace(s[|s| - 1]) then TrimRight(s[..|s| - 1], isSpace) else s
  }

  function Trim<T>(s: seq<T>, isSpace: T -> bool): seq<T> {
    TrimRight(TrimLeft(s, isSpace), isSpace)
  }

  predicate AllSpace<T>(s: seq<T>, isSpace: T -> bool) {
    forall i | 0 <= i < |s| :: isSpace(s[i])
  }

  /** It has no space at either end. */
  predicate Tight<T>(s: seq<T>, isSpace: T -> bool) {
    s != [] ==> !isSpace(s[0]) && !isSpace(s[|s| - 1])
  }

  lemma {:induction false} TrimLeftDrops<T>(left: seq<T>, s: seq<T>, isSpace: T -> bool)
    requires AllSpace(left, isSpace) && (s != [] ==> !isSpace(s[0]))
    ensures TrimLeft(left + s, isSpace) == s
  {
    if left == [] {
      assert left + s == s;
    } else {
      assert (left + s)[1..] == left[1..] + s;
      TrimLeftDrops(left[1..], s, isSpace);
    }
  }

  lemma {:induction false} TrimRightDrops<T>(s: seq<T>, right: seq<T>, isSpace: T -> bool)
    requires AllSpace(right, isSpace) && (s != [] ==> !isSpace(s[|s| - 1]))
    ensures TrimRight(s + right, isSpace) == s
    decreases |right|
  {
    if right == [] {
      assert s + right == s;
    } else {
      assert (s + right)[..|s + right| - 1] == s + right[..|right| - 1];
      TrimRightDrops(s, right[..|right| - 1], isSpace);
    }
  }

  /** Only white space trims to nothing. */
  lemma TrimsToNothing<T>(s: seq<T>, isSpace: T -> bool)
    ensures Trim(s, isSpace) == [] <==> AllSpace(s, isSpace)
  {
    LeftIsSpace(s, isSpace);
    RightIsSpace(TrimLeft(s, isSpace), isSpace);
  }

  lemma {:induction false} LeftIsSpace<T>(s: seq<T>, isSpace: T -> bool)
    ensures AllSpace(s, isSpace) ==> TrimLeft(s, isSpace) == []
    ensures TrimLeft(s, isSpace) != [] ==> !isSpace(TrimLeft(s, isSpace)[0])
    ensures TrimLeft(s, isSpace) == [] ==> AllSpace(s, isSpace)
  {
    if s != [] && isSpace(s[0]) {
      LeftIsSpace(s[1..], isSpace);
      assert forall i | 1 <= i < |s| :: s[i] == s[1..][i - 1];
    }
  }

  lemma {:induction false} RightIsSpace<T>(s: seq<T>, isSpace: T -> bool)
    ensures s != [] && !isSpace(s[0]) ==> TrimRight(s, isSpace) != []
    ensures s == [] ==> TrimRight(s, isSpace) == []
    decreases |s|
  {
    if |s| > 1 && isSpace(s[|s| - 1]) {
      RightIsSpace(s[..|s| - 1], isSpace);
    }
  }

  /** Trimming takes the white space off both ends, and nothing else. */
  lemma TrimDrops<T>(left: seq<T>, s: seq<T>, right: seq<T>, isSpace: T -> bool)
    requires AllSpace(left, isSpace) && AllSpace(right, isSpace) && Tight(s, isSpace)
    ensures Trim(left + s + right, isSpace) == s
  {
    if s == [] {
      assert left + s + right == (left + right) + s;
      TrimLeftDrops(left + right, s, isSpace);
    } else {
      assert left + s + right == left + (s + right);
      TrimLeftDrops(left, s + right, isSpace);
      TrimRightDrops(s, right, isSpace);
    }
  }
}
