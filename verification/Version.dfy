/** Release tags and the hand-written version order of `AppUpdateService`. */
module Version {
  import opened Wrappers
  import opened Seqs
  import opened Trimming
  import Lex

  /** UTF-16 code units, which is what `QString` compares. */
  type Unit = u: int | 0 <= u < 0x10000
  type QString = seq<Unit>

  const DASH: Unit := 0x2D
  const DOT: Unit := 0x2E
  const NIGHTLY: QString := [0x6E, 0x69, 0x67, 0x68, 0x74, 0x6C, 0x79]

  datatype Parts = Parts(components: seq<int>, suffix: QString, isNightly: bool)

  // ---- Parsing a tag -------------------------------------------------------------------

  /** `QChar::isSpace`. */
  predicate IsSpace(u: Unit) {
    0x09 <= u <= 0x0D || u in {0x20, 0x85, 0xA0, 0x1680, 0x2028, 0x2029, 0x202F, 0x205F, 0x3000}
    || 0x2000 <= u <= 0x200A
  }

  function Trimmed(s: QString): QString {
    Trim(s, IsSpace)
  }

  function StripLeadingV(s: QString): QString {
    if s != [] && (s[0] == 0x76 || s[0] == 0x56) then s[1..] else s
  }

  function ToLower(u: Unit): Unit {
    if 0x41 <= u <= 0x5A then u + 0x20 else u
  }

  predicate StartsWithNightly(s: QString) {
    |s| >= |NIGHTLY| && forall i | 0 <= i < |NIGHTLY| :: ToLower(s[i]) == NIGHTLY[i]
  }

  function IndexOf(s: QString, u: Unit): (r: Option<nat>)
    ensures r.Some? ==> r.value < |s| && s[r.value] == u
  {
    if s == [] then None
    else if s[0] == u then Some(0)
    else match IndexOf(s[1..], u) case None => None case Some(i) => Some(i + 1)
  }

  /** `split('.', SkipEmptyParts)`. */
  function Split(s: QString): seq<QString>
    decreases |s|
  {
    match IndexOf(s, DOT)
    case None => if s == [] then [] else [s]
    case Some(i) => (if i == 0 then [] else [s[..i]]) + Split(s[i + 1..])
  }

  function DigitsValue(s: QString): Option<nat> {
    if s == [] then Some(0)
    else
      var last := s[|s| - 1];
      if 0x30 <= last <= 0x39 then
        match DigitsValue(s[..|s| - 1])
        case None => None
        case Some(v) => Some(v * 10 + (last - 0x30))
      else None
  }

  /** `QString::toInt`, or 0 when it fails: white space around it is ignored, and a
      value outside 32 bits fails. */
  function ToIntOrZero(raw: QString): int {
    var s := Trimmed(raw);
    var negative := s != [] && s[0] == 0x2D;
    var digits := if s != [] && (s[0] == 0x2D || s[0] == 0x2B) then s[1..] else s;
    match DigitsValue(digits)
    case None => 0
    case Some(v) =>
      var n: int := if negative then 0 - v else v;
      if digits == [] || n < -0x8000_0000 || 0x7FFF_FFFF < n then 0 else n
  }

  function Components(parts: seq<QString>): seq<int> {
    if parts == [] then [] else [ToIntOrZero(parts[0])] + Components(parts[1..])
  }

  function Parse(raw: QString): Parts {
    var core := StripLeadingV(Trimmed(raw));
    if StartsWithNightly(core) then Parts([], core, true)
    else
      match IndexOf(core, DASH)
      case None => Parts(Components(Split(core)), [], false)
      case Some(i) => Parts(Components(Split(core[..i])), core[i + 1..], false)
  }

  method ParseVersion(raw: QString) returns (out: Parts)
    ensures out == Parse(raw)
  {
    var core := StripLeadingV(Trimmed(raw));
    if StartsWithNightly(core) {
      return Parts([], core, true);
    }
    var dashIdx := IndexOf(core, DASH);
    var head, suffix := core, [];
    if dashIdx.Some? {
      head := core[..dashIdx.value];
      suffix := core[dashIdx.value + 1..];
    }
    var parts := Split(head);
    var components: seq<int> := [];
    for i := 0 to |parts|
      invariant components + Components(parts[i..]) == Components(parts)
    {
      SuffixStep(parts, i);
      Associates(components, [ToIntOrZero(parts[i])], Components(parts[i + 1..]));
      components := components + [ToIntOrZero(parts[i])];
    }
    EmptyIsUnit(components);
    return Parts(components, suffix, false);
  }

  // ---- The order ------------------------------------------------------------------------

  /** Component `i`; missing trailing components count as zero. */
  function At(cs: seq<int>, i: nat): int {
    if i < |cs| then cs[i] else 0
  }

  function Drop(cs: seq<int>, i: nat): seq<int> {
    if i <= |cs| then cs[i..] else []
  }

  /** The first component that differs is larger in `a`. */
  predicate Greater(a: seq<int>, b: seq<int>)
    decreases |a| + |b|
  {
    if a == [] && b == [] then false
    else if At(a, 0) != At(b, 0) then At(a, 0) > At(b, 0)
    else Greater(Drop(a, 1), Drop(b, 1))
  }

  /** A release outranks its own pre-releases; pre-releases compare by text. */
  predicate SuffixNewer(s: QString, t: QString) {
    if s == [] || t == [] then s == [] && t != [] else Lex.Less(t, s)
  }

  predicate Newer(cand: Parts, curr: Parts) {
    if cand.isNightly != curr.isNightly then cand.isNightly
    else if cand.isNightly then Lex.Less(curr.suffix, cand.suffix)
    else
      Greater(cand.components, curr.components)
      || (!Greater(curr.components, cand.components) && SuffixNewer(cand.suffix, curr.suffix))
  }

  predicate NewerThan(candidate: QString, current: QString) {
    Newer(Parse(candidate), Parse(current))
  }

  /** The component loop of `isNewerThan`: the sign of the first difference, or 0. */
  method CompareComponents(x: seq<int>, y: seq<int>) returns (sign: int)
    ensures sign > 0 <==> Greater(x, y)
    ensures sign < 0 <==> Greater(y, x)
  {
    GreaterTrichotomy(x, y);
    var n := if |x| >= |y| then |x| else |y|;
    var i := 0;
    while i < n
      invariant 0 <= i <= n
      invariant Greater(x, y) == Greater(Drop(x, i), Drop(y, i))
      invariant Greater(y, x) == Greater(Drop(y, i), Drop(x, i))
    {
      var a := if i < |x| then x[i] else 0;
      var b := if i < |y| then y[i] else 0;
      assert At(Drop(x, i), 0) == a && At(Drop(y, i), 0) == b;
      assert Drop(Drop(x, i), 1) == Drop(x, i + 1) && Drop(Drop(y, i), 1) == Drop(y, i + 1);
      if a != b {
        return if a > b then 1 else -1;
      }
      i := i + 1;
    }
    return 0;
  }

  /** `isNewerThan`. */
  method IsNewerThan(candidate: QString, current: QString) returns (newer: bool)
    ensures newer == NewerThan(candidate, current)
  {
    var cand := ParseVersion(candidate);
    var curr := ParseVersion(current);
    if cand.isNightly && !curr.isNightly {
      return true;
    }
    if !cand.isNightly && curr.isNightly {
      return false;
    }
    if cand.isNightly && curr.isNightly {
      return Lex.Less(curr.suffix, cand.suffix);
    }
    var sign := CompareComponents(cand.components, curr.components);
    if sign != 0 {
      return sign > 0;
    }
    if cand.suffix == [] && curr.suffix != [] {
      return true;
    }
    if cand.suffix != [] && curr.suffix == [] {
      return false;
    }
    if cand.suffix == [] && curr.suffix == [] {
      return false;
    }
    return Lex.Less(curr.suffix, cand.suffix);
  }

  // ---- Strict weak order -------------------------------------------------------------------

  /** The same components once both are padded with zeros. */
  ghost predicate PaddedEqual(a: seq<int>, b: seq<int>) {
    forall i: nat | i < |a| || i < |b| :: At(a, i) == At(b, i)
  }

  lemma PaddedEqualStep(a: seq<int>, b: seq<int>)
    ensures PaddedEqual(a, b) <==> At(a, 0) == At(b, 0) && PaddedEqual(Drop(a, 1), Drop(b, 1))
  {
    if At(a, 0) == At(b, 0) && PaddedEqual(Drop(a, 1), Drop(b, 1)) {
      forall i: nat | i < |a| || i < |b|
        ensures At(a, i) == At(b, i)
      {
        if i > 0 {
          assert At(Drop(a, 1), i - 1) == At(a, i) && At(Drop(b, 1), i - 1) == At(b, i);
        }
      }
    }
    if PaddedEqual(a, b) {
      forall i: nat | i < |Drop(a, 1)| || i < |Drop(b, 1)|
        ensures At(Drop(a, 1), i) == At(Drop(b, 1), i)
      {
        assert At(a, i + 1) == At(b, i + 1);
      }
    }
  }

  /** Padded comparison never answers "greater" both ways, and answers neither way
      exactly for components equal after padding. */
  lemma {:induction false} GreaterTrichotomy(a: seq<int>, b: seq<int>)
    ensures !(Greater(a, b) && Greater(b, a))
    ensures !Greater(a, b) && !Greater(b, a) <==> PaddedEqual(a, b)
    decreases |a| + |b|
  {
    if a != [] || b != [] {
      PaddedEqualStep(a, b);
      if At(a, 0) == At(b, 0) {
        GreaterTrichotomy(Drop(a, 1), Drop(b, 1));
      }
    }
  }

  /** The component at place `i` is the first that differs after padding, and the larger one in `a`. */
  ghost predicate LargerFrom(a: seq<int>, b: seq<int>, i: nat) {
    At(a, i) > At(b, i) && forall j | 0 <= j < i :: At(a, j) == At(b, j)
  }

  lemma AtDropped(cs: seq<int>, i: nat)
    ensures At(Drop(cs, 1), i) == At(cs, i + 1)
  {
  }

  lemma LargerFromStep(a: seq<int>, b: seq<int>, i: nat)
    ensures LargerFrom(a, b, i + 1) <==> At(a, 0) == At(b, 0) && LargerFrom(Drop(a, 1), Drop(b, 1), i)
  {
    forall j: nat
      ensures At(Drop(a, 1), j) == At(a, j + 1) && At(Drop(b, 1), j) == At(b, j + 1)
    {
      AtDropped(a, j);
      AtDropped(b, j);
    }
    if LargerFrom(a, b, i + 1) {
      assert At(a, 0) == At(b, 0);
      forall j | 0 <= j < i
        ensures At(Drop(a, 1), j) == At(Drop(b, 1), j)
      {
        assert At(a, j + 1) == At(b, j + 1);
      }
    }
    if At(a, 0) == At(b, 0) && LargerFrom(Drop(a, 1), Drop(b, 1), i) {
      forall j | 0 <= j < i + 1
        ensures At(a, j) == At(b, j)
      {
        if j > 0 {
          assert At(Drop(a, 1), j - 1) == At(Drop(b, 1), j - 1);
        }
      }
    }
  }

  /** The comparison is decided by the first component that differs: it is larger in the greater one. */
  lemma {:induction false} GreaterIsFirstDifference(a: seq<int>, b: seq<int>)
    ensures Greater(a, b) <==> exists i: nat :: LargerFrom(a, b, i)
    decreases |a| + |b|
  {
    if a != [] || b != [] {
      GreaterIsFirstDifference(Drop(a, 1), Drop(b, 1));
      if Greater(a, b) {
        if At(a, 0) != At(b, 0) {
          assert LargerFrom(a, b, 0);
        } else {
          var i: nat :| LargerFrom(Drop(a, 1), Drop(b, 1), i);
          LargerFromStep(a, b, i);
        }
      } else if i: nat :| LargerFrom(a, b, i) {
        if i > 0 {
          LargerFromStep(a, b, i - 1);
        }
      }
    }
  }

  predicate AtLeast(a: seq<int>, b: seq<int>) {
    !Greater(b, a)
  }

  lemma {:induction false} GreaterTransitive(a: seq<int>, b: seq<int>, c: seq<int>)
    ensures AtLeast(a, b) && AtLeast(b, c) ==> AtLeast(a, c)
    ensures AtLeast(a, b) && AtLeast(b, c) && (Greater(a, b) || Greater(b, c)) ==> Greater(a, c)
    decreases |a| + |b| + |c|
  {
    if a != [] || b != [] || c != [] {
      GreaterTransitive(Drop(a, 1), Drop(b, 1), Drop(c, 1));
    }
  }

  lemma SuffixNewerIsStrictTotalOrder(s: QString, t: QString, u: QString)
    ensures !SuffixNewer(s, s)
    ensures !(SuffixNewer(s, t) && SuffixNewer(t, s))
    ensures s == t || SuffixNewer(s, t) || SuffixNewer(t, s)
    ensures SuffixNewer(s, t) && SuffixNewer(t, u) ==> SuffixNewer(s, u)
  {
    Lex.LessIrreflexive(s);
    Lex.LessTotal(s, t);
    if Lex.Less(s, t) {
      Lex.LessAsymmetric(s, t);
    }
    if Lex.Less(u, t) && Lex.Less(t, s) {
      Lex.LessTransitive(u, t, s);
    }
  }

  /** Tags `isNewerThan` cannot tell apart. */
  ghost predicate Equivalent(p: Parts, q: Parts) {
    p.isNightly == q.isNightly && p.suffix == q.suffix && (!p.isNightly ==> PaddedEqual(p.components, q.components))
  }

  lemma NewerIsAsymmetric(p: Parts, q: Parts)
    ensures !(Newer(p, q) && Newer(q, p))
    ensures !Newer(p, q) && !Newer(q, p) <==> Equivalent(p, q)
  {
    GreaterTrichotomy(p.components, q.components);
    SuffixNewerIsStrictTotalOrder(p.suffix, q.suffix, q.suffix);
    Lex.LessIrreflexive(p.suffix);
    Lex.LessTotal(p.suffix, q.suffix);
    if Lex.Less(p.suffix, q.suffix) {
      Lex.LessAsymmetric(p.suffix, q.suffix);
    }
  }

  lemma NewerIsTransitive(p: Parts, q: Parts, r: Parts)
    requires Newer(p, q) && Newer(q, r)
    ensures Newer(p, r)
  {
    if p.isNightly && q.isNightly && r.isNightly {
      Lex.LessTransitive(r.suffix, q.suffix, p.suffix);
    } else if !p.isNightly {
      GreaterTransitive(p.components, q.components, r.components);
      GreaterTrichotomy(p.components, q.components);
      GreaterTrichotomy(q.components, r.components);
      GreaterTrichotomy(p.components, r.components);
      SuffixNewerIsStrictTotalOrder(p.suffix, q.suffix, r.suffix);
    }
  }

  /** Main result: on all tag strings `isNewerThan` is a strict weak order - irreflexive,
      asymmetric, transitive, with transitive incomparability - and two tags are
      incomparable exactly when both are nightly with equal suffixes, or both stable
      with equal zero-padded components and equal suffixes. */
  lemma NewerThanIsStrictWeakOrder(a: QString, b: QString, c: QString)
    ensures !NewerThan(a, a)
    ensures NewerThan(a, b) ==> !NewerThan(b, a)
    ensures NewerThan(a, b) && NewerThan(b, c) ==> NewerThan(a, c)
    ensures Incomparable(a, b) <==> Equivalent(Parse(a), Parse(b))
    ensures Incomparable(a, b) && Incomparable(b, c) ==> Incomparable(a, c)
  {
    NewerIsAsymmetric(Parse(a), Parse(a));
    NewerIsAsymmetric(Parse(a), Parse(b));
    NewerIsAsymmetric(Parse(b), Parse(c));
    NewerIsAsymmetric(Parse(a), Parse(c));
    if NewerThan(a, b) && NewerThan(b, c) {
      NewerIsTransitive(Parse(a), Parse(b), Parse(c));
    }
    if Incomparable(a, b) && Incomparable(b, c) {
      EquivalentTransitive(Parse(a), Parse(b), Parse(c));
    }
  }

  predicate Incomparable(a: QString, b: QString) {
    !NewerThan(a, b) && !NewerThan(b, a)
  }

  lemma EquivalentTransitive(p: Parts, q: Parts, r: Parts)
    requires Equivalent(p, q) && Equivalent(q, r)
    ensures Equivalent(p, r)
  {
    if !p.isNightly {
      forall i: nat | i < |p.components| || i < |r.components|
        ensures At(p.components, i) == At(r.components, i)
      {
        if i < |q.components| || i < |p.components| {
          assert At(p.components, i) == At(q.components, i);
        }
        if i < |q.components| || i < |r.components| {
          assert At(q.components, i) == At(r.components, i);
        }
      }
    }
  }
}
