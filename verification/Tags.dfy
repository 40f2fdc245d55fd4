/** Release tags as they are written, what `parseVersion` makes of them, and which of two is newer. */
module Tags {
  import opened Seqs
  import opened Trimming
  import opened Version
  import opened Wrappers
  import Lex

  // ---- Numerals ----------------------------------------------------------------------------

  function Digit(d: nat): Unit
    requires d < 10
  {
    0x30 + d
  }

  predicate IsDigit(u: Unit) {
    0x30 <= u <= 0x39
  }

  /** `n` in decimal. */
  function Numeral(n: nat): QString {
    if n < 10 then [Digit(n)] else Numeral(n / 10) + [Digit(n % 10)]
  }

  predicate AllDigits(s: QString) {
    forall i | 0 <= i < |s| :: IsDigit(s[i])
  }

  lemma {:induction false} NumeralReads(n: nat)
    ensures Numeral(n) != [] && AllDigits(Numeral(n)) && DigitsValue(Numeral(n)) == Some(n)
  {
    if n < 10 {
      assert Numeral(n)[..0] == [];
    } else {
      NumeralReads(n / 10);
      FrontOfPush(Numeral(n / 10), Digit(n % 10));
    }
  }

  lemma DigitsAreTight(s: QString)
    requires AllDigits(s)
    ensures Trimmed(s) == s
  {
    TrimDrops([], s, [], Version.IsSpace);
    EmptyIsUnit(s);
  }

  /** A numeral is read as its number, or as 0 if that needs more than 31 bits. */
  lemma ComponentReads(n: nat)
    ensures ToIntOrZero(Numeral(n)) == if n <= 0x7FFF_FFFF then n else 0
  {
    NumeralReads(n);
    DigitsAreTight(Numeral(n));
    assert IsDigit(Numeral(n)[0]);
  }

  /** A sign before it counts. */
  lemma SignedComponentReads(n: nat)
    requires n <= 0x7FFF_FFFF
    ensures ToIntOrZero([0x2B] + Numeral(n)) == n && ToIntOrZero([0x2D] + Numeral(n)) == 0 - n
  {
    NumeralReads(n);
    SignedIsTight(0x2B, Numeral(n));
    SignedIsTight(0x2D, Numeral(n));
  }

  lemma SignedIsTight(sign: Unit, digits: QString)
    requires sign in {0x2B, 0x2D} && AllDigits(digits) && digits != []
    ensures Trimmed([sign] + digits) == [sign] + digits && ([sign] + digits)[1..] == digits
  {
    TrimDrops([], [sign] + digits, [], Version.IsSpace);
    EmptyIsUnit([sign] + digits);
  }

  lemma {:induction false} NoNumberWithout(s: QString)
    ensures DigitsValue(s).Some? <==> AllDigits(s)
  {
    if s != [] {
      NoNumberWithout(s[..|s| - 1]);
    }
  }

  /** A component that is no number, but for its sign, is read as 0. */
  lemma OtherComponentsAreZero(raw: QString)
    requires Trimmed(raw) != [] && Trimmed(raw)[0] != 0x2D && Trimmed(raw)[0] != 0x2B && !AllDigits(Trimmed(raw))
    ensures ToIntOrZero(raw) == 0
  {
    NoNumberWithout(Trimmed(raw));
  }

  // ---- Dotted numbers ------------------------------------------------------------------------

  /** The numbers in decimal, with dots between them. */
  function Dotted(cs: seq<nat>): QString {
    if cs == [] then []
    else if |cs| == 1 then Numeral(cs[0])
    else Numeral(cs[0]) + [DOT] + Dotted(cs[1..])
  }

  predicate Fits(cs: seq<nat>) {
    forall i | 0 <= i < |cs| :: cs[i] <= 0x7FFF_FFFF
  }

  lemma {:induction false} IndexOfFirst(a: QString, u: Unit, b: QString)
    requires u !in a
    ensures IndexOf(a, u) == None && IndexOf(a + [u] + b, u) == Some(|a|)
  {
    if a != [] {
      assert (a + [u] + b)[1..] == a[1..] + [u] + b;
      IndexOfFirst(a[1..], u, b);
    }
  }

  lemma SplitAtDot(a: QString, b: QString)
    requires DOT !in a && a != []
    ensures Split(a) == [a] && Split(a + [DOT] + b) == [a] + Split(b)
  {
    IndexOfFirst(a, DOT, b);
    var s := a + [DOT] + b;
    assert s[..|a|] == a && s[|a| + 1..] == b;
  }

  lemma ComponentsOfCons(part: QString, parts: seq<QString>)
    ensures Components([part] + parts) == [ToIntOrZero(part)] + Components(parts)
  {
    assert ([part] + parts)[1..] == parts;
  }

  lemma {:induction false} DottedReads(cs: seq<nat>)
    requires Fits(cs)
    ensures Components(Split(Dotted(cs))) == cs
  {
    if cs != [] {
      var first := Numeral(cs[0]);
      NumeralReads(cs[0]);
      ComponentReads(cs[0]);
      DottedReads(cs[1..]);
      SplitAtDot(first, Dotted(cs[1..]));
      ComponentsOfCons(first, if |cs| == 1 then [] else Split(Dotted(cs[1..])));
      EmptyIsUnit([first]);
      ConsOfTail(cs);
    }
  }

  lemma {:induction false} DottedUnits(cs: seq<nat>)
    ensures forall u | u in Dotted(cs) :: IsDigit(u) || u == DOT
    ensures cs != [] ==> Dotted(cs) != [] && IsDigit(Dotted(cs)[0]) && IsDigit(Dotted(cs)[|Dotted(cs)| - 1])
  {
    if cs != [] {
      NumeralReads(cs[0]);
      DottedUnits(cs[1..]);
    }
  }

  // ---- Tags ------------------------------------------------------------------------------------

  /** An optional `v`, in either case. */
  predicate IsPrefix(v: QString) {
    v == [] || v == [0x76] || v == [0x56]
  }

  /** `v1.2.3` or `v1.2.3-suffix`, with or without the `v`. */
  function Tag(v: QString, cs: seq<nat>, suffix: Option<QString>): QString {
    v + Core(cs, suffix)
  }

  function Core(cs: seq<nat>, suffix: Option<QString>): QString {
    match suffix
    case None => Dotted(cs)
    case Some(s) => Dotted(cs) + [DASH] + s
  }

  /** A suffix that does not end in white space, which would be trimmed. */
  predicate IsSuffix(suffix: Option<QString>) {
    suffix.Some? && suffix.value != [] ==> !Version.IsSpace(suffix.value[|suffix.value| - 1])
  }

  /** What comes after the first dash; nothing if there is none. */
  function SuffixText(suffix: Option<QString>): QString {
    if suffix.Some? then suffix.value else []
  }

  ghost predicate IsTag(v: QString, cs: seq<nat>, suffix: Option<QString>) {
    IsPrefix(v) && cs != [] && Fits(cs) && IsSuffix(suffix)
  }

  lemma CoreEnds(cs: seq<nat>, suffix: Option<QString>)
    requires cs != [] && IsSuffix(suffix)
    ensures Core(cs, suffix) != [] && IsDigit(Core(cs, suffix)[0])
    ensures !Version.IsSpace(Core(cs, suffix)[|Core(cs, suffix)| - 1])
  {
    DottedUnits(cs);
  }

  lemma PrefixedIsTight(v: QString, core: QString)
    requires IsPrefix(v) && core != []
    requires !Version.IsSpace(core[0]) && !Version.IsSpace(core[|core| - 1]) && core[0] != 0x76 && core[0] != 0x56
    ensures Trimmed(v + core) == v + core && StripLeadingV(v + core) == core
  {
    TrimDrops([], v + core, [], Version.IsSpace);
    EmptyIsUnit(v + core);
    if v == [] {
      EmptyIsUnit(core);
    } else {
      assert (v + core)[1..] == core;
    }
  }

  lemma CoreReads(cs: seq<nat>, suffix: Option<QString>)
    requires cs != [] && Fits(cs)
    ensures var i := IndexOf(Core(cs, suffix), DASH);
            if suffix.None? then i == None && Core(cs, suffix) == Dotted(cs)
            else && i.Some? && Core(cs, suffix)[..i.value] == Dotted(cs)
                 && Core(cs, suffix)[i.value + 1..] == suffix.value
  {
    DottedUnits(cs);
    assert DASH !in Dotted(cs);
    IndexOfFirst(Dotted(cs), DASH, SuffixText(suffix));
  }

  lemma DigitIsNotNightly(core: QString)
    requires core != [] && IsDigit(core[0])
    ensures !StartsWithNightly(core)
  {
    assert ToLower(core[0]) != NIGHTLY[0];
  }

  /** A stable tag parses to the numbers and the suffix it is written with. */
  lemma TagReads(v: QString, cs: seq<nat>, suffix: Option<QString>)
    requires IsTag(v, cs, suffix)
    ensures Parse(Tag(v, cs, suffix)) == Parts(cs, SuffixText(suffix), false)
  {
    var core := Core(cs, suffix);
    CoreEnds(cs, suffix);
    PrefixedIsTight(v, core);
    DigitIsNotNightly(core);
    CoreParses(cs, suffix);
    ParseOfCore(Tag(v, cs, suffix), core);
  }

  /** What `parseVersion` makes of a tag once it is trimmed and its `v` is gone. */
  function ParseCore(core: QString): Parts {
    match IndexOf(core, DASH)
    case None => Parts(Components(Split(core)), [], false)
    case Some(i) => Parts(Components(Split(core[..i])), core[i + 1..], false)
  }

  lemma ParseOfCore(tag: QString, core: QString)
    requires StripLeadingV(Trimmed(tag)) == core && !StartsWithNightly(core)
    ensures Parse(tag) == ParseCore(core)
  {
  }

  lemma CoreParses(cs: seq<nat>, suffix: Option<QString>)
    requires cs != [] && Fits(cs)
    ensures ParseCore(Core(cs, suffix)) == Parts(cs, SuffixText(suffix), false)
  {
    CoreReads(cs, suffix);
    DottedReads(cs);
  }

  /** `nightly` in any case, and whatever follows it up to white space at the end. */
  predicate IsNightly(n: QString) {
    && |n| >= |NIGHTLY|
    && (forall i | 0 <= i < |NIGHTLY| :: n[i] == NIGHTLY[i] || n[i] == NIGHTLY[i] - 0x20)
    && !Version.IsSpace(n[|n| - 1])
  }

  lemma NightlyReads(v: QString, n: QString)
    requires IsPrefix(v) && IsNightly(n)
    ensures Parse(v + n) == Parts([], n, true)
  {
    assert n[0] == NIGHTLY[0] || n[0] == NIGHTLY[0] - 0x20;
    PrefixedIsTight(v, n);
    StartsNightly(n);
  }

  lemma StartsNightly(n: QString)
    requires IsNightly(n)
    ensures StartsWithNightly(n)
  {
    forall i | 0 <= i < |NIGHTLY|
      ensures ToLower(n[i]) == NIGHTLY[i]
    {
      assert n[i] == NIGHTLY[i] || n[i] == NIGHTLY[i] - 0x20;
      NightlyIsLower(i);
    }
  }

  lemma NightlyIsLower(i: nat)
    requires i < |NIGHTLY|
    ensures 0x61 <= NIGHTLY[i] <= 0x7A
  {
  }

  /** White space around a tag does not matter. */
  lemma SpaceAround(left: QString, tag: QString, right: QString)
    requires AllSpace(left, Version.IsSpace) && AllSpace(right, Version.IsSpace) && Tight(tag, Version.IsSpace)
    ensures Parse(left + tag + right) == Parse(tag)
  {
    TrimDrops(left, tag, right, Version.IsSpace);
    TrimDrops([], tag, [], Version.IsSpace);
    EmptyIsUnit(tag);
  }

  // ---- Which of two is newer -----------------------------------------------------------------------

  /** The number at place `i`; places after the last count as zero. */
  function NumberAt(cs: seq<nat>, i: nat): nat {
    if i < |cs| then cs[i] else 0
  }

  /** The first number that differs is larger in `a`. */
  ghost predicate LargerNumbers(a: seq<nat>, b: seq<nat>) {
    exists i: nat :: LargerNumberAt(a, b, i)
  }

  ghost predicate LargerNumberAt(a: seq<nat>, b: seq<nat>, i: nat) {
    NumberAt(a, i) > NumberAt(b, i) && forall j | 0 <= j < i :: NumberAt(a, j) == NumberAt(b, j)
  }

  ghost predicate SameNumbers(a: seq<nat>, b: seq<nat>) {
    forall i: nat :: NumberAt(a, i) == NumberAt(b, i)
  }

  /** `s` comes after `t` by code units: after a common beginning `t` ends or has the smaller unit. */
  ghost predicate TextAfter(s: QString, t: QString) {
    exists k: nat :: Lex.FirstDifference(t, s, k)
  }

  lemma LargerNumbersIsGreater(a: seq<nat>, b: seq<nat>)
    ensures LargerNumbers(a, b) <==> Greater(a, b)
    ensures SameNumbers(a, b) <==> !Greater(a, b) && !Greater(b, a)
  {
    GreaterIsFirstDifference(a, b);
    forall i: nat
      ensures LargerNumberAt(a, b, i) <==> LargerFrom(a, b, i)
    {
      assert forall j: nat :: NumberAt(a, j) == At(a, j) && NumberAt(b, j) == At(b, j);
    }
    GreaterTrichotomy(a, b);
    forall i: nat
      ensures NumberAt(a, i) == At(a, i) && NumberAt(b, i) == At(b, i)
    {
    }
  }

  /** Main result on stable tags: one is newer if and only if the first number that differs is
      larger in it, or no number differs and its suffix outranks the other's: it has none and
      the other has one, or both have one and it comes later by code units. */
  lemma NewerThanOnTags(v: QString, a: seq<nat>, s: Option<QString>, w: QString, b: seq<nat>, t: Option<QString>)
    requires IsTag(v, a, s) && IsTag(w, b, t)
    ensures NewerThan(Tag(v, a, s), Tag(w, b, t)) <==>
            || LargerNumbers(a, b)
            || (&& SameNumbers(a, b)
                && if SuffixText(s) == [] || SuffixText(t) == [] then SuffixText(s) == [] && SuffixText(t) != []
                   else TextAfter(SuffixText(s), SuffixText(t)))
  {
    TagReads(v, a, s);
    TagReads(w, b, t);
    LargerNumbersIsGreater(a, b);
    Lex.LessIsFirstDifference(SuffixText(t), SuffixText(s));
  }

  /** Every nightly tag is newer than every stable one, and of two nightlies the later by code units is. */
  lemma NewerThanOnNightlies(u: QString, m: QString, v: QString, n: QString,
                             w: QString, cs: seq<nat>, t: Option<QString>)
    requires IsPrefix(u) && IsNightly(m) && IsPrefix(v) && IsNightly(n) && IsTag(w, cs, t)
    ensures NewerThan(u + m, Tag(w, cs, t)) && !NewerThan(Tag(w, cs, t), u + m)
    ensures NewerThan(u + m, v + n) <==> TextAfter(m, n)
  {
    NightlyReads(u, m);
    NightlyReads(v, n);
    TagReads(w, cs, t);
    Lex.LessIsFirstDifference(n, m);
  }
}
