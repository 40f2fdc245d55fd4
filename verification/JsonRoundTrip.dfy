/** Reading undoes printing, in either layout. */
module JsonRoundTrip {
  import opened Wrappers
  import opened Json
  import opened Seqs

  // ---- Strings ---------------------------------------------------------------

  lemma HexDigitReads(d: int)
    requires 0 <= d < 16
    ensures HexValue(HexDigit(d)) == Some(d)
  {
  }

  lemma ControlEscapeReads(c: char, t: string)
    requires c < ' '
    ensures ParseEscape(['u', '0', '0', HexDigit(c as int / 16), HexDigit(c as int % 16)] + t) == Some((c, t))
  {
    var hi, lo := c as int / 16, c as int % 16;
    var s := ['0', '0', HexDigit(hi), HexDigit(lo)] + t;
    assert (['u', '0', '0', HexDigit(hi), HexDigit(lo)] + t)[1..] == s;
    HexDigitReads(hi);
    HexDigitReads(lo);
    assert Hex4(s) == Some(hi * 16 + lo);
    assert s[4..] == t;
  }

  lemma EscapeCharReads(c: char, t: string)
    ensures ParseChars(EscapeChar(c) + t) == Prepend(c, ParseChars(t))
  {
    var e := EscapeChar(c);
    if |e| == 1 {
      assert (e + t)[1..] == t;
    } else {
      EscapeReads(c, t);
      assert (e + t)[1..] == e[1..] + t;
    }
  }

  lemma EscapeReads(c: char, t: string)
    requires |EscapeChar(c)| > 1
    ensures EscapeChar(c)[0] == '\\' && ParseEscape(EscapeChar(c)[1..] + t) == Some((c, t))
  {
    var e := EscapeChar(c);
    if |e| == 2 {
      assert e[1..] == [e[1]] && ([e[1]] + t)[1..] == t;
    } else {
      ControlEscapeReads(c, t);
      assert e[1..] == ['u', '0', '0', HexDigit(c as int / 16), HexDigit(c as int % 16)];
    }
  }

  lemma {:induction false} CharsRead(s: string, rest: string)
    ensures ParseChars(CharsTo(s, "\"" + rest)) == Some((s, rest))
  {
    if s == "" {
      assert ("\"" + rest)[1..] == rest;
    } else {
      CharsRead(s[1..], rest);
      EscapeCharReads(s[0], CharsTo(s[1..], "\"" + rest));
      assert s == [s[0]] + s[1..];
    }
  }

  lemma QuoteReads(s: string, rest: string)
    ensures QuoteTo(s, rest) != "" && QuoteTo(s, rest)[0] == '"'
    ensures ParseChars(QuoteTo(s, rest)[1..]) == Some((s, rest))
  {
    assert QuoteTo(s, rest)[1..] == CharsTo(s, "\"" + rest);
    CharsRead(s, rest);
  }

  // ---- Numbers ---------------------------------------------------------------

  lemma {:induction false} DigitsRead(n: nat, rest: string)
    requires n > 0
    ensures NatTo(n, rest) != "" && '1' <= NatTo(n, rest)[0] <= '9'
    ensures ParseDigits(0, NatTo(n, rest)) == ParseDigits(n, rest)
    decreases n
  {
    var digit := '0' + (n % 10) as char;
    var next := [digit] + rest;
    assert next[1..] == rest;
    if n >= 10 {
      DigitsRead(n / 10, next);
    }
  }

  lemma NatReads(n: nat, rest: string)
    requires EndsNumber(rest)
    ensures NatTo(n, rest) != "" && IsDigit(NatTo(n, rest)[0])
    ensures ParseNat(NatTo(n, rest)) == Some((n, rest))
  {
    if n == 0 {
      assert NatTo(n, rest) == ['0'] + rest && (['0'] + rest)[1..] == rest;
    } else {
      DigitsRead(n, rest);
      var s := NatTo(n, rest);
      assert ParseDigits(0, s) == ParseDigits((s[0] - '0') as int, s[1..]);
      assert ParseDigits(n, rest) == (n, rest);
    }
  }

  lemma NumberReads(n: int, rest: string)
    requires EndsNumber(rest)
    ensures var s := NumberTo(n, rest);
            s != "" && (s[0] == '-' || IsDigit(s[0])) && ParseNumber(s) == Some((Num(n), rest))
  {
    if n < 0 {
      NatReads(-n, rest);
      assert NumberTo(n, rest)[1..] == NatTo(-n, rest);
    } else {
      NatReads(n, rest);
    }
  }

  // ---- White space -----------------------------------------------------------

  lemma {:induction false} SpacesSkipped(n: nat, t: string)
    requires t == "" || !IsSpace(t[0])
    ensures SkipSpaces(Spaces(n) + t) == t
  {
    if n == 0 {
      assert Spaces(n) + t == t;
    } else {
      assert (Spaces(n) + t)[1..] == Spaces(n - 1) + t;
      SpacesSkipped(n - 1, t);
    }
  }

  lemma BreakSkipped(lay: Layout, t: string)
    requires t == "" || !IsSpace(t[0])
    ensures SkipSpaces(Break(lay) + t) == t
  {
    match lay
    case Compact =>
      assert Break(lay) + t == t;
    case Indented(n) =>
      assert (Break(lay) + t)[1..] == Spaces(2 * n) + t;
      SpacesSkipped(2 * n, t);
  }

  lemma ColonSkipped(lay: Layout, t: string)
    requires t == "" || !IsSpace(t[0])
    ensures var s := Colon(lay) + t; s != "" && s[0] == ':' && SkipSpaces(s[1..]) == t
  {
    if lay.Indented? {
      assert (Colon(lay) + t)[1..] == " " + t && (" " + t)[1..] == t;
    } else {
      assert (Colon(lay) + t)[1..] == t;
    }
  }

  /** What follows a printed member of a list: the closing bracket, or a comma. */
  lemma AfterMember(lay: Layout, close: char, rest: string)
    requires close == ']' || close == '}'
    ensures var t := Break(lay) + ([close] + rest);
            EndsNumber(t) && SkipSpaces(t) == [close] + rest
  {
    BreakSkipped(lay, [close] + rest);
  }

  // ---- Values ----------------------------------------------------------------

  lemma PrintStartsValue(j: Json, lay: Layout, rest: string)
    requires EndsNumber(rest)
    ensures var s := PrintTo(j, lay, rest);
            s != "" && !IsSpace(s[0]) && s[0] != ']' && s[0] != '}'
  {
    match j
    case Num(n) => NumberReads(n, rest);
    case Str(s) => QuoteReads(s, rest);
    case _ =>
  }

  lemma LiteralReads(j: Json, lay: Layout, rest: string)
    requires j.Null? || j.Bool?
    ensures ParseValue(PrintTo(j, lay, rest)) == Some((j, rest))
  {
    assert ("null" + rest)[4..] == rest && ("true" + rest)[4..] == rest && ("false" + rest)[5..] == rest;
    assert ("false" + rest)[0] == 'f';
  }

  lemma {:induction false} ValueReads(j: Json, lay: Layout, rest: string)
    requires WellFormed(j) && EndsNumber(rest)
    ensures ParseValue(PrintTo(j, lay, rest)) == Some((j, rest))
    decreases j, 1
  {
    match j
    case Null => LiteralReads(j, lay, rest);
    case Bool(b) => LiteralReads(j, lay, rest);
    case Num(n) =>
      NumberReads(n, rest);
      FirstDecides(NumberTo(n, rest));
    case Str(s) =>
      QuoteReads(s, rest);
      FirstDecides(QuoteTo(s, rest));
    case Arr(items) =>
      ArrayReads(items, lay, rest);
      FirstDecides(PrintTo(j, lay, rest));
    case Obj(es) =>
      ObjectReads(es, lay, rest);
      FirstDecides(PrintTo(j, lay, rest));
  }

  /** The first character decides which kind of value is read. */
  lemma FirstDecides(s: string)
    requires s != ""
    ensures s[0] == '"' && ParseChars(s[1..]).Some? ==>
              ParseValue(s) == Some((Str(ParseChars(s[1..]).value.0), ParseChars(s[1..]).value.1))
    ensures s[0] == '[' ==> ParseValue(s) == ParseArray(s[1..])
    ensures s[0] == '{' ==> ParseValue(s) == ParseObject(s[1..])
    ensures s[0] == '-' || IsDigit(s[0]) ==> ParseValue(s) == ParseNumber(s)
  {
    assert "null"[0] == 'n' && "true"[0] == 't' && "false"[0] == 'f';
  }

  lemma {:induction false} ArrayReads(items: seq<Json>, lay: Layout, rest: string)
    requires forall x | x in items :: WellFormed(x)
    ensures ParseArray(PrintTo(Arr(items), lay, rest)[1..]) == Some((Arr(items), rest))
    decreases items, 2
  {
    var s := PrintTo(Arr(items), lay, rest);
    if items == [] {
      assert s[1..] == "]" + rest && ("]" + rest)[1..] == rest;
    } else {
      var close := Break(lay) + ("]" + rest);
      AfterMember(lay, ']', rest);
      var body := ItemsTo(items, Deeper(lay), close);
      assert s[1..] == Break(Deeper(lay)) + body;
      ItemsRead(items, Deeper(lay), close, rest);
      BreakSkipped(Deeper(lay), body);
    }
  }

  lemma LastItem(s: string, j: Json, next: string, rest: string)
    requires ParseValue(s) == Some((j, next)) && SkipSpaces(next) == "]" + rest
    ensures ParseItems(s) == Some(([j], rest))
  {
    assert ("]" + rest)[1..] == rest;
  }

  lemma MoreItems(s: string, j: Json, next: string, tail: string, items: seq<Json>, rest: string)
    requires ParseValue(s) == Some((j, "," + next)) && SkipSpaces(next) == tail
    requires ParseItems(tail) == Some((items, rest))
    ensures ParseItems(s) == Some(([j] + items, rest))
  {
    assert SkipSpaces("," + next) == "," + next && ("," + next)[1..] == next;
  }

  lemma ItemsPrint(items: seq<Json>, lay: Layout, close: string)
    requires items != []
    ensures ItemsTo(items, lay, close) ==
            if |items| == 1 then PrintTo(items[0], lay, close)
            else PrintTo(items[0], lay, "," + (Break(lay) + ItemsTo(items[1..], lay, close)))
  {
  }

  lemma OneItemReads(j: Json, lay: Layout, close: string, rest: string)
    requires WellFormed(j) && EndsNumber(close) && SkipSpaces(close) == "]" + rest
    ensures var s := PrintTo(j, lay, close);
            s != "" && !IsSpace(s[0]) && s[0] != ']' && ParseItems(s) == Some(([j], rest))
    decreases j, 3
  {
    PrintStartsValue(j, lay, close);
    ValueReads(j, lay, close);
    LastItem(PrintTo(j, lay, close), j, close, rest);
  }

  lemma ConsItemsRead(j: Json, items: seq<Json>, lay: Layout, tail: string, rest: string)
    requires WellFormed(j)
    requires tail != "" && !IsSpace(tail[0]) && ParseItems(tail) == Some((items, rest))
    ensures var s := PrintTo(j, lay, "," + (Break(lay) + tail));
            s != "" && !IsSpace(s[0]) && s[0] != ']' && ParseItems(s) == Some(([j] + items, rest))
    decreases j, 3
  {
    var next := Break(lay) + tail;
    PrintStartsValue(j, lay, "," + next);
    ValueReads(j, lay, "," + next);
    BreakSkipped(lay, tail);
    MoreItems(PrintTo(j, lay, "," + next), j, next, tail, items, rest);
  }

  lemma {:induction false} ItemsRead(items: seq<Json>, lay: Layout, close: string, rest: string)
    requires items != [] && forall x | x in items :: WellFormed(x)
    requires EndsNumber(close) && SkipSpaces(close) == "]" + rest
    ensures var s := ItemsTo(items, lay, close);
            s != "" && !IsSpace(s[0]) && s[0] != ']' && ParseItems(s) == Some((items, rest))
    decreases items, 0
  {
    ItemsPrint(items, lay, close);
    if |items| == 1 {
      OneItemReads(items[0], lay, close, rest);
      assert items == [items[0]];
    } else {
      ItemsRead(items[1..], lay, close, rest);
      ConsItemsRead(items[0], items[1..], lay, ItemsTo(items[1..], lay, close), rest);
      ConsOfTail(items);
    }
  }

  lemma {:induction false} ObjectReads(es: seq<Entry>, lay: Layout, rest: string)
    requires DistinctKeys(es) && forall e | e in es :: WellFormed(e.value)
    ensures ParseObject(PrintTo(Obj(es), lay, rest)[1..]) == Some((Obj(es), rest))
    decreases es, 2
  {
    var s := PrintTo(Obj(es), lay, rest);
    if es == [] {
      assert s[1..] == "}" + rest && ("}" + rest)[1..] == rest;
    } else {
      var close := Break(lay) + ("}" + rest);
      AfterMember(lay, '}', rest);
      var body := EntriesTo(es, Deeper(lay), close);
      assert s[1..] == Break(Deeper(lay)) + body;
      PairsRead(es, Deeper(lay), close, rest);
      BreakSkipped(Deeper(lay), body);
      assert SkipSpaces(s[1..]) == body;
      FromDistinctPairs([], es);
      assert FromPairs([], es) == es;
    }
  }

  lemma {:induction false} PairReads(e: Entry, lay: Layout, next: string)
    requires WellFormed(e.value) && EndsNumber(next)
    ensures var s := EntryTo(e, lay, next);
            s != "" && s[0] == '"' && ParsePair(s) == Some((e, next))
    decreases e, 2
  {
    var value := PrintTo(e.value, lay, next);
    PrintStartsValue(e.value, lay, next);
    QuoteReads(e.key, Colon(lay) + value);
    ColonSkipped(lay, value);
    ValueReads(e.value, lay, next);
    assert SkipSpaces(Colon(lay) + value) == Colon(lay) + value;
  }

  lemma LastPair(s: string, e: Entry, next: string, rest: string)
    requires ParsePair(s) == Some((e, next)) && SkipSpaces(next) == "}" + rest
    ensures ParsePairs(s) == Some(([e], rest))
  {
    assert ("}" + rest)[1..] == rest;
  }

  lemma MorePairs(s: string, e: Entry, next: string, tail: string, es: seq<Entry>, rest: string)
    requires ParsePair(s) == Some((e, "," + next)) && SkipSpaces(next) == tail
    requires ParsePairs(tail) == Some((es, rest))
    ensures ParsePairs(s) == Some(([e] + es, rest))
  {
    assert SkipSpaces("," + next) == "," + next && ("," + next)[1..] == next;
  }

  lemma EntriesPrint(es: seq<Entry>, lay: Layout, close: string)
    requires es != []
    ensures EntriesTo(es, lay, close) ==
            if |es| == 1 then EntryTo(es[0], lay, close)
            else EntryTo(es[0], lay, "," + (Break(lay) + EntriesTo(es[1..], lay, close)))
  {
  }

  lemma OnePairReads(e: Entry, lay: Layout, close: string, rest: string)
    requires WellFormed(e.value) && EndsNumber(close) && SkipSpaces(close) == "}" + rest
    ensures var s := EntryTo(e, lay, close);
            s != "" && s[0] == '"' && ParsePairs(s) == Some(([e], rest))
    decreases e, 3
  {
    PairReads(e, lay, close);
    LastPair(EntryTo(e, lay, close), e, close, rest);
  }

  lemma {:induction false} PairsRead(es: seq<Entry>, lay: Layout, close: string, rest: string)
    requires es != [] && forall e | e in es :: WellFormed(e.value)
    requires EndsNumber(close) && SkipSpaces(close) == "}" + rest
    ensures var s := EntriesTo(es, lay, close);
            s != "" && s[0] == '"' && ParsePairs(s) == Some((es, rest))
    decreases es, 0
  {
    EntriesPrint(es, lay, close);
    if |es| == 1 {
      OnePairReads(es[0], lay, close, rest);
      assert es == [es[0]];
    } else {
      PairsRead(es[1..], lay, close, rest);
      ConsPairsRead(es[0], es[1..], lay, EntriesTo(es[1..], lay, close), rest);
      ConsOfTail(es);
    }
  }

  lemma ConsPairsRead(e: Entry, es: seq<Entry>, lay: Layout, tail: string, rest: string)
    requires WellFormed(e.value)
    requires tail != "" && tail[0] == '"' && ParsePairs(tail) == Some((es, rest))
    ensures var s := EntryTo(e, lay, "," + (Break(lay) + tail));
            s != "" && s[0] == '"' && ParsePairs(s) == Some(([e] + es, rest))
    decreases e, 3
  {
    var next := Break(lay) + tail;
    PairReads(e, lay, "," + next);
    BreakSkipped(lay, tail);
    MorePairs(EntryTo(e, lay, "," + next), e, next, tail, es, rest);
  }

  // ---- Dictionaries from pairs -----------------------------------------------

  lemma {:induction false} PutNewKey(es: seq<Entry>, k: string, v: Json)
    requires forall e | e in es :: e.key != k
    ensures Put(es, k, v) == es + [Entry(k, v)]
  {
    if es != [] {
      PutNewKey(es[1..], k, v);
    }
  }

  lemma {:induction false} FromDistinctPairs(acc: seq<Entry>, es: seq<Entry>)
    requires DistinctKeys(es) && forall x, y | x in acc && y in es :: x.key != y.key
    ensures FromPairs(acc, es) == acc + es
    decreases es
  {
    if es != [] {
      PutNewKey(acc, es[0].key, es[0].value);
      FromDistinctPairs(acc + [es[0]], es[1..]);
      assert acc + [es[0]] + es[1..] == acc + es;
    }
  }

  lemma {:induction false} PutMembers(es: seq<Entry>, k: string, v: Json)
    requires DistinctKeys(es)
    ensures DistinctKeys(Put(es, k, v))
    ensures forall e | e in Put(es, k, v) :: e in es || e == Entry(k, v)
  {
    if es != [] {
      var r := Put(es, k, v);
      if es[0].key == k {
        assert r[1..] == es[1..];
      } else {
        PutMembers(es[1..], k, v);
        assert r[1..] == Put(es[1..], k, v);
      }
    }
  }

  lemma {:induction false} RemoveMembers(es: seq<Entry>, k: string)
    requires DistinctKeys(es)
    ensures DistinctKeys(Remove(es, k))
    ensures forall e | e in Remove(es, k) :: e in es && e.key != k
  {
    if es != [] && es[0].key != k {
      RemoveMembers(es[1..], k);
      assert Remove(es, k)[1..] == Remove(es[1..], k);
    }
  }

  lemma {:induction false} FromPairsWellFormed(acc: seq<Entry>, pairs: seq<Entry>)
    requires WellFormed(Obj(acc)) && forall e | e in pairs :: WellFormed(e.value)
    ensures WellFormed(Obj(FromPairs(acc, pairs)))
    decreases pairs
  {
    if pairs != [] {
      PutMembers(acc, pairs[0].key, pairs[0].value);
      FromPairsWellFormed(Put(acc, pairs[0].key, pairs[0].value), pairs[1..]);
    }
  }

  // ---- Whatever is read is well formed ----------------------------------------

  lemma {:induction false} ValueIsWellFormed(s: string)
    ensures ParseValue(s).Some? ==> WellFormed(ParseValue(s).value.0)
    decreases |s|, 0
  {
    if s != "" && s[0] == '[' {
      ArrayIsWellFormed(s[1..]);
    } else if s != "" && s[0] == '{' {
      ObjectIsWellFormed(s[1..]);
    }
  }

  lemma {:induction false} ArrayIsWellFormed(s: string)
    ensures ParseArray(s).Some? ==> WellFormed(ParseArray(s).value.0)
    decreases |s|, 3
  {
    ItemsAreWellFormed(SkipSpaces(s));
  }

  lemma {:induction false} ObjectIsWellFormed(s: string)
    ensures ParseObject(s).Some? ==> WellFormed(ParseObject(s).value.0)
    decreases |s|, 3
  {
    var u := SkipSpaces(s);
    PairsAreWellFormed(u);
    match ParsePairs(u)
    case Some((pairs, rest)) => FromPairsWellFormed([], pairs);
    case None =>
  }

  lemma {:induction false} ItemsAreWellFormed(s: string)
    ensures ParseItems(s).Some? ==> forall x | x in ParseItems(s).value.0 :: WellFormed(x)
    decreases |s|, 1
  {
    ValueIsWellFormed(s);
    match ParseValue(s)
    case None =>
    case Some((v, r0)) =>
      var r := SkipSpaces(r0);
      if r != "" && r[0] == ',' {
        ItemsAreWellFormed(SkipSpaces(r[1..]));
      }
  }

  lemma {:induction false} PairIsWellFormed(s: string)
    ensures ParsePair(s).Some? ==> WellFormed(ParsePair(s).value.0.value)
    decreases |s|, 1
  {
    if s != "" && s[0] == '"' {
      match ParseChars(s[1..])
      case None =>
      case Some((k, r0)) =>
        var r := SkipSpaces(r0);
        if r != "" {
          ValueIsWellFormed(SkipSpaces(r[1..]));
        }
    }
  }

  lemma {:induction false} PairsAreWellFormed(s: string)
    ensures ParsePairs(s).Some? ==> forall e | e in ParsePairs(s).value.0 :: WellFormed(e.value)
    decreases |s|, 2
  {
    PairIsWellFormed(s);
    match ParsePair(s)
    case None =>
    case Some((e, r0)) =>
      var r := SkipSpaces(r0);
      if r != "" && r[0] == ',' {
        PairsAreWellFormed(SkipSpaces(r[1..]));
      }
  }

  /** Reading always gives dictionaries with distinct keys. */
  lemma LoadsGivesWellFormed(text: string)
    ensures Loads(text).Some? ==> WellFormed(Loads(text).value)
  {
    ValueIsWellFormed(SkipSpaces(text));
  }

  /** `json.loads(json.dumps(j, ...))` gives `j` back, in either layout and with
      white space after it. */
  lemma LoadsUndoesDumps(j: Json, lay: Layout, trailer: string)
    requires WellFormed(j)
    requires SkipSpaces(trailer) == "" && EndsNumber(trailer)
    ensures Loads(PrintTo(j, lay, trailer)) == Some(j)
  {
    PrintStartsValue(j, lay, trailer);
    ValueReads(j, lay, trailer);
  }

  // ---- What texts look like --------------------------------------------------------

  predicate IsPlain(c: char) {
    c >= ' ' && c != '"' && c != '\\'
  }

  /** Only quotes, backslashes and control characters are escaped: a text without them prints as
      itself, between quotes, whatever other characters it has. */
  lemma {:induction false} PlainTextPrintsAsItself(s: string, rest: string)
    requires forall i | 0 <= i < |s| :: IsPlain(s[i])
    ensures QuoteTo(s, rest) == "\"" + (s + ("\"" + rest))
  {
    PlainCharsPrint(s, "\"" + rest);
  }

  lemma {:induction false} PlainCharsPrint(s: string, rest: string)
    requires forall i | 0 <= i < |s| :: IsPlain(s[i])
    ensures CharsTo(s, rest) == s + rest
  {
    if s == "" {
      EmptyIsUnit(rest);
    } else {
      PlainCharsPrint(s[1..], rest);
      ConsOfTail(s);
      Associates([s[0]], s[1..], rest);
    }
  }

  predicate NoBreaks(s: string) {
    forall i | 0 <= i < |s| :: s[i] != '\n' && s[i] != '\r' && s[i] != '\t'
  }

  lemma NoBreaksThen(s: string, t: string)
    requires NoBreaks(s) && NoBreaks(t)
    ensures NoBreaks(s + t)
  {
  }

  lemma {:induction false} CharsHaveNoBreaks(s: string, rest: string)
    requires NoBreaks(rest)
    ensures NoBreaks(CharsTo(s, rest))
  {
    if s != "" {
      CharsHaveNoBreaks(s[1..], rest);
      NoBreaksThen(EscapeChar(s[0]), CharsTo(s[1..], rest));
    }
  }

  lemma {:induction false} DigitsHaveNoBreaks(n: nat, rest: string)
    requires NoBreaks(rest)
    ensures NoBreaks(NatTo(n, rest))
  {
    var next := ['0' + (n % 10) as char] + rest;
    if n >= 10 {
      DigitsHaveNoBreaks(n / 10, next);
    }
  }

  /** The compact layout is one line, whatever the value. */
  lemma {:induction false} CompactIsOneLine(j: Json, rest: string)
    requires NoBreaks(rest)
    ensures NoBreaks(PrintTo(j, Compact, rest))
    decreases j, 1
  {
    match j
    case Null => NoBreaksThen("null", rest);
    case Bool(b) => NoBreaksThen(if b then "true" else "false", rest);
    case Num(n) => DigitsHaveNoBreaks(if n < 0 then -n else n, rest);
    case Str(s) => CharsHaveNoBreaks(s, "\"" + rest);
    case Arr(items) =>
      if items != [] {
        ItemsAreOneLine(items, "]" + rest);
        EmptyIsUnit("]" + rest);
        EmptyIsUnit(ItemsTo(items, Compact, "]" + rest));
      }
    case Obj(es) =>
      if es != [] {
        EntriesAreOneLine(es, "}" + rest);
        EmptyIsUnit("}" + rest);
        EmptyIsUnit(EntriesTo(es, Compact, "}" + rest));
      }
  }

  lemma {:induction false} ItemsAreOneLine(items: seq<Json>, rest: string)
    requires items != [] && NoBreaks(rest)
    ensures NoBreaks(ItemsTo(items, Compact, rest))
    decreases items, 0
  {
    if |items| == 1 {
      CompactIsOneLine(items[0], rest);
    } else {
      ItemsAreOneLine(items[1..], rest);
      EmptyIsUnit(ItemsTo(items[1..], Compact, rest));
      CompactIsOneLine(items[0], "," + ItemsTo(items[1..], Compact, rest));
    }
  }

  lemma {:induction false} EntriesAreOneLine(es: seq<Entry>, rest: string)
    requires es != [] && NoBreaks(rest)
    ensures NoBreaks(EntriesTo(es, Compact, rest))
    decreases es, 0
  {
    if |es| == 1 {
      EntryIsOneLine(es[0], rest);
    } else {
      EntriesAreOneLine(es[1..], rest);
      EmptyIsUnit(EntriesTo(es[1..], Compact, rest));
      EntryIsOneLine(es[0], "," + EntriesTo(es[1..], Compact, rest));
    }
  }

  lemma {:induction false} EntryIsOneLine(e: Entry, rest: string)
    requires NoBreaks(rest)
    ensures NoBreaks(EntryTo(e, Compact, rest))
    decreases e, 2
  {
    CompactIsOneLine(e.value, rest);
    CharsHaveNoBreaks(e.key, "\"" + (":" + PrintTo(e.value, Compact, rest)));
  }

  /** Of the pairs with one key the last one counts. */
  lemma {:induction false} LastPairCounts(acc: seq<Entry>, pairs: seq<Entry>, e: Entry)
    ensures FromPairs(acc, pairs + [e]) == Put(FromPairs(acc, pairs), e.key, e.value)
    decreases pairs
  {
    if pairs == [] {
      EmptyIsUnit([e]);
      assert FromPairs(Put(acc, e.key, e.value), [e][1..]) == Put(acc, e.key, e.value);
    } else {
      TailOfPush(pairs, e);
      LastPairCounts(Put(acc, pairs[0].key, pairs[0].value), pairs[1..], e);
    }
  }

  // ---- The printers emit their text in front of what follows -----------------------

  lemma {:induction false} CharsInFront(s: string, a: string, b: string)
    ensures CharsTo(s, a + b) == CharsTo(s, a) + b
  {
    if s != "" {
      CharsInFront(s[1..], a, b);
      Associates(EscapeChar(s[0]), CharsTo(s[1..], a), b);
    }
  }

  lemma QuoteInFront(s: string, a: string, b: string)
    ensures QuoteTo(s, a + b) == QuoteTo(s, a) + b
  {
    CharsInFront(s, "\"" + a, b);
    Associates("\"", a, b);
    Associates("\"", CharsTo(s, "\"" + a), b);
  }

  lemma {:induction false} NatInFront(n: nat, a: string, b: string)
    ensures NatTo(n, a + b) == NatTo(n, a) + b
  {
    var digit := ['0' + (n % 10) as char];
    Associates(digit, a, b);
    if n >= 10 {
      NatInFront(n / 10, digit + a, b);
    }
  }

  lemma NumberInFront(n: int, a: string, b: string)
    ensures NumberTo(n, a + b) == NumberTo(n, a) + b
  {
    if n < 0 {
      NatInFront(-n, a, b);
      Associates("-", NatTo(-n, a), b);
    } else {
      NatInFront(n, a, b);
    }
  }

  lemma {:induction false} PrintsInFront(j: Json, lay: Layout, a: string, b: string)
    ensures PrintTo(j, lay, a + b) == PrintTo(j, lay, a) + b
    decreases j, 1
  {
    match j
    case Null => Associates("null", a, b);
    case Bool(t) => Associates(if t then "true" else "false", a, b);
    case Num(n) => NumberInFront(n, a, b);
    case Str(s) => QuoteInFront(s, a, b);
    case Arr(items) =>
      Associates("]", a, b);
      if items == [] {
        Associates("[", "]" + a, b);
      } else {
        Associates(Break(lay), "]" + a, b);
        ItemsInFront(items, Deeper(lay), Break(lay) + ("]" + a), b);
        Associates(Break(Deeper(lay)), ItemsTo(items, Deeper(lay), Break(lay) + ("]" + a)), b);
        Associates("[", Break(Deeper(lay)) + ItemsTo(items, Deeper(lay), Break(lay) + ("]" + a)), b);
      }
    case Obj(es) =>
      Associates("}", a, b);
      if es == [] {
        Associates("{", "}" + a, b);
      } else {
        Associates(Break(lay), "}" + a, b);
        EntriesInFront(es, Deeper(lay), Break(lay) + ("}" + a), b);
        Associates(Break(Deeper(lay)), EntriesTo(es, Deeper(lay), Break(lay) + ("}" + a)), b);
        Associates("{", Break(Deeper(lay)) + EntriesTo(es, Deeper(lay), Break(lay) + ("}" + a)), b);
      }
  }

  lemma {:induction false} ItemsInFront(items: seq<Json>, lay: Layout, a: string, b: string)
    requires items != []
    ensures ItemsTo(items, lay, a + b) == ItemsTo(items, lay, a) + b
    decreases items, 0
  {
    if |items| == 1 {
      PrintsInFront(items[0], lay, a, b);
    } else {
      var rest := ItemsTo(items[1..], lay, a);
      ItemsInFront(items[1..], lay, a, b);
      Associates(Break(lay), rest, b);
      Associates(",", Break(lay) + rest, b);
      PrintsInFront(items[0], lay, "," + (Break(lay) + rest), b);
    }
  }

  lemma {:induction false} EntriesInFront(es: seq<Entry>, lay: Layout, a: string, b: string)
    requires es != []
    ensures EntriesTo(es, lay, a + b) == EntriesTo(es, lay, a) + b
    decreases es, 0
  {
    if |es| == 1 {
      EntryInFront(es[0], lay, a, b);
    } else {
      var rest := EntriesTo(es[1..], lay, a);
      EntriesInFront(es[1..], lay, a, b);
      Associates(Break(lay), rest, b);
      Associates(",", Break(lay) + rest, b);
      EntryInFront(es[0], lay, "," + (Break(lay) + rest), b);
    }
  }

  lemma {:induction false} EntryInFront(e: Entry, lay: Layout, a: string, b: string)
    ensures EntryTo(e, lay, a + b) == EntryTo(e, lay, a) + b
    decreases e, 2
  {
    PrintsInFront(e.value, lay, a, b);
    Associates(Colon(lay), PrintTo(e.value, lay, a), b);
    QuoteInFront(e.key, Colon(lay) + PrintTo(e.value, lay, a), b);
  }
}
