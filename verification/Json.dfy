/** JSON text as Python's `json` module writes and reads it (RFC 8259), for
    values without floating-point numbers. A Python dictionary is a sequence of
    entries in insertion order. */
module Json {
  import opened Wrappers

  datatype Json =
    | Null
    | Bool(b: bool)
    | Num(n: int)
    | Str(s: string)
    | Arr(items: seq<Json>)
    | Obj(entries: seq<Entry>)

  datatype Entry = Entry(key: string, value: Json)

  predicate DistinctKeys(es: seq<Entry>) {
    es == [] || ((forall e | e in es[1..] :: e.key != es[0].key) && DistinctKeys(es[1..]))
  }

  /** Every dictionary in `j` has distinct keys, as Python's dictionaries do. */
  predicate WellFormed(j: Json) {
    match j
    case Arr(items) => forall x | x in items :: WellFormed(x)
    case Obj(es) => DistinctKeys(es) && forall e | e in es :: WellFormed(e.value)
    case _ => true
  }

  // ---- Dictionary operations -------------------------------------------------

  function Get(es: seq<Entry>, k: string): (r: Option<Json>)
    ensures r.None? <==> forall e | e in es :: e.key != k
    ensures r.Some? ==> Entry(k, r.value) in es
  {
    if es == [] then None
    else if es[0].key == k then Some(es[0].value)
    else Get(es[1..], k)
  }

  /** `d[k] = v`: an existing key keeps its place, a new one goes last. */
  function Put(es: seq<Entry>, k: string, v: Json): seq<Entry> {
    if es == [] then [Entry(k, v)]
    else if es[0].key == k then [Entry(k, v)] + es[1..]
    else [es[0]] + Put(es[1..], k, v)
  }

  /** `d.pop(k, None)`. */
  function Remove(es: seq<Entry>, k: string): seq<Entry> {
    if es == [] then []
    else if es[0].key == k then es[1..]
    else [es[0]] + Remove(es[1..], k)
  }

  /** `dict(pairs)` on top of `acc`: the last pair with a key decides its value. */
  function FromPairs(acc: seq<Entry>, pairs: seq<Entry>): seq<Entry>
    decreases pairs
  {
    if pairs == [] then acc
    else FromPairs(Put(acc, pairs[0].key, pairs[0].value), pairs[1..])
  }

  // ---- Printing --------------------------------------------------------------

  /** `Compact` is `separators=(",", ":")`; `Indented` is `indent=2` at a nesting level. */
  datatype Layout = Compact | Indented(level: nat)

  function Spaces(n: nat): string {
    if n == 0 then "" else " " + Spaces(n - 1)
  }

  function Deeper(lay: Layout): Layout {
    match lay
    case Compact => Compact
    case Indented(n) => Indented(n + 1)
  }

  function Break(lay: Layout): string {
    match lay
    case Compact => ""
    case Indented(n) => "\n" + Spaces(2 * n)
  }

  function Colon(lay: Layout): string {
    if lay.Compact? then ":" else ": "
  }

  function HexDigit(d: int): char
    requires 0 <= d < 16
  {
    if d < 10 then '0' + d as char else 'a' + (d - 10) as char
  }

  /** `ensure_ascii=False`: only the quote, the backslash and controls are escaped. */
  function EscapeChar(c: char): string {
    match c
    case '"' => "\\\""
    case '\\' => "\\\\"
    case '\n' => "\\n"
    case '\r' => "\\r"
    case '\t' => "\\t"
    case '\U{8}' => "\\b"
    case '\U{C}' => "\\f"
    case _ =>
      if c < ' ' then ['\\', 'u', '0', '0', HexDigit(c as int / 16), HexDigit(c as int % 16)] else [c]
  }

  // The printers emit text in front of the text that follows it, `rest`.

  function CharsTo(s: string, rest: string): string {
    if s == "" then rest else EscapeChar(s[0]) + CharsTo(s[1..], rest)
  }

  function QuoteTo(s: string, rest: string): string {
    "\"" + CharsTo(s, "\"" + rest)
  }

  function NatTo(n: nat, rest: string): string {
    var digit := '0' + (n % 10) as char;
    if n < 10 then [digit] + rest else NatTo(n / 10, [digit] + rest)
  }

  function NumberTo(n: int, rest: string): string {
    if n < 0 then "-" + NatTo(-n, rest) else NatTo(n, rest)
  }

  function PrintTo(j: Json, lay: Layout, rest: string): string
    decreases j, 1
  {
    match j
    case Null => "null" + rest
    case Bool(b) => (if b then "true" else "false") + rest
    case Num(n) => NumberTo(n, rest)
    case Str(s) => QuoteTo(s, rest)
    case Arr(items) =>
      if items == [] then "[" + ("]" + rest)
      else "[" + (Break(Deeper(lay)) + ItemsTo(items, Deeper(lay), Break(lay) + ("]" + rest)))
    case Obj(es) =>
      if es == [] then "{" + ("}" + rest)
      else "{" + (Break(Deeper(lay)) + EntriesTo(es, Deeper(lay), Break(lay) + ("}" + rest)))
  }

  function ItemsTo(items: seq<Json>, lay: Layout, rest: string): string
    requires items != []
    decreases items, 0
  {
    PrintTo(items[0], lay,
            if |items| == 1 then rest else "," + (Break(lay) + ItemsTo(items[1..], lay, rest)))
  }

  function EntryTo(e: Entry, lay: Layout, rest: string): string
    decreases e, 2
  {
    QuoteTo(e.key, Colon(lay) + PrintTo(e.value, lay, rest))
  }

  function EntriesTo(es: seq<Entry>, lay: Layout, rest: string): string
    requires es != []
    decreases es, 0
  {
    EntryTo(es[0], lay, if |es| == 1 then rest else "," + (Break(lay) + EntriesTo(es[1..], lay, rest)))
  }

  /** `json.dumps(j, ...)`. */
  function Dumps(j: Json, lay: Layout): string {
    PrintTo(j, lay, "")
  }

  // ---- Reading ---------------------------------------------------------------

  predicate IsSpace(c: char) { c == ' ' || c == '\t' || c == '\n' || c == '\r' }

  predicate IsDigit(c: char) { '0' <= c <= '9' }

  function SkipSpaces(s: string): (r: string)
    ensures |r| <= |s|
    ensures r == "" || !IsSpace(r[0])
  {
    if s != "" && IsSpace(s[0]) then SkipSpaces(s[1..]) else s
  }

  function HexValue(c: char): (r: Option<int>)
    ensures r.Some? ==> 0 <= r.value < 16
  {
    if IsDigit(c) then Some((c - '0') as int)
    else if 'a' <= c <= 'f' then Some((c - 'a') as int + 10)
    else if 'A' <= c <= 'F' then Some((c - 'A') as int + 10)
    else None
  }

  function Hex4(s: string): (r: Option<int>)
    ensures r.Some? ==> |s| >= 4 && 0 <= r.value < 0x10000
  {
    if |s| < 4 then None
    else
      match (HexValue(s[0]), HexValue(s[1]), HexValue(s[2]), HexValue(s[3]))
      case (Some(a), Some(b), Some(c), Some(d)) => Some(((a * 16 + b) * 16 + c) * 16 + d)
      case _ => None
  }

  /** The character a `\u` escape stands for; a pair of escapes may spell one
      character, and a lone surrogate is no character. */
  function ParseUnicodeEscape(s: string): (r: Option<(char, string)>)
    ensures r.Some? ==> |r.value.1| < |s|
  {
    match Hex4(s)
    case None => None
    case Some(n) =>
      if n < 0xD800 || 0xE000 <= n then Some((n as char, s[4..]))
      else if n < 0xDC00 && "\\u" <= s[4..] then
        match Hex4(s[6..])
        case Some(m) =>
          if 0xDC00 <= m < 0xE000
          then Some(((0x10000 + (n - 0xD800) * 0x400 + (m - 0xDC00)) as char, s[10..]))
          else None
        case None => None
      else None
  }

  function ParseEscape(s: string): (r: Option<(char, string)>)
    ensures r.Some? ==> |r.value.1| < |s|
  {
    if s == "" then None
    else
      match s[0]
      case '"' => Some(('"', s[1..]))
      case '\\' => Some(('\\', s[1..]))
      case '/' => Some(('/', s[1..]))
      case 'b' => Some(('\U{8}', s[1..]))
      case 'f' => Some(('\U{C}', s[1..]))
      case 'n' => Some(('\n', s[1..]))
      case 'r' => Some(('\r', s[1..]))
      case 't' => Some(('\t', s[1..]))
      case 'u' => ParseUnicodeEscape(s[1..])
      case _ => None
  }

  function Prepend(c: char, r: Option<(string, string)>): Option<(string, string)> {
    match r
    case None => None
    case Some((t, rest)) => Some(([c] + t, rest))
  }

  /** The characters up to the closing quote, and the text after it. */
  function ParseChars(s: string): (r: Option<(string, string)>)
    ensures r.Some? ==> |r.value.1| < |s|
    decreases |s|
  {
    if s == "" then None
    else if s[0] == '"' then Some(("", s[1..]))
    else if s[0] == '\\' then
      match ParseEscape(s[1..])
      case None => None
      case Some((c, rest)) => Prepend(c, ParseChars(rest))
    else if s[0] < ' ' then None
    else Prepend(s[0], ParseChars(s[1..]))
  }

  /** Continues a number whose digits so far have the value `acc`. */
  function ParseDigits(acc: nat, s: string): (r: (nat, string))
    ensures |r.1| <= |s|
    decreases |s|
  {
    if s != "" && IsDigit(s[0]) then ParseDigits(acc * 10 + (s[0] - '0') as int, s[1..]) else (acc, s)
  }

  /** A number not followed by the rest of a floating-point literal. */
  predicate EndsNumber(rest: string) {
    rest == "" || (!IsDigit(rest[0]) && rest[0] != '.' && rest[0] != 'e' && rest[0] != 'E')
  }

  function ParseNat(s: string): (r: Option<(nat, string)>)
    ensures r.Some? ==> |r.value.1| < |s|
  {
    if s == "" || !IsDigit(s[0]) then None
    else
      var (n, rest) := if s[0] == '0' then (0, s[1..]) else ParseDigits((s[0] - '0') as int, s[1..]);
      if rest != "" && rest[0] in ".eE" then None else Some((n, rest))
  }

  function ParseNumber(s: string): (r: Option<(Json, string)>)
    ensures r.Some? ==> |r.value.1| < |s|
  {
    if s != "" && s[0] == '-' then
      match ParseNat(s[1..])
      case None => None
      case Some((n, rest)) => Some((Num(0 - n), rest))
    else
      match ParseNat(s)
      case None => None
      case Some((n, rest)) => Some((Num(n), rest))
  }

  function ParseValue(s: string): (r: Option<(Json, string)>)
    ensures r.Some? ==> |r.value.1| < |s|
    decreases |s|, 0
  {
    if s == "" then None
    else if s[0] == '"' then
      match ParseChars(s[1..])
      case None => None
      case Some((t, rest)) => Some((Str(t), rest))
    else if s[0] == '[' then ParseArray(s[1..])
    else if s[0] == '{' then ParseObject(s[1..])
    else if "null" <= s then Some((Null, s[4..]))
    else if "true" <= s then Some((Bool(true), s[4..]))
    else if "false" <= s then Some((Bool(false), s[5..]))
    else ParseNumber(s)
  }

  /** The rest of an array, after its opening bracket. */
  function ParseArray(s: string): (r: Option<(Json, string)>)
    ensures r.Some? ==> |r.value.1| < |s|
    decreases |s|, 3
  {
    var u := SkipSpaces(s);
    if u != "" && u[0] == ']' then Some((Arr([]), u[1..]))
    else
      match ParseItems(u)
      case None => None
      case Some((items, rest)) => Some((Arr(items), rest))
  }

  /** The rest of an object, after its opening brace. */
  function ParseObject(s: string): (r: Option<(Json, string)>)
    ensures r.Some? ==> |r.value.1| < |s|
    decreases |s|, 3
  {
    var u := SkipSpaces(s);
    if u != "" && u[0] == '}' then Some((Obj([]), u[1..]))
    else
      match ParsePairs(u)
      case None => None
      case Some((pairs, rest)) => Some((Obj(FromPairs([], pairs)), rest))
  }

  function ParseItems(s: string): (r: Option<(seq<Json>, string)>)
    ensures r.Some? ==> |r.value.1| < |s|
    decreases |s|, 1
  {
    match ParseValue(s)
    case None => None
    case Some((v, r0)) =>
      var r := SkipSpaces(r0);
      if r != "" && r[0] == ']' then Some(([v], r[1..]))
      else if r != "" && r[0] == ',' then
        match ParseItems(SkipSpaces(r[1..]))
        case None => None
        case Some((vs, rest)) => Some(([v] + vs, rest))
      else None
  }

  /** One `"key": value` member. */
  function ParsePair(s: string): (r: Option<(Entry, string)>)
    ensures r.Some? ==> |r.value.1| < |s|
    decreases |s|, 1
  {
    if s == "" || s[0] != '"' then None
    else
      match ParseChars(s[1..])
      case None => None
      case Some((k, r0)) =>
        var r := SkipSpaces(r0);
        if r == "" || r[0] != ':' then None
        else
          match ParseValue(SkipSpaces(r[1..]))
          case None => None
          case Some((v, rest)) => Some((Entry(k, v), rest))
  }

  function ParsePairs(s: string): (r: Option<(seq<Entry>, string)>)
    ensures r.Some? ==> |r.value.1| < |s|
    decreases |s|, 2
  {
    match ParsePair(s)
    case None => None
    case Some((e, r0)) =>
      var r := SkipSpaces(r0);
      if r != "" && r[0] == '}' then Some(([e], r[1..]))
      else if r != "" && r[0] == ',' then
        match ParsePairs(SkipSpaces(r[1..]))
        case None => None
        case Some((es, rest)) => Some(([e] + es, rest))
      else None
  }

  /** `json.loads(text)`: one value, with white space allowed around it. */
  function Loads(text: string): Option<Json> {
    match ParseValue(SkipSpaces(text))
    case Some((j, rest)) => if SkipSpaces(rest) == "" then Some(j) else None
    case None => None
  }
}
