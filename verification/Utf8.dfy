/** The UTF-8 encoder that turns a printed manifest into the signed bytes. */
module Utf8 {
  import opened Bytes

  function EncodeChar(c: char): (r: seq<Byte>)
    ensures 1 <= |r| <= 4
  {
    var n := c as int;
    if n < 0x80 then [n]
    else if n < 0x800 then [0xC0 + n / 0x40, 0x80 + n % 0x40]
    else if n < 0x10000 then [0xE0 + n / 0x1000, 0x80 + n / 0x40 % 0x40, 0x80 + n % 0x40]
    else [0xF0 + n / 0x40000, 0x80 + n / 0x1000 % 0x40, 0x80 + n / 0x40 % 0x40, 0x80 + n % 0x40]
  }

  function Encode(s: string): seq<Byte> {
    if s == "" then [] else EncodeChar(s[0]) + Encode(s[1..])
  }

  /** The number a character's code spells, read back from its bytes. */
  function DecodeChar(p: seq<int>): int
    requires 1 <= |p| <= 4
  {
    match |p|
    case 1 => p[0]
    case 2 => (p[0] - 0xC0) * 0x40 + (p[1] - 0x80)
    case 3 => ((p[0] - 0xE0) * 0x40 + (p[1] - 0x80)) * 0x40 + (p[2] - 0x80)
    case _ => (((p[0] - 0xF0) * 0x40 + (p[1] - 0x80)) * 0x40 + (p[2] - 0x80)) * 0x40 + (p[3] - 0x80)
  }

  lemma DecodeCharUndoesEncodeChar(c: char)
    ensures DecodeChar(EncodeChar(c)) == c as int
  {
    var n := c as int;
    assert n / 0x1000 == n / 0x40 / 0x40;
    assert n / 0x40000 == n / 0x1000 / 0x40;
  }

  /** A character's code is the UTF-8 one (section 3 of RFC 3629): as many bytes as its magnitude needs, a lead
      byte that says how many, and continuation bytes with six bits each. */
  lemma CharIsUtf8(c: char)
    ensures var n, p := c as int, EncodeChar(c);
            && DecodeChar(p) == n
            && |p| == (if n <= 0x7F then 1 else if n <= 0x7FF then 2 else if n <= 0xFFFF then 3 else 4)
            && (if |p| == 1 then p[0] <= 0x7F
                else if |p| == 2 then 0xC2 <= p[0] <= 0xDF
                else if |p| == 3 then 0xE0 <= p[0] <= 0xEF
                else 0xF0 <= p[0] <= 0xF4)
            && forall i | 0 < i < |p| :: 0x80 <= p[i] <= 0xBF
  {
    DecodeCharUndoesEncodeChar(c);
  }

  lemma {:induction false} EncodeAppend(s: string, t: string)
    ensures Encode(s + t) == Encode(s) + Encode(t)
  {
    if s == "" {
      assert s + t == t;
    } else {
      assert (s + t)[1..] == s[1..] + t;
      EncodeAppend(s[1..], t);
    }
  }

  /** The lead byte fixes the length of a character's code, and the bytes fix the character. */
  lemma CharCodesArePrefixFree(c: char, d: char, x: seq<Byte>, y: seq<Byte>)
    requires EncodeChar(c) + x == EncodeChar(d) + y
    ensures c == d && x == y
  {
    var p, q := EncodeChar(c), EncodeChar(d);
    assert (p + x)[0] == p[0] && (q + y)[0] == q[0];
    assert |p| == |q|;
    forall i | 0 <= i < |p|
      ensures p[i] == q[i]
    {
      assert (p + x)[i] == p[i] && (q + y)[i] == q[i];
    }
    assert p == q;
    DecodeCharUndoesEncodeChar(c);
    DecodeCharUndoesEncodeChar(d);
    assert x == (p + x)[|p|..] == (q + y)[|q|..] == y;
  }

  /** Distinct texts have distinct encodings. */
  lemma {:induction false} EncodeInjective(s: string, t: string)
    requires Encode(s) == Encode(t)
    ensures s == t
  {
    if s != "" && t != "" {
      CharCodesArePrefixFree(s[0], t[0], Encode(s[1..]), Encode(t[1..]));
      EncodeInjective(s[1..], t[1..]);
      assert s == [s[0]] + s[1..] && t == [t[0]] + t[1..];
    }
  }
}
