/** `generate-docs.py`: rewriting the AUTOGEN blocks of a text, over a text split into markers and plain pieces. */
module Autogen {
  import opened Wrappers

  type Name = string

  /** A marker keeps its exact spelling: the regular expression allows any white space
      around the name, and the markers are written back as they were. */
  datatype Token = Begin(name: Name, spelling: string) | End(name: Name, spelling: string) | Plain(text: string)

  type Text = seq<Token>

  /** The renderer table, as it renders the data of one run: a body for each known block name. */
  type Renderers = map<Name, Text>

  // ---- The substitution ---------------------------------------------------------------------

  /** The first END marker of a block (the body is matched non-greedily). */
  function FirstEnd(ts: Text, name: Name): (r: Option<nat>)
    ensures r.Some? ==> r.value < |ts| && ts[r.value].End? && ts[r.value].name == name
  {
    if ts == [] then None
    else if ts[0].End? && ts[0].name == name then Some(0)
    else match FirstEnd(ts[1..], name) case None => None case Some(i) => Some(i + 1)
  }

  /** One left-to-right pass of the substitution: a matched block is skipped whole, with
      its body rendered afresh if the name is known. */
  function Rewrite(ts: Text, render: Renderers): Text
    decreases |ts|
  {
    if ts == [] then []
    else if !ts[0].Begin? then [ts[0]] + Rewrite(ts[1..], render)
    else
      match FirstEnd(ts[1..], ts[0].name)
      case None => [ts[0]] + Rewrite(ts[1..], render)
      case Some(i) =>
        var rest := Rewrite(ts[i + 2..], render);
        if ts[0].name in render then [ts[0]] + render[ts[0].name] + [ts[i + 1]] + rest else ts[..i + 2] + rest
  }

  // ---- What the blocks of a text are -----------------------------------------------------------

  datatype Item = Outside(token: Token) | Block(opening: Token, body: Text, closing: Token)

  function ItemText(item: Item): Text {
    match item
    case Outside(t) => [t]
    case Block(o, body, c) => [o] + body + [c]
  }

  function Unparse(items: seq<Item>): Text {
    if items == [] then [] else ItemText(items[0]) + Unparse(items[1..])
  }

  /** One item of a reading: a block ends at the first END of its name, and a BEGIN outside
      the blocks has no END of its name in the text after it. */
  ghost predicate ItemReads(item: Item, after: Text) {
    match item
    case Outside(t) => t.Begin? ==> FirstEnd(after, t.name) == None
    case Block(o, body, c) => o.Begin? && c.End? && c.name == o.name && FirstEnd(body, o.name) == None
  }

  /** A reading of a text as leftmost, non-overlapping, shortest blocks. */
  ghost predicate Reading(items: seq<Item>)
    decreases items
  {
    items == [] || (Reading(items[1..]) && ItemReads(items[0], Unparse(items[1..])))
  }

  function Parse(ts: Text): seq<Item>
    decreases |ts|
  {
    if ts == [] then []
    else if !ts[0].Begin? then [Outside(ts[0])] + Parse(ts[1..])
    else
      match FirstEnd(ts[1..], ts[0].name)
      case None => [Outside(ts[0])] + Parse(ts[1..])
      case Some(i) => [Block(ts[0], ts[1..i + 1], ts[i + 1])] + Parse(ts[i + 2..])
  }

  lemma {:induction false} FirstEndSkips(a: Text, b: Text, name: Name)
    ensures FirstEnd(a, name) == None ==>
              FirstEnd(a + b, name) == match FirstEnd(b, name) case None => None case Some(i) => Some(|a| + i)
    ensures FirstEnd(a + b, name) == None <==> FirstEnd(a, name) == None && FirstEnd(b, name) == None
  {
    if a == [] {
      assert a + b == b;
    } else {
      assert (a + b)[1..] == a[1..] + b;
      FirstEndSkips(a[1..], b, name);
    }
  }

  lemma {:induction false} NoEndBeforeTheFirst(ts: Text, name: Name)
    requires FirstEnd(ts, name).Some?
    ensures FirstEnd(ts[..FirstEnd(ts, name).value], name) == None
  {
    var i := FirstEnd(ts, name).value;
    if i > 0 {
      NoEndBeforeTheFirst(ts[1..], name);
      assert ts[..i][1..] == ts[1..][..i - 1];
    }
  }

  lemma UnparsePush(item: Item, items: seq<Item>)
    ensures Unparse([item] + items) == ItemText(item) + Unparse(items)
    ensures Reading([item] + items) <==> Reading(items) && ItemReads(item, Unparse(items))
  {
    assert ([item] + items)[1..] == items;
  }

  /** Parsing reads the text, all of it ... */
  lemma {:induction false} ParseReads(ts: Text)
    ensures Unparse(Parse(ts)) == ts && Reading(Parse(ts))
    decreases |ts|
  {
    if ts != [] {
      var found := if ts[0].Begin? then FirstEnd(ts[1..], ts[0].name) else None;
      match found
      case None =>
        ParseReads(ts[1..]);
        UnparsePush(Outside(ts[0]), Parse(ts[1..]));
      case Some(i) =>
        ParseReads(ts[i + 2..]);
        NoEndBeforeTheFirst(ts[1..], ts[0].name);
        CutBlock(ts, i);
        UnparsePush(Block(ts[0], ts[1..i + 1], ts[i + 1]), Parse(ts[i + 2..]));
    }
  }

  lemma CutBlock<T>(ts: seq<T>, i: nat)
    requires i + 1 < |ts|
    ensures ts[1..i + 1] == ts[1..][..i] && ts[i + 1] == ts[1..][i]
    ensures [ts[0]] + ts[1..i + 1] + [ts[i + 1]] + ts[i + 2..] == ts
  {
  }

  lemma JoinBlock<T>(o: T, body: seq<T>, c: T, rest: seq<T>)
    ensures var ts := [o] + body + [c] + rest;
            && ts[0] == o && ts[1..] == body + ([c] + rest)
            && ts[1..|body| + 1] == body && ts[|body| + 1] == c && ts[|body| + 2..] == rest
            && ts[..|body| + 2] == [o] + body + [c]
  {
  }

  lemma BlockEndsAtItsMarker(body: Text, c: Token, rest: Text)
    requires c.End? && FirstEnd(body, c.name) == None
    ensures FirstEnd(body + ([c] + rest), c.name) == Some(|body|)
  {
    FirstEndSkips(body, [c] + rest, c.name);
  }

  /** ... and is the only way to read it. */
  lemma {:induction false} ReadingIsUnique(items: seq<Item>)
    requires Reading(items)
    ensures Parse(Unparse(items)) == items
    decreases |items|
  {
    if items != [] {
      ReadingIsUnique(items[1..]);
      var rest := Unparse(items[1..]);
      match items[0]
      case Outside(t) => assert Unparse(items)[1..] == rest;
      case Block(o, body, c) =>
        BlockEndsAtItsMarker(body, c, rest);
        JoinBlock(o, body, c, rest);
    }
  }

  // ---- Rewriting changes the bodies of the known blocks and nothing else ---------------------------

  function ReplaceBody(item: Item, render: Renderers): Item {
    match item
    case Outside(_) => item
    case Block(o, _, c) =>
      if o.Begin? && o.name in render then Block(o, render[o.name], c) else item
  }

  function ReplaceBodies(items: seq<Item>, render: Renderers): seq<Item> {
    if items == [] then [] else [ReplaceBody(items[0], render)] + ReplaceBodies(items[1..], render)
  }

  lemma {:induction false} RewriteReplacesBodies(items: seq<Item>, render: Renderers)
    requires Reading(items)
    ensures Rewrite(Unparse(items), render) == Unparse(ReplaceBodies(items, render))
    decreases |items|
  {
    if items != [] {
      RewriteReplacesBodies(items[1..], render);
      var rest := Unparse(items[1..]);
      UnparsePush(ReplaceBody(items[0], render), ReplaceBodies(items[1..], render));
      match items[0]
      case Outside(t) => assert Unparse(items)[1..] == rest;
      case Block(o, body, c) =>
        BlockEndsAtItsMarker(body, c, rest);
        JoinBlock(o, body, c, rest);
    }
  }

  lemma {:induction false} ReplaceBodiesAt(items: seq<Item>, i: nat, render: Renderers)
    requires i < |items|
    ensures |ReplaceBodies(items, render)| == |items|
    ensures ReplaceBodies(items, render)[i] == ReplaceBody(items[i], render)
  {
    if i > 0 {
      ReplaceBodiesAt(items[1..], i - 1, render);
    } else if |items| > 1 {
      ReplaceBodiesAt(items[1..], 0, render);
    }
  }

  /** Rewriting a text keeps every token outside its blocks, every marker, and every block of
      an unknown name, in place; a known block gets its rendered body. */
  lemma OnlyKnownBodiesChange(ts: Text, i: nat, render: Renderers)
    requires i < |Parse(ts)|
    ensures var before := Parse(ts);
            var after := ReplaceBodies(before, render);
            && Unparse(before) == ts && Unparse(after) == Rewrite(ts, render) && |after| == |before|
            && (before[i].Outside? ==> after[i] == before[i])
            && (before[i].Block? ==>
                  && after[i].Block? && before[i].opening.Begin?
                  && after[i].opening == before[i].opening && after[i].closing == before[i].closing
                  && var name := before[i].opening.name;
                     after[i].body == if name in render then render[name] else before[i].body)
  {
    ParseReads(ts);
    RewriteReplacesBodies(Parse(ts), render);
    ReplaceBodiesAt(Parse(ts), i, render);
    BlocksOpen(Parse(ts), i);
  }

  lemma {:induction false} BlocksOpen(items: seq<Item>, i: nat)
    requires Reading(items) && i < |items|
    ensures items[i].Block? ==> items[i].opening.Begin?
    decreases |items|
  {
    if i > 0 {
      BlocksOpen(items[1..], i - 1);
    }
  }
}
