/** When rewriting the AUTOGEN blocks of a text twice is rewriting them once. */
module AutogenIdempotence {
  import opened Autogen
  import opened Seqs
  import opened Wrappers

  // ---- Renderers without END markers ---------------------------------------------------------------

  /** Renderers that emit no END marker (they may emit BEGIN markers). */
  ghost predicate NoEndMarkers(render: Renderers) {
    forall name, k | name in render :: FirstEnd(render[name], k) == None
  }

  lemma {:induction false} NoNewEnds(items: seq<Item>, name: Name, render: Renderers)
    requires NoEndMarkers(render) && FirstEnd(Unparse(items), name) == None
    ensures FirstEnd(Unparse(ReplaceBodies(items, render)), name) == None
    decreases |items|
  {
    if items != [] {
      var rest := Unparse(items[1..]);
      FirstEndSkips(ItemText(items[0]), rest, name);
      NoNewEnds(items[1..], name, render);
      var item := ReplaceBody(items[0], render);
      UnparsePush(item, ReplaceBodies(items[1..], render));
      NoNewEndInItem(items[0], name, render);
      FirstEndSkips(ItemText(item), Unparse(ReplaceBodies(items[1..], render)), name);
    }
  }

  lemma NoNewEndInItem(item: Item, name: Name, render: Renderers)
    requires NoEndMarkers(render) && FirstEnd(ItemText(item), name) == None
    ensures FirstEnd(ItemText(ReplaceBody(item, render)), name) == None
  {
    match item
    case Outside(_) =>
    case Block(o, body, c) =>
      FirstEndSkips([o] + body, [c], name);
      FirstEndSkips([o], body, name);
      var after := ReplaceBody(item, render).body;
      FirstEndSkips([o] + after, [c], name);
      FirstEndSkips([o], after, name);
  }

  lemma {:induction false} ReplacedIsAReading(items: seq<Item>, render: Renderers)
    requires NoEndMarkers(render) && Reading(items)
    ensures Reading(ReplaceBodies(items, render))
    decreases |items|
  {
    if items != [] {
      ReplacedIsAReading(items[1..], render);
      UnparsePush(ReplaceBody(items[0], render), ReplaceBodies(items[1..], render));
      match items[0]
      case Outside(t) =>
        if t.Begin? {
          NoNewEnds(items[1..], t.name, render);
        }
      case Block(_, _, _) =>
    }
  }

  /** The blocks of the rewritten text are those of the text, with rendered bodies. */
  lemma BlocksSurvive(ts: Text, render: Renderers)
    requires NoEndMarkers(render)
    ensures Parse(Rewrite(ts, render)) == ReplaceBodies(Parse(ts), render)
  {
    ParseReads(ts);
    RewriteReplacesBodies(Parse(ts), render);
    ReplacedIsAReading(Parse(ts), render);
    ReadingIsUnique(ReplaceBodies(Parse(ts), render));
  }

  // ---- The condition -------------------------------------------------------------------------------------

  /** Reading the text on its own, the first BEGIN left unmatched that is not of a block named `k`. */
  function OpenBegin(ts: Text, k: Name): (r: Option<nat>)
    ensures r.Some? ==> r.value < |ts|
    decreases |ts|
  {
    if ts == [] then None
    else if ts[0].Begin? && FirstEnd(ts[1..], ts[0].name).Some? then
      var i := FirstEnd(ts[1..], ts[0].name).value;
      match OpenBegin(ts[i + 2..], k) case None => None case Some(j) => Some(i + 2 + j)
    else if ts[0].Begin? && ts[0].name != k then Some(0)
    else match OpenBegin(ts[1..], k) case None => None case Some(j) => Some(j + 1)
  }

  /** Its name, if there is one. */
  function OpenName(ts: Text, k: Name): Name {
    match OpenBegin(ts, k)
    case None => k
    case Some(i) => if ts[i].Begin? then ts[i].name else k
  }

  lemma {:induction false} OpenBeginIsOther(ts: Text, k: Name)
    requires OpenBegin(ts, k).Some?
    ensures var t := ts[OpenBegin(ts, k).value];
            t.Begin? && t.name == OpenName(ts, k) && t.name != k
    decreases |ts|
  {
    if ts[0].Begin? && FirstEnd(ts[1..], ts[0].name).Some? {
      OpenBeginIsOther(ts[FirstEnd(ts[1..], ts[0].name).value + 2..], k);
    } else if !(ts[0].Begin? && ts[0].name != k) {
      OpenBeginIsOther(ts[1..], k);
    }
  }

  ghost predicate NoKnownEnds(body: Text, render: Renderers) {
    forall q | q in render :: FirstEnd(body, q) == None
  }

  /** A rendered body can do no harm: it has no END of a known block; and where it has an END
      of an unknown one, which an unmatched BEGIN before the block would reach, what follows
      that END leaves no BEGIN open but of the same name. */
  ghost predicate SettledBody(body: Text, render: Renderers) {
    && NoKnownEnds(body, render)
    && forall k | FirstEnd(body, k).Some? :: OpenBegin(body[FirstEnd(body, k).value + 1..], k) == None
  }

  ghost predicate Settled(render: Renderers) {
    forall m | m in render :: SettledBody(render[m], render)
  }

  lemma NoEndMarkersSettle(render: Renderers)
    requires NoEndMarkers(render)
    ensures Settled(render)
  {
  }

  // ---- Texts that rewriting leaves alone --------------------------------------------------------------------

  predicate Fixed(ts: Text, render: Renderers) {
    Rewrite(ts, render) == ts
  }

  lemma RewriteOutside(t: Token, rest: Text, render: Renderers)
    requires t.Begin? ==> FirstEnd(rest, t.name) == None
    ensures Rewrite([t] + rest, render) == [t] + Rewrite(rest, render)
  {
    assert ([t] + rest)[1..] == rest;
  }

  lemma RewriteBlock(o: Token, body: Text, c: Token, rest: Text, render: Renderers)
    requires o.Begin? && c.End? && c.name == o.name && FirstEnd(body, o.name) == None
    ensures Rewrite([o] + body + [c] + rest, render) ==
            [o] + (if o.name in render then render[o.name] else body) + [c] + Rewrite(rest, render)
  {
    BlockEndsAtItsMarker(body, c, rest);
    JoinBlock(o, body, c, rest);
  }

  lemma FixedOutside(t: Token, rest: Text, render: Renderers)
    requires (t.Begin? ==> FirstEnd(rest, t.name) == None) && Fixed(rest, render)
    ensures Fixed([t] + rest, render)
  {
    RewriteOutside(t, rest, render);
  }

  lemma FixedBlock(o: Token, body: Text, c: Token, rest: Text, render: Renderers)
    requires o.Begin? && c.End? && c.name == o.name && FirstEnd(body, o.name) == None && Fixed(rest, render)
    requires o.name in render ==> body == render[o.name]
    ensures Fixed([o] + body + [c] + rest, render)
  {
    RewriteBlock(o, body, c, rest, render);
  }

  // ---- Cutting a text at an END ----------------------------------------------------------------------------

  ghost predicate CutAt(ts: Text, k: Name, before: Text, e: Token, after: Text) {
    ts == before + [e] + after && e.End? && e.name == k && FirstEnd(before, k) == None
  }

  lemma CutAtFirstEnd(ts: Text, k: Name) returns (before: Text, e: Token, after: Text)
    requires FirstEnd(ts, k).Some?
    ensures CutAt(ts, k, before, e, after) && FirstEnd(ts, k) == Some(|before|) && after == ts[|before| + 1..]
  {
    var i := FirstEnd(ts, k).value;
    NoEndBeforeTheFirst(ts, k);
    before, e, after := ts[..i], ts[i], ts[i + 1..];
  }

  lemma CutLater(head: Text, ts: Text, k: Name, before: Text, e: Token, after: Text)
    requires CutAt(ts, k, before, e, after) && FirstEnd(head, k) == None
    ensures CutAt(head + ts, k, head + before, e, after)
  {
    FirstEndSkips(head, before, k);
  }

  lemma CutEarlier(ts: Text, tail: Text, k: Name, before: Text, e: Token, after: Text)
    requires CutAt(ts, k, before, e, after)
    ensures CutAt(ts + tail, k, before, e, after + tail)
  {
  }

  lemma FixedCut(t: Token, ts: Text, before: Text, e: Token, after: Text, render: Renderers)
    requires t.Begin? && t.name !in render && CutAt(ts, t.name, before, e, after) && Fixed(after, render)
    ensures Fixed([t] + ts, render)
  {
    FixedBlock(t, before, e, after, render);
    Associates([t], before, [e]);
    Associates([t], before + [e], after);
  }

  // ---- The condition suffices ----------------------------------------------------------------------------------

  function Rewritten(items: seq<Item>, render: Renderers): Text {
    Unparse(ReplaceBodies(items, render))
  }

  lemma RewrittenPush(items: seq<Item>, render: Renderers)
    requires items != []
    ensures Rewritten(items, render) == ItemText(ReplaceBody(items[0], render)) + Rewritten(items[1..], render)
    ensures Unparse(items) == ItemText(items[0]) + Unparse(items[1..])
  {
    UnparsePush(ReplaceBody(items[0], render), ReplaceBodies(items[1..], render));
  }

  lemma {:induction false} FirstEndStays(a: Text, b: Text, name: Name)
    requires FirstEnd(a, name).Some?
    ensures FirstEnd(a + b, name) == FirstEnd(a, name)
  {
    assert (a + b)[1..] == a[1..] + b;
    if !(a[0].End? && a[0].name == name) {
      FirstEndStays(a[1..], b, name);
    }
  }

  lemma NoEndInSuffix(ts: Text, i: nat, name: Name)
    requires i <= |ts| && FirstEnd(ts, name) == None
    ensures FirstEnd(ts[i..], name) == None
  {
    assert ts == ts[..i] + ts[i..];
    FirstEndSkips(ts[..i], ts[i..], name);
  }

  lemma NoKnownEndsInSuffix(ts: Text, i: nat, render: Renderers)
    requires i <= |ts| && NoKnownEnds(ts, render)
    ensures NoKnownEnds(ts[i..], render)
  {
    forall q | q in render
      ensures FirstEnd(ts[i..], q) == None
    {
      NoEndInSuffix(ts, i, q);
    }
  }

  /** Rendered bodies bring in no END of a known block. */
  lemma {:induction false} NoNewKnownEnds(items: seq<Item>, q: Name, render: Renderers)
    requires Settled(render) && q in render && FirstEnd(Unparse(items), q) == None
    ensures FirstEnd(Rewritten(items, render), q) == None
    decreases |items|
  {
    if items != [] {
      RewrittenPush(items, render);
      FirstEndSkips(ItemText(items[0]), Unparse(items[1..]), q);
      NoNewKnownEnds(items[1..], q, render);
      NoNewKnownEndInItem(items[0], q, render);
      FirstEndSkips(ItemText(ReplaceBody(items[0], render)), Rewritten(items[1..], render), q);
    }
  }

  lemma EndsOfBlock(o: Token, body: Text, c: Token, name: Name)
    requires o.Begin?
    ensures FirstEnd(ItemText(Block(o, body, c)), name) == None <==>
              FirstEnd(body, name) == None && !(c.End? && c.name == name)
    ensures FirstEnd(body, name).Some? ==>
              FirstEnd(ItemText(Block(o, body, c)), name) == Some(1 + FirstEnd(body, name).value)
  {
    FirstEndSkips([o], body, name);
    FirstEndSkips([o] + body, [c], name);
    if FirstEnd(body, name).Some? {
      assert ([o] + body)[1..] == body;
      FirstEndStays([o] + body, [c], name);
    }
  }

  lemma NoNewKnownEndInItem(item: Item, q: Name, render: Renderers)
    requires Settled(render) && q in render && FirstEnd(ItemText(item), q) == None
    ensures FirstEnd(ItemText(ReplaceBody(item, render)), q) == None
  {
    match item
    case Outside(_) =>
    case Block(o, body, c) =>
      if o.Begin? && o.name in render {
        EndsOfBlock(o, body, c, q);
        EndsOfBlock(o, render[o.name], c, q);
        assert SettledBody(render[o.name], render);
      }
  }

  /** Rewriting leaves a rewritten text alone ... */
  lemma {:induction false} RewrittenIsFixed(items: seq<Item>, render: Renderers)
    requires Settled(render) && Reading(items)
    ensures Fixed(Rewritten(items, render), render)
    decreases |items|, 0
  {
    if items != [] {
      var rest := Rewritten(items[1..], render);
      RewrittenPush(items, render);
      RewrittenIsFixed(items[1..], render);
      match items[0]
      case Outside(t) =>
        if t.Begin? {
          OpenBeginIsFixed(t, items[1..], render);
        } else {
          FixedOutside(t, rest, render);
        }
      case Block(o, body, c) =>
        assert o.name in render ==> SettledBody(render[o.name], render);
        FixedBlock(o, ReplaceBody(items[0], render).body, c, rest, render);
    }
  }

  lemma OpenBeginIsFixed(t: Token, items: seq<Item>, render: Renderers)
    requires Settled(render) && Reading(items) && t.Begin? && FirstEnd(Unparse(items), t.name) == None
    requires Fixed(Rewritten(items, render), render)
    ensures Fixed([t] + Rewritten(items, render), render)
    decreases |items|, 1
  {
    if FirstEnd(Rewritten(items, render), t.name) == None {
      FixedOutside(t, Rewritten(items, render), render);
    } else {
      if t.name in render {
        NoNewKnownEnds(items, t.name, render);
      }
      var before, e, after := AfterEndIsFixed(items, t.name, render);
      FixedCut(t, Rewritten(items, render), before, e, after, render);
    }
  }

  /** ... also when it starts right after the first END of an unknown name, where the text
      had none before it was rewritten ... */
  lemma {:induction false} AfterEndIsFixed(items: seq<Item>, k: Name, render: Renderers)
    returns (before: Text, e: Token, after: Text)
    requires Settled(render) && Reading(items) && k !in render
    requires FirstEnd(Unparse(items), k) == None && FirstEnd(Rewritten(items, render), k).Some?
    ensures CutAt(Rewritten(items, render), k, before, e, after) && Fixed(after, render)
    decreases |items|, 0
  {
    var head, rest := ItemText(ReplaceBody(items[0], render)), Rewritten(items[1..], render);
    RewrittenPush(items, render);
    FirstEndSkips(head, rest, k);
    FirstEndSkips(ItemText(items[0]), Unparse(items[1..]), k);
    if FirstEnd(head, k) == None {
      before, e, after := AfterEndIsFixed(items[1..], k, render);
      CutLater(head, rest, k, before, e, after);
      before := head + before;
    } else {
      var Block(o, body, c) := items[0];
      EndsOfBlock(o, body, c, k);
      assert o.name in render;
      before, e, after := AfterBodyEndIsFixed(o, c, k, items[1..], render);
    }
  }

  lemma AfterBodyEndIsFixed(o: Token, c: Token, k: Name, items: seq<Item>, render: Renderers)
    returns (before: Text, e: Token, after: Text)
    requires Settled(render) && Reading(items) && k !in render && FirstEnd(Unparse(items), k) == None
    requires o.Begin? && o.name in render && c.End? && c.name == o.name
    requires FirstEnd(ItemText(Block(o, render[o.name], c)), k).Some?
    ensures CutAt(ItemText(Block(o, render[o.name], c)) + Rewritten(items, render), k, before, e, after)
    ensures Fixed(after, render)
    decreases |items|, |render[o.name]| + 2
  {
    var body, tail := render[o.name], [c] + Rewritten(items, render);
    EndsOfBlock(o, body, c, k);
    assert SettledBody(body, render);
    before, e, after := CutAtFirstEnd(body, k);
    NoKnownEndsInSuffix(body, |before| + 1, render);
    PostIsFixed(after, k, c, items, render);
    CutEarlier(body, tail, k, before, e, after);
    CutLater([o], body + tail, k, before, e, after + tail);
    BlockThen(o, body, c, Rewritten(items, render));
    before, after := [o] + before, after + tail;
  }

  lemma NoOpenAfterEnd(post: Text, k: Name, i: nat)
    requires post != [] && post[0].Begin? && FirstEnd(post[1..], post[0].name) == Some(i)
    requires OpenBegin(post, k) == None
    ensures OpenBegin(post[1..][i + 1..], k) == None
  {
    assert post[1..][i + 1..] == post[i + 2..];
  }

  lemma NoOpenInTail(post: Text, k: Name)
    requires post != [] && !(post[0].Begin? && FirstEnd(post[1..], post[0].name).Some?)
    requires OpenBegin(post, k) == None
    ensures OpenBegin(post[1..], k) == None && (post[0].Begin? ==> post[0].name == k)
  {
  }

  lemma BlockThen(o: Token, body: Text, c: Token, rest: Text)
    ensures ItemText(Block(o, body, c)) + rest == [o] + (body + ([c] + rest))
  {
  }

  /** ... that is, in what follows that END in a rendered body. */
  lemma {:induction false} PostIsFixed(post: Text, k: Name, c: Token, items: seq<Item>, render: Renderers)
    requires Settled(render) && Reading(items) && k !in render && FirstEnd(Unparse(items), k) == None
    requires OpenBegin(post, k) == None && NoKnownEnds(post, render) && c.End? && c.name in render
    ensures Fixed(post + ([c] + Rewritten(items, render)), render)
    decreases |items|, 1 + |post|
  {
    var tail := [c] + Rewritten(items, render);
    if post == [] {
      RewrittenIsFixed(items, render);
      FixedOutside(c, Rewritten(items, render), render);
      EmptyIsUnit(tail);
    } else {
      var t, more := post[0], post[1..];
      ConsText(post, tail);
      NoKnownEndsInSuffix(post, 1, render);
      if t.Begin? && FirstEnd(more, t.name).Some? {
        var before, e, after := CutAtFirstEnd(more, t.name);
        NoKnownEndsInSuffix(more, |before| + 1, render);
        NoOpenAfterEnd(post, k, |before|);
        PostIsFixed(after, k, c, items, render);
        CutEarlier(more, tail, t.name, before, e, after);
        FixedCut(t, more + tail, before, e, after + tail, render);
      } else {
        NoOpenInTail(post, k);
        PostIsFixed(more, k, c, items, render);
        if t.Begin? {
          OpenPostIsFixed(t, more, k, c, items, render);
        } else {
          FixedOutside(t, more + tail, render);
        }
      }
    }
  }

  lemma ConsText<T>(a: seq<T>, b: seq<T>)
    requires a != []
    ensures a + b == [a[0]] + (a[1..] + b)
  {
  }

  lemma OpenPostIsFixed(t: Token, more: Text, k: Name, c: Token, items: seq<Item>, render: Renderers)
    requires Settled(render) && Reading(items) && k !in render && FirstEnd(Unparse(items), k) == None
    requires t.Begin? && t.name == k && FirstEnd(more, k) == None && c.End? && c.name in render
    requires Fixed(more + ([c] + Rewritten(items, render)), render)
    ensures Fixed([t] + (more + ([c] + Rewritten(items, render))), render)
    decreases |items|, 1
  {
    var rest := Rewritten(items, render);
    var tail := [c] + rest;
    FirstEndSkips(more, tail, k);
    FirstEndSkips([c], rest, k);
    if FirstEnd(rest, k) == None {
      FixedOutside(t, more + tail, render);
    } else {
      var before, e, after := AfterEndIsFixed(items, k, render);
      CutLater([c], rest, k, before, e, after);
      CutLater(more, tail, k, [c] + before, e, after);
      FixedCut(t, more + tail, more + ([c] + before), e, after, render);
    }
  }

  /** Main result: with settled renderers, rewriting twice is rewriting once. */
  lemma RewriteIsIdempotent(ts: Text, render: Renderers)
    requires Settled(render)
    ensures Rewrite(Rewrite(ts, render), render) == Rewrite(ts, render)
  {
    ParseReads(ts);
    RewriteReplacesBodies(Parse(ts), render);
    RewrittenIsFixed(Parse(ts), render);
  }
}
