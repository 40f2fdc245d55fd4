/** Every table of renderers that is not settled has a text that a second rewriting changes. */
module AutogenCounterexamples {
  import opened Autogen
  import opened AutogenIdempotence
  import opened Wrappers

  function B(name: Name): Token { Begin(name, "") }

  function E(name: Name): Token { End(name, "") }

  predicate Changes(ts: Text, render: Renderers) {
    Rewrite(Rewrite(ts, render), render) != Rewrite(ts, render)
  }

  lemma {:induction false} RewriteIsNoShorter(ts: Text, render: Renderers)
    requires ts != []
    ensures Rewrite(ts, render) != []
  {
  }

  lemma RewriteEmptyBlock(m: Name, rest: Text, render: Renderers)
    requires m in render
    ensures Rewrite([B(m), E(m)] + rest, render) == [B(m)] + render[m] + [E(m)] + Rewrite(rest, render)
  {
    RewriteBlock(B(m), [], E(m), rest, render);
    assert [B(m)] + [] + [E(m)] + rest == [B(m), E(m)] + rest;
  }

  lemma PrefixedDiffer<T>(x: seq<T>, a: seq<T>, b: seq<T>)
    requires a != b
    ensures x + a != x + b
  {
    assert (x + a)[|x|..] == a && (x + b)[|x|..] == b;
  }

  lemma Reassociate<T>(o: T, body: seq<T>, e: T, tail: seq<T>)
    ensures [o] + body + [e] + tail == [o] + (body + ([e] + tail))
  {
  }

  lemma FirstEndsDiffer(body: Text, kept: Text, e: Token, a: Text, b: Text)
    requires e.End? && FirstEnd(body, e.name) == None && FirstEnd(kept, e.name) == None && |body| != |kept|
    ensures body + ([e] + a) != kept + ([e] + b)
  {
    BlockEndsAtItsMarker(body, e, a);
    BlockEndsAtItsMarker(kept, e, b);
  }

  /** A known block whose body has not the length of the rendered one changes the text. */
  lemma BlockDiffers(o: Token, body: Text, e: Token, tail: Text, render: Renderers)
    requires o.Begin? && e.End? && e.name == o.name && FirstEnd(body, o.name) == None
    requires o.name in render && FirstEnd(render[o.name], o.name) == None && |body| != |render[o.name]|
    ensures Rewrite([o] + body + [e] + tail, render) != [o] + body + [e] + tail
  {
    var kept, after := render[o.name], Rewrite(tail, render);
    RewriteBlock(o, body, e, tail, render);
    FirstEndsDiffer(body, kept, e, tail, after);
    PrefixedDiffer([o], body + ([e] + tail), kept + ([e] + after));
    Reassociate(o, body, e, tail);
    Reassociate(o, kept, e, after);
  }

  /** So does a text whose rest grows after a block that does not shrink. */
  lemma RestGrows(o: Token, body: Text, e: Token, tail: Text, render: Renderers)
    requires o.Begin? && e.End? && e.name == o.name && FirstEnd(body, o.name) == None
    requires o.name in render ==> |body| <= |render[o.name]|
    requires |Rewrite(tail, render)| > |tail|
    ensures Rewrite([o] + body + [e] + tail, render) != [o] + body + [e] + tail
  {
    RewriteBlock(o, body, e, tail, render);
    assert |Rewrite([o] + body + [e] + tail, render)| > |[o] + body + [e] + tail|;
  }

  // ---- A body with an END of its own block ---------------------------------------------------------------

  lemma Regroup(o: Token, before: Text, e: Token, after: Text, tail: Text)
    ensures [o] + (before + [e] + after) + tail == [o] + before + [e] + (after + tail)
  {
  }

  /** A renderer that emits the END marker of its own block makes the block grow on a second run. */
  lemma OwnEndChanges(m: Name, render: Renderers)
    requires m in render && FirstEnd(render[m], m).Some?
    ensures Changes([B(m), E(m)], render)
  {
    var body := render[m];
    var before, e, after := CutAtFirstEnd(body, m);
    RewriteEmptyBlock(m, [], render);
    assert [B(m), E(m)] + [] == [B(m), E(m)];
    var once := [B(m)] + body + [E(m)];
    assert once + [] == once;
    Regroup(B(m), before, e, after, [E(m)]);
    RewriteBlock(B(m), before, e, after + [E(m)], render);
    RewriteIsNoShorter(after + [E(m)], render);
    assert |Rewrite(once, render)| > |once|;
  }

  // ---- A body with an END of another known block ------------------------------------------------------------

  /** Nothing or one plain token, whichever makes the length of a body wrong. */
  function Padding(wrong: bool): Text {
    if wrong then [] else [Plain("")]
  }

  lemma PaddingStays(wrong: bool, rest: Text, k: Name, render: Renderers)
    ensures Rewrite(Padding(wrong) + rest, render) == Padding(wrong) + Rewrite(rest, render)
    ensures FirstEnd(Padding(wrong) + rest, k) == None <==> FirstEnd(rest, k) == None
    ensures FirstEnd(Padding(wrong), k) == None
  {
    FirstEndSkips(Padding(wrong), rest, k);
    if wrong {
      assert [] + rest == rest && [] + Rewrite(rest, render) == Rewrite(rest, render);
    } else {
      RewriteOutside(Plain(""), rest, render);
      assert [Plain("")][1..] == [];
    }
  }

  lemma NoEndInPair(m: Name, k: Name)
    requires m != k
    ensures FirstEnd([B(m), E(m)], k) == None && FirstEnd([B(m)], k) == None
  {
    assert [B(m), E(m)][1..] == [E(m)] && [E(m)][1..] == [] && [B(m)][1..] == [];
  }

  /** A BEGIN of `k` that nothing closes, padding, and the block whose body has an END of `k`. */
  function OpenThenBlock(k: Name, wrong: bool, m: Name): Text {
    [B(k)] + (Padding(wrong) + [B(m), E(m)])
  }

  lemma OpenThenBlockOnce(k: Name, wrong: bool, m: Name, render: Renderers)
    requires m in render && k != m
    ensures Rewrite(OpenThenBlock(k, wrong, m), render) == [B(k)] + (Padding(wrong) + ([B(m)] + render[m] + [E(m)]))
  {
    NoEndInPair(m, k);
    PaddingStays(wrong, [B(m), E(m)], k, render);
    RewriteOutside(B(k), Padding(wrong) + [B(m), E(m)], render);
    RewriteEmptyBlock(m, [], render);
    assert [B(m), E(m)] + [] == [B(m), E(m)];
    assert [B(m)] + render[m] + [E(m)] + [] == [B(m)] + render[m] + [E(m)];
  }

  lemma RegroupPadded(k: Token, pad: Text, o: Token, before: Text, e: Token, after: Text, c: Token)
    ensures [k] + (pad + ([o] + (before + [e] + after) + [c])) == [k] + (pad + ([o] + before)) + [e] + (after + [c])
  {
  }

  lemma OtherEndChanges(m: Name, k: Name, render: Renderers)
    requires m in render && k in render && k != m
    requires FirstEnd(render[m], k).Some? && FirstEnd(render[k], k) == None
    ensures exists ts :: Changes(ts, render)
  {
    var before, e, after := CutAtFirstEnd(render[m], k);
    var wrong := |render[k]| != 1 + |before|;
    var ts := OpenThenBlock(k, wrong, m);
    OpenThenBlockOnce(k, wrong, m, render);
    RegroupPadded(B(k), Padding(wrong), B(m), before, e, after, E(m));
    PaddingStays(wrong, [B(m)] + before, k, render);
    NoEndInPair(m, k);
    FirstEndSkips([B(m)], before, k);
    BlockDiffers(B(k), Padding(wrong) + ([B(m)] + before), e, after + [E(m)], render);
    assert Changes(ts, render);
  }

  // ---- A body that leaves another BEGIN open after an END of an unknown block -----------------------------------

  /** `ts` is read up to `t`, and what is before it stays as it is. */
  ghost predicate StaysUpTo(ts: Text, tail: Text, before: Text, t: Token, after: Text, render: Renderers) {
    ts == before + [t] + after && Rewrite(ts + tail, render) == before + Rewrite([t] + (after + tail), render)
  }

  lemma BlockOnSplit<T>(head: seq<T>, before: seq<T>, t: T, after: seq<T>)
    ensures head + (before + [t] + after) == head + before + [t] + after
  {
  }

  lemma BlockOnPair<T>(head: seq<T>, before: seq<T>, rest: seq<T>)
    ensures head + (before + rest) == head + before + rest
  {
  }

  lemma StaysPastBlock(o: Token, body: Text, e: Token, rest: Text, tail: Text,
                       before: Text, t: Token, after: Text, render: Renderers)
    requires o.Begin? && o.name !in render && e.End? && e.name == o.name && FirstEnd(body, o.name) == None
    requires StaysUpTo(rest, tail, before, t, after, render)
    ensures StaysUpTo([o] + body + [e] + rest, tail, [o] + body + [e] + before, t, after, render)
  {
    var head := [o] + body + [e];
    RewriteBlock(o, body, e, rest + tail, render);
    BlockOnPair(head, rest, tail);
    BlockOnSplit(head, before, t, after);
    BlockOnPair(head, before, Rewrite([t] + (after + tail), render));
  }

  lemma StaysPastToken(o: Token, rest: Text, tail: Text, before: Text, t: Token, after: Text, render: Renderers)
    requires o.Begin? ==> FirstEnd(rest + tail, o.name) == None
    requires StaysUpTo(rest, tail, before, t, after, render)
    ensures StaysUpTo([o] + rest, tail, [o] + before, t, after, render)
  {
    RewriteOutside(o, rest + tail, render);
    BlockOnPair([o], rest, tail);
    BlockOnSplit([o], before, t, after);
    BlockOnPair([o], before, Rewrite([t] + (after + tail), render));
  }

  lemma StaysUpToFirst(t: Token, after: Text, tail: Text, render: Renderers)
    ensures StaysUpTo([t] + after, tail, [], t, after, render)
  {
    assert [t] + after + tail == [t] + (after + tail) && [] + [t] + after == [t] + after;
    assert [] + Rewrite([t] + (after + tail), render) == Rewrite([t] + (after + tail), render);
  }

  /** The text before a BEGIN left open that is not of `k` stays as it is, if what follows
      has no END of `k`. */
  lemma {:induction false} UpToOpenBegin(ts: Text, k: Name, tail: Text, render: Renderers)
    returns (before: Text, t: Token, after: Text)
    requires OpenBegin(ts, k).Some? && NoKnownEnds(ts, render) && k !in render && FirstEnd(tail, k) == None
    ensures StaysUpTo(ts, tail, before, t, after, render) && |before| == OpenBegin(ts, k).value
    ensures t.Begin? && t.name != k && FirstEnd(after, t.name) == None
    decreases |ts|
  {
    var first, more := ts[0], ts[1..];
    assert ts == [first] + more;
    NoKnownEndsInSuffix(ts, 1, render);
    if first.Begin? && FirstEnd(more, first.name).Some? {
      var body, e, rest := CutAtFirstEnd(more, first.name);
      NoKnownEndsInSuffix(more, |body| + 1, render);
      assert ts[|body| + 2..] == rest;
      Reassociate(first, body, e, rest);
      BlockOnPair(body, [e], rest);
      before, t, after := UpToOpenBegin(rest, k, tail, render);
      StaysPastBlock(first, body, e, rest, tail, before, t, after, render);
      before := [first] + body + [e] + before;
    } else if first.Begin? && first.name != k {
      before, t, after := [], first, more;
      StaysUpToFirst(t, after, tail, render);
    } else {
      before, t, after := UpToOpenBegin(more, k, tail, render);
      FirstEndSkips(more, tail, k);
      StaysPastToken(first, more, tail, before, t, after, render);
      before := [first] + before;
    }
  }

  /** No rendered body has an END of a known block. */
  ghost predicate NoneKnown(render: Renderers) {
    forall q | q in render :: NoKnownEnds(render[q], render)
  }

  /** An unknown block that hides an END of `u` and an empty block of `m`. */
  function Hideout(x: Name, u: Name, m: Name): Text {
    [B(x)] + [E(u), B(m), E(m)] + [E(x)]
  }

  lemma NoEndInHideout(x: Name, u: Name, m: Name, k: Name)
    requires k != x && k != u && k != m
    ensures FirstEnd(Hideout(x, u, m), k) == None
  {
    var a: Text, b: Text := [E(u), B(m), E(m)], [E(x)];
    assert a[1..] == [B(m), E(m)] && b[1..] == [] && [B(x)][1..] == [];
    NoEndInPair(m, k);
    FirstEndSkips([B(x)], a, k);
    FirstEndSkips([B(x)] + a, b, k);
  }

  lemma HideoutStays(x: Name, u: Name, m: Name, render: Renderers)
    requires x !in render && m in render && x != u
    ensures Rewrite(Hideout(x, u, m), render) == Hideout(x, u, m)
  {
    var a: Text := [E(u), B(m), E(m)];
    assert a[1..] == [B(m), E(m)];
    NoEndInPair(m, x);
    RewriteBlock(B(x), a, E(x), [], render);
    assert [B(x)] + a + [E(x)] + [] == Hideout(x, u, m);
  }

  lemma RewriteEmptyThenEnd(m: Name, x: Name, render: Renderers)
    requires m in render
    ensures Rewrite([B(m), E(m)] + [E(x)], render) == [B(m)] + render[m] + [E(m)] + [E(x)]
  {
    RewriteEmptyBlock(m, [E(x)], render);
    RewriteOutside(E(x), [], render);
    assert [E(x)] + [] == [E(x)];
  }

  /** The open BEGIN reaches the END in the hideout, or the END of the block it came from. */
  lemma OpenBeginChanges(t: Token, after: Text, m: Name, x: Name, render: Renderers)
    requires t.Begin? && FirstEnd(after, t.name) == None
    requires m in render && x !in render && x != t.name
    requires |after| < |render[m]| && (t.name in render ==> FirstEnd(render[t.name], t.name) == None)
    ensures var rest := after + ([E(m)] + Hideout(x, t.name, m));
            Rewrite([t] + rest, render) != [t] + rest
  {
    var u := t.name;
    if u == m {
      Reassociate(t, after, E(m), Hideout(x, u, m));
      BlockDiffers(t, after, E(m), Hideout(x, u, m), render);
    } else {
      var body, end := after + [E(m), B(x)], [B(m), E(m)] + [E(x)];
      EndsBefore(after, m, x, u);
      RegroupHideout(t, after, m, x, u);
      if u in render && |body| != |render[u]| {
        BlockDiffers(t, body, E(u), end, render);
      } else {
        RewriteEmptyThenEnd(m, x, render);
        RestGrows(t, body, E(u), end, render);
      }
    }
  }

  lemma RegroupHideout(t: Token, after: Text, m: Name, x: Name, u: Name)
    ensures [t] + (after + ([E(m)] + Hideout(x, u, m)))
         == [t] + (after + [E(m), B(x)]) + [E(u)] + ([B(m), E(m)] + [E(x)])
  {
    assert Hideout(x, u, m) == [B(x)] + [E(u)] + [B(m), E(m)] + [E(x)];
  }

  lemma EndsBefore(after: Text, m: Name, x: Name, u: Name)
    requires FirstEnd(after, u) == None && u != m
    ensures FirstEnd(after + [E(m), B(x)], u) == None
  {
    FirstEndSkips(after, [E(m), B(x)], u);
    assert [E(m), B(x)][1..] == [B(x)] && [B(x)][1..] == [];
  }

  /** A BEGIN of an unknown `k` that nothing closes, the block whose body has an END of `k`,
      and a hideout for what that body leaves open. */
  function OpenThenHideout(k: Name, m: Name, x: Name, u: Name): Text {
    [B(k)] + ([B(m), E(m)] + Hideout(x, u, m))
  }

  lemma OpenThenHideoutOnce(k: Name, m: Name, x: Name, u: Name, render: Renderers)
    requires m in render && k !in render && x !in render && x != k && x != u && u != k
    ensures Rewrite(OpenThenHideout(k, m, x, u), render) ==
            [B(k)] + ([B(m)] + render[m] + [E(m)] + Hideout(x, u, m))
  {
    NoEndInHideout(x, u, m, k);
    NoEndInPair(m, k);
    FirstEndSkips([B(m), E(m)], Hideout(x, u, m), k);
    RewriteOutside(B(k), [B(m), E(m)] + Hideout(x, u, m), render);
    RewriteEmptyBlock(m, Hideout(x, u, m), render);
    HideoutStays(x, u, m, render);
  }

  lemma NoEndInTail(m: Name, x: Name, u: Name, k: Name)
    requires k != x && k != u && k != m
    ensures FirstEnd([E(m)] + Hideout(x, u, m), k) == None
  {
    NoEndInHideout(x, u, m, k);
    assert [E(m)][1..] == [];
    FirstEndSkips([E(m)], Hideout(x, u, m), k);
  }

  lemma PostChanges(post: Text, k: Name, m: Name, x: Name, render: Renderers)
    requires m in render && k !in render && x !in render && x != k
    requires NoneKnown(render)
    requires NoKnownEnds(post, render) && |post| <= |render[m]|
    requires OpenBegin(post, k).Some? && x != OpenName(post, k)
    ensures var tail := [E(m)] + Hideout(x, OpenName(post, k), m);
            Rewrite(post + tail, render) != post + tail
  {
    var u := OpenName(post, k);
    var tail := [E(m)] + Hideout(x, u, m);
    OpenBeginIsOther(post, k);
    NoEndInTail(m, x, u, k);
    var kept, t, after := UpToOpenBegin(post, k, tail, render);
    OpenBeginChanges(t, after, m, x, render);
    PrefixedDiffer(kept, Rewrite([t] + (after + tail), render), [t] + (after + tail));
    RegroupOpen(kept, t, after, tail);
  }

  lemma RegroupOpen(kept: Text, t: Token, after: Text, tail: Text)
    ensures kept + [t] + after + tail == kept + ([t] + (after + tail))
  {
  }

  lemma LeftOpenChanges(m: Name, k: Name, x: Name, render: Renderers)
    requires m in render && k !in render && x !in render && x != k
    requires NoneKnown(render)
    requires FirstEnd(render[m], k).Some?
    requires var post := render[m][FirstEnd(render[m], k).value + 1..];
             OpenBegin(post, k).Some? && x != OpenName(post, k)
    ensures exists ts :: Changes(ts, render)
  {
    var before, e, post := CutAtFirstEnd(render[m], k);
    var u := OpenName(post, k);
    NoKnownEndsInSuffix(render[m], |before| + 1, render);
    PostChanges(post, k, m, x, render);
    OpenBeginIsOther(post, k);
    OpenThenHideoutOnce(k, m, x, u, render);
    AfterTheOpening(k, m, before, e, post, Hideout(x, u, m), render);
    assert Changes(OpenThenHideout(k, m, x, u), render);
  }

  /** The second rewriting skips from the BEGIN of `k` to its END in the body. */
  lemma AfterTheOpening(k: Name, m: Name, before: Text, e: Token, post: Text, rest: Text, render: Renderers)
    requires m in render && k !in render && k != m && CutAt(render[m], k, before, e, post)
    requires Rewrite(post + ([E(m)] + rest), render) != post + ([E(m)] + rest)
    ensures var once := [B(k)] + ([B(m)] + render[m] + [E(m)] + rest);
            Rewrite(once, render) != once
  {
    var once := [B(k)] + ([B(m)] + render[m] + [E(m)] + rest);
    var body, tail := [B(m)] + before, post + ([E(m)] + rest);
    NoEndInPair(m, k);
    FirstEndSkips([B(m)], before, k);
    assert once == [B(k)] + body + [e] + tail;
    RewriteBlock(B(k), body, e, tail, render);
    assert Rewrite(once, render)[|body| + 2..] == Rewrite(tail, render);
    assert once[|body| + 2..] == tail;
  }

  // ---- There is always another unknown name ------------------------------------------------------------------------

  lemma LongerThanAll(names: set<Name>) returns (n: nat)
    ensures forall s | s in names :: |s| < n
    decreases |names|
  {
    if names == {} {
      n := 0;
    } else {
      var s :| s in names;
      var m := LongerThanAll(names - {s});
      n := if |s| < m then m else |s| + 1;
    }
  }

  lemma FreshName(render: Renderers, k: Name, u: Name) returns (x: Name)
    ensures x !in render && x != k && x != u
  {
    var n := LongerThanAll(render.Keys + {k, u});
    x := seq(n, _ => 'a');
    assert x !in render.Keys + {k, u};
  }

  // ---- The condition is exact ----------------------------------------------------------------------------

  lemma KnownEndChanges(m: Name, k: Name, render: Renderers)
    requires m in render && k in render && FirstEnd(render[m], k).Some?
    ensures exists ts :: Changes(ts, render)
  {
    if FirstEnd(render[k], k).Some? {
      OwnEndChanges(k, render);
    } else {
      OtherEndChanges(m, k, render);
    }
  }

  lemma LeftOpenBeginChanges(m: Name, k: Name, post: Text, render: Renderers)
    requires NoneKnown(render)
    requires m in render && FirstEnd(render[m], k).Some? && post == render[m][FirstEnd(render[m], k).value + 1..]
    requires OpenBegin(post, k).Some?
    ensures exists ts :: Changes(ts, render)
  {
    var x := FreshName(render, k, OpenName(post, k));
    LeftOpenChanges(m, k, x, render);
  }

  lemma SettledApartFrom(render: Renderers) returns (m: Name, k: Name)
    requires !Settled(render) && NoneKnown(render)
    ensures m in render && FirstEnd(render[m], k).Some?
    ensures OpenBegin(render[m][FirstEnd(render[m], k).value + 1..], k).Some?
  {
    m :| m in render && !SettledBody(render[m], render);
    assert NoKnownEnds(render[m], render);
    k :| FirstEnd(render[m], k).Some? && OpenBegin(render[m][FirstEnd(render[m], k).value + 1..], k) != None;
  }

  lemma UnsettledChanges(render: Renderers)
    requires !Settled(render)
    ensures exists ts :: Changes(ts, render)
  {
    if NoneKnown(render) {
      var m, k := SettledApartFrom(render);
      LeftOpenBeginChanges(m, k, render[m][FirstEnd(render[m], k).value + 1..], render);
    } else {
      var m :| m in render && !NoKnownEnds(render[m], render);
      var k :| k in render && FirstEnd(render[m], k).Some?;
      KnownEndChanges(m, k, render);
    }
  }

  /** Main result: rewriting is idempotent on every text if and only if the renderers are settled. */
  lemma IdempotentExactlyWhenSettled(render: Renderers)
    ensures (forall ts :: Rewrite(Rewrite(ts, render), render) == Rewrite(ts, render)) <==> Settled(render)
  {
    if Settled(render) {
      forall ts
        ensures Rewrite(Rewrite(ts, render), render) == Rewrite(ts, render)
      {
        RewriteIsIdempotent(ts, render);
      }
    } else {
      UnsettledChanges(render);
      var ts :| Changes(ts, render);
      assert Rewrite(Rewrite(ts, render), render) != Rewrite(ts, render);
    }
  }
}
