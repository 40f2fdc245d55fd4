/** `DeviceModel`: the sorted, deduplicated device list and its diff-driven refresh. */
module DeviceModel {
  import opened Lex
  import opened Seqs

  type HidKey = (int, int)

  /** One registered (vid, pid); rows are told apart by `codename`. */
  datatype Descriptor = Descriptor(codename: string, family: int, vid: int, pid: int, model: string)

  function KeyOf(d: Descriptor): HidKey {
    (d.vid, d.pid)
  }

  /** What the model holds between refreshes. */
  datatype State = State(
    rows: seq<Descriptor>,
    keys: map<string, set<HidKey>>,
    connected: set<HidKey>)

  const EMPTY := State([], map[], {})

  datatype Signal = ModelReset | DataChanged(row: nat)

  // ---- Building the rows --------------------------------------------------------------

  function AddKey(m: map<string, set<HidKey>>, d: Descriptor): map<string, set<HidKey>> {
    m[d.codename := (if d.codename in m then m[d.codename] else {}) + {KeyOf(d)}]
  }

  /** Codename to the keys of all its rebadges. */
  function Group(all: seq<Descriptor>): map<string, set<HidKey>> {
    if all == [] then map[] else AddKey(Group(all[..|all| - 1]), all[|all| - 1])
  }

  /** The first descriptor registered under each codename. */
  function Collapse(all: seq<Descriptor>): seq<Descriptor> {
    if all == [] then []
    else
      var kept := Collapse(all[..|all| - 1]);
      var d := all[|all| - 1];
      if exists e | e in kept :: e.codename == d.codename then kept else kept + [d]
  }

  /** Lexicographic order by (family, codename). */
  predicate RowBefore(a: Descriptor, b: Descriptor) {
    a.family < b.family || (a.family == b.family && Before(a.codename, b.codename))
  }

  function InsertRow(d: Descriptor, rows: seq<Descriptor>): (r: seq<Descriptor>)
    ensures forall x :: x in r <==> x == d || x in rows
  {
    if rows == [] then [d]
    else if RowBefore(d, rows[0]) then [d] + rows
    else
      assert rows == [rows[0]] + rows[1..];
      [rows[0]] + InsertRow(d, rows[1..])
  }

  /** `std::sort`; which algorithm does not matter (`SortedRowsAreUnique`). */
  function SortRows(rows: seq<Descriptor>): (r: seq<Descriptor>)
    ensures forall x :: x in r <==> x in rows
  {
    if rows == [] then []
    else
      assert rows == [rows[0]] + rows[1..];
      InsertRow(rows[0], SortRows(rows[1..]))
  }

  /** The row layout a registry gives. */
  function Layout(all: seq<Descriptor>): seq<Descriptor> {
    SortRows(Collapse(all))
  }

  predicate SameCodenames(a: seq<Descriptor>, b: seq<Descriptor>) {
    |a| == |b| && forall i | 0 <= i < |a| :: a[i].codename == b[i].codename
  }

  // ---- Connected state ---------------------------------------------------------------

  /** The OR over a codename's rebadge keys, as `refresh` computes it. */
  predicate Online(s: State, codename: string) {
    codename in s.keys && s.keys[codename] * s.connected != {}
  }

  /** `data(row, ConnectedRole)`. */
  predicate Data(s: State, row: nat)
    requires row < |s.rows|
  {
    var d := s.rows[row];
    if d.codename !in s.keys then KeyOf(d) in s.connected else s.keys[d.codename] * s.connected != {}
  }

  function OnlineRows(s: State): (r: seq<bool>)
    ensures |r| == |s.rows|
  {
    seq(|s.rows|, i requires 0 <= i < |s.rows| => Online(s, s.rows[i].codename))
  }

  function FlipAt(before: seq<bool>, after: seq<bool>, row: nat): seq<Signal>
    requires |before| == |after| && row < |after|
  {
    if after[row] != before[row] then [DataChanged(row)] else []
  }

  /** The rows whose value flipped, among the first `n`. */
  function Flips(before: seq<bool>, after: seq<bool>, n: nat): seq<Signal>
    requires |before| == |after| && n <= |after|
  {
    if n == 0 then [] else Flips(before, after, n - 1) + FlipAt(before, after, n - 1)
  }

  /** `refresh()`, given what the registry and the HID bus answer. */
  function Refreshed(s: State, all: seq<Descriptor>, live: set<HidKey>): (State, seq<Signal>) {
    var s' := State(Layout(all), Group(all), live);
    (s', if SameCodenames(s'.rows, s.rows) then Flips(OnlineRows(s), OnlineRows(s'), |s.rows|) else [ModelReset])
  }

  // ---- The class -----------------------------------------------------------------------

  class DeviceModel {
    var m_rows: seq<Descriptor>
    var m_codenameKeys: map<string, set<HidKey>>
    var m_connected: set<HidKey>

    ghost function Abs(): State
      reads this
    {
      State(m_rows, m_codenameKeys, m_connected)
    }

    constructor ()
      ensures Abs() == EMPTY
    {
      m_rows, m_codenameKeys, m_connected := [], map[], {};
    }

    /** Step 1 of `refresh`: codename to rebadge keys. */
    static method BuildKeys(all: seq<Descriptor>) returns (nextKeys: map<string, set<HidKey>>)
      ensures nextKeys == Group(all)
    {
      nextKeys := map[];
      for i := 0 to |all|
        invariant nextKeys == Group(all[..i])
      {
        assert all[..i + 1][..i] == all[..i];
        nextKeys := AddKey(nextKeys, all[i]);
      }
      assert all[..|all|] == all;
    }

    /** Step 2: one descriptor per codename, the first. */
    static method CollapseByCodename(all: seq<Descriptor>) returns (collapsed: seq<Descriptor>)
      ensures collapsed == Collapse(all)
    {
      collapsed := [];
      var seen: set<string> := {};
      for i := 0 to |all|
        invariant collapsed == Collapse(all[..i])
        invariant seen == set d | d in collapsed :: d.codename
      {
        assert all[..i + 1][..i] == all[..i];
        if all[i].codename !in seen {
          seen := seen + {all[i].codename};
          collapsed := collapsed + [all[i]];
        }
      }
      assert all[..|all|] == all;
    }

    /** The connected state of each row, as steps 4 and 6 compute it. */
    method ConnectedRows() returns (online: seq<bool>)
      ensures online == OnlineRows(Abs())
    {
      online := [];
      for i := 0 to |m_rows|
        invariant online == OnlineRows(Abs())[..i]
      {
        var codename := m_rows[i].codename;
        online := online + [codename in m_codenameKeys && m_codenameKeys[codename] * m_connected != {}];
      }
    }

    /** Step 6: one signal for each row that flipped. */
    static method SignalFlips(before: seq<bool>, after: seq<bool>) returns (signals: seq<Signal>)
      requires |before| == |after|
      ensures signals == Flips(before, after, |after|)
    {
      signals := [];
      for row := 0 to |after|
        invariant signals == Flips(before, after, row)
      {
        if after[row] != before[row] {
          signals := signals + [DataChanged(row)];
        }
      }
    }

    /** Step 5: whether the new layout has the old one's codenames, in order. */
    method LayoutUnchanged(collapsed: seq<Descriptor>) returns (same: bool)
      ensures same == SameCodenames(collapsed, m_rows)
    {
      if |collapsed| != |m_rows| {
        return false;
      }
      for i := 0 to |collapsed|
        invariant forall j | 0 <= j < i :: collapsed[j].codename == m_rows[j].codename
      {
        if collapsed[i].codename != m_rows[i].codename {
          return false;
        }
      }
      return true;
    }

    method Refresh(all: seq<Descriptor>, live: set<HidKey>) returns (signals: seq<Signal>)
      modifies this
      ensures (Abs(), signals) == Refreshed(old(Abs()), all, live)
    {
      var nextKeys := BuildKeys(all);
      var collapsed := CollapseByCodename(all);
      collapsed := SortRows(collapsed);
      var connectedThen := ConnectedRows();
      var same := LayoutUnchanged(collapsed);
      m_rows := collapsed;
      m_codenameKeys := nextKeys;
      m_connected := live;
      if !same {
        return [ModelReset];
      }
      var connectedNow := ConnectedRows();
      signals := SignalFlips(connectedThen, connectedNow);
    }

    /** `connectedCodenames()`. */
    method ConnectedCodenames() returns (out: seq<string>)
      ensures out == OnlineCodenames(Abs(), |m_rows|)
    {
      out := [];
      for i := 0 to |m_rows|
        invariant out == OnlineCodenames(Abs(), i)
      {
        var codename := m_rows[i].codename;
        if codename in m_codenameKeys && m_codenameKeys[codename] * m_connected != {} {
          out := out + [codename];
        }
      }
    }
  }

  /** The codenames of the first `n` rows that are online, in row order. */
  function OnlineCodenames(s: State, n: nat): seq<string>
    requires n <= |s.rows|
  {
    if n == 0 then []
    else OnlineCodenames(s, n - 1)
         + if Online(s, s.rows[n - 1].codename) then [s.rows[n - 1].codename] else []
  }

  /** `connectedCodenames` lists exactly the rows whose `ConnectedRole` is true. */
  lemma {:induction false} OnlineCodenamesAreConnectedRows(s: State, n: nat, codename: string)
    requires n <= |s.rows| && Grouped(s)
    ensures codename in OnlineCodenames(s, n) <==>
              exists row | 0 <= row < n :: s.rows[row].codename == codename && Data(s, row)
  {
    if n > 0 {
      OnlineCodenamesAreConnectedRows(s, n - 1, codename);
      assert s.rows[n - 1] in s.rows;
    }
  }

  // ---- Rows ----------------------------------------------------------------------------

  predicate RowsSorted(rows: seq<Descriptor>) {
    rows == [] || ((forall r | r in rows[1..] :: RowBefore(rows[0], r)) && RowsSorted(rows[1..]))
  }

  lemma RowBeforeIsStrictOrder(a: Descriptor, b: Descriptor, c: Descriptor)
    ensures !RowBefore(a, a)
    ensures RowBefore(a, b) && RowBefore(b, c) ==> RowBefore(a, c)
    ensures a.codename != b.codename ==> RowBefore(a, b) || RowBefore(b, a)
    ensures !(RowBefore(a, b) && RowBefore(b, a))
  {
    BeforeIsStrictTotalOrder(a.codename, b.codename, c.codename);
  }

  lemma {:induction false} InsertRowSorted(d: Descriptor, rows: seq<Descriptor>)
    requires RowsSorted(rows) && forall r | r in rows :: r.codename != d.codename
    ensures RowsSorted(InsertRow(d, rows))
  {
    if rows != [] {
      RowBeforeIsStrictOrder(d, rows[0], d);
      if RowBefore(d, rows[0]) {
        assert InsertRow(d, rows)[1..] == rows;
        forall r | r in rows
          ensures RowBefore(d, r)
        {
          assert r == rows[0] || r in rows[1..];
          RowBeforeIsStrictOrder(d, rows[0], r);
        }
      } else {
        InsertRowSorted(d, rows[1..]);
        assert InsertRow(d, rows)[1..] == InsertRow(d, rows[1..]);
      }
    }
  }

  predicate DistinctCodenames(rows: seq<Descriptor>) {
    rows == [] || ((forall r | r in rows[1..] :: r.codename != rows[0].codename) && DistinctCodenames(rows[1..]))
  }

  lemma {:induction false} SortRowsSorted(rows: seq<Descriptor>)
    requires DistinctCodenames(rows)
    ensures RowsSorted(SortRows(rows))
  {
    if rows != [] {
      SortRowsSorted(rows[1..]);
      InsertRowSorted(rows[0], SortRows(rows[1..]));
    }
  }

  lemma {:induction false} AppendDistinct(rows: seq<Descriptor>, d: Descriptor)
    requires DistinctCodenames(rows) && forall r | r in rows :: r.codename != d.codename
    ensures DistinctCodenames(rows + [d])
  {
    if rows != [] {
      AppendDistinct(rows[1..], d);
      assert (rows + [d])[1..] == rows[1..] + [d];
    } else {
      assert (rows + [d])[1..] == [];
    }
  }

  /** `d` is the first descriptor registered under its codename. */
  ghost predicate IsFirst(all: seq<Descriptor>, d: Descriptor) {
    exists i | 0 <= i < |all| ::
      all[i] == d && forall j | 0 <= j < i :: all[j].codename != d.codename
  }

  lemma {:induction false} CollapseKeepsFirsts(all: seq<Descriptor>)
    ensures DistinctCodenames(Collapse(all))
    ensures forall d :: d in Collapse(all) <==> IsFirst(all, d)
    ensures forall d | d in all :: exists e | e in Collapse(all) :: e.codename == d.codename
  {
    if all != [] {
      var front, last := all[..|all| - 1], all[|all| - 1];
      CollapseKeepsFirsts(front);
      var kept := Collapse(front);
      FirstsAfterAppend(all);
      if !exists e | e in kept :: e.codename == last.codename {
        AppendDistinct(kept, last);
      }
      forall d | d in all
        ensures exists e | e in Collapse(all) :: e.codename == d.codename
      {
        assert d == last || d in front;
      }
    }
  }

  lemma FirstsAfterAppend(all: seq<Descriptor>)
    requires all != []
    ensures var front, last := all[..|all| - 1], all[|all| - 1];
            forall d :: IsFirst(all, d) <==>
              IsFirst(front, d) || (d == last && forall e | e in front :: e.codename != last.codename)
  {
    var front, last := all[..|all| - 1], all[|all| - 1];
    assert all == front + [last];
    forall d
      ensures IsFirst(all, d) <==>
                IsFirst(front, d) || (d == last && forall e | e in front :: e.codename != last.codename)
    {
      FirstOfPush(front, last, d);
    }
  }

  lemma FirstOfPush(front: seq<Descriptor>, last: Descriptor, d: Descriptor)
    ensures IsFirst(front + [last], d) <==>
            IsFirst(front, d) || (d == last && forall e | e in front :: e.codename != last.codename)
  {
    if IsFirst(front, d) {
      FirstStaysFirst(front, d, [last]);
    } else if d == last && forall e | e in front :: e.codename != last.codename {
      LastIsFirst(front, last);
    } else if IsFirst(front + [last], d) {
      FirstInPush(front, last, d);
    }
  }

  /** The first of its codename stays the first, whatever is registered after it. */
  lemma FirstStaysFirst(all: seq<Descriptor>, d: Descriptor, more: seq<Descriptor>)
    requires IsFirst(all, d)
    ensures IsFirst(all + more, d)
  {
    var i :| 0 <= i < |all| && all[i] == d && forall j | 0 <= j < i :: all[j].codename != d.codename;
    assert (all + more)[i] == d && forall j | 0 <= j < i :: (all + more)[j] == all[j];
  }

  lemma LastIsFirst(front: seq<Descriptor>, last: Descriptor)
    requires forall e | e in front :: e.codename != last.codename
    ensures IsFirst(front + [last], last)
  {
    var all := front + [last];
    assert all[|front|] == last && forall j | 0 <= j < |front| :: all[j] == front[j] && front[j] in front;
  }

  lemma FirstInPush(front: seq<Descriptor>, last: Descriptor, d: Descriptor)
    requires IsFirst(front + [last], d)
    ensures IsFirst(front, d) || (d == last && forall e | e in front :: e.codename != last.codename)
  {
    var all := front + [last];
    var i :| 0 <= i < |all| && all[i] == d && forall j | 0 <= j < i :: all[j].codename != d.codename;
    if i < |front| {
      assert front[i] == d && forall j | 0 <= j < i :: front[j] == all[j];
    } else {
      forall e | e in front
        ensures e.codename != last.codename
      {
        var j :| 0 <= j < |front| && front[j] == e;
        assert all[j] == e;
      }
    }
  }

  /** Main result: the rows are strictly sorted by (family, codename) and are exactly
      the first descriptors registered under each codename. */
  lemma LayoutIsSortedFirsts(all: seq<Descriptor>)
    ensures RowsSorted(Layout(all))
    ensures forall d :: d in Layout(all) <==> IsFirst(all, d)
    ensures forall d | d in all :: exists r | r in Layout(all) :: r.codename == d.codename
  {
    CollapseKeepsFirsts(all);
    SortRowsSorted(Collapse(all));
  }

  /** A sorted arrangement of given rows is the only one: any sort gives the layout. */
  lemma {:induction false} SortedRowsAreUnique(a: seq<Descriptor>, b: seq<Descriptor>)
    requires RowsSorted(a) && RowsSorted(b) && forall r :: r in a <==> r in b
    ensures a == b
  {
    if a == [] {
      assert forall i | 0 <= i < |b| :: b[i] in b;
    } else {
      assert a[0] in b;
      assert b[0] in a;
      RowBeforeIsStrictOrder(a[0], b[0], a[0]);
      assert a[0] == b[0];
      forall r
        ensures r in a[1..] <==> r in b[1..]
      {
        RowBeforeIsStrictOrder(a[0], a[0], r);
        assert r in a <==> r == a[0] || r in a[1..];
        assert r in b <==> r == b[0] || r in b[1..];
      }
      SortedRowsAreUnique(a[1..], b[1..]);
      assert a == [a[0]] + a[1..] && b == [b[0]] + b[1..];
    }
  }

  /** Said row by row: families ascend, and codenames within a family. */
  lemma RowsAscend(all: seq<Descriptor>, i: nat, j: nat)
    requires i < j < |Layout(all)|
    ensures var a, b := Layout(all)[i], Layout(all)[j];
            a.family < b.family || (a.family == b.family && Before(a.codename, b.codename))
  {
    LayoutIsSortedFirsts(all);
    LaterRowsAreAfter(Layout(all), i, j);
  }

  lemma {:induction false} LaterRowsAreAfter(rows: seq<Descriptor>, i: nat, j: nat)
    requires RowsSorted(rows) && i < j < |rows|
    ensures RowBefore(rows[i], rows[j])
  {
    if i > 0 {
      LaterRowsAreAfter(rows[1..], i - 1, j - 1);
    } else {
      assert rows[1..][j - 1] in rows[1..];
    }
  }

  // ---- Rebadge groups ----------------------------------------------------------------------

  /** The keys of a codename are those of all descriptors registered under it. */
  lemma {:induction false} GroupCollectsRebadges(all: seq<Descriptor>, codename: string)
    ensures codename in Group(all) <==> exists d | d in all :: d.codename == codename
    ensures codename in Group(all) ==>
              Group(all)[codename] == set d | d in all && d.codename == codename :: (d.vid, d.pid)
  {
    if all != [] {
      var front, last := all[..|all| - 1], all[|all| - 1];
      GroupCollectsRebadges(front, codename);
      assert forall d :: d in all <==> d in front || d == last;
    }
  }

  /** The single-key fallback of `data(ConnectedRole)` is never reached: after a
      refresh every row has a rebadge group, and is connected if and only if some
      descriptor of its codename is live. */
  lemma ConnectedIsAnyRebadge(s: State, all: seq<Descriptor>, live: set<HidKey>, row: nat)
    requires row < |Layout(all)|
    ensures var s' := Refreshed(s, all, live).0;
            && s'.rows[row].codename in s'.keys
            && (Data(s', row) <==> exists d | d in all :: d.codename == s'.rows[row].codename && (d.vid, d.pid) in live)
  {
    var s' := Refreshed(s, all, live).0;
    var codename := s'.rows[row].codename;
    LayoutIsSortedFirsts(all);
    assert s'.rows[row] in Layout(all);
    GroupCollectsRebadges(all, codename);
    if Data(s', row) {
      var k :| k in s'.keys[codename] * live;
      var d :| d in all && d.codename == codename && KeyOf(d) == k;
    }
    if d :| d in all && d.codename == codename && KeyOf(d) in live {
      assert KeyOf(d) in s'.keys[codename] * live;
    }
  }

  // ---- The signals ---------------------------------------------------------------------------

  lemma FlipAtOwnRow(before: seq<bool>, after: seq<bool>, at: nat, row: nat)
    requires |before| == |after| && at < |after|
    ensures DataChanged(row) in FlipAt(before, after, at) <==> row == at && after[row] != before[row]
  {
  }

  lemma InEither<T>(a: seq<T>, b: seq<T>, x: T)
    ensures x in a + b <==> x in a || x in b
  {
  }

  lemma {:induction false} FlipsAreTheFlippedRows(before: seq<bool>, after: seq<bool>, n: nat, row: nat)
    requires |before| == |after| && n <= |after|
    ensures DataChanged(row) in Flips(before, after, n) <==> row < n && after[row] != before[row]
  {
    if n > 0 {
      FlipAtOwnRow(before, after, n - 1, row);
      FlipsAreTheFlippedRows(before, after, n - 1, row);
      InEither(Flips(before, after, n - 1), FlipAt(before, after, n - 1), DataChanged(row));
    }
  }

  lemma {:induction false} FlipsNeverReset(before: seq<bool>, after: seq<bool>, n: nat)
    requires |before| == |after| && n <= |after|
    ensures ModelReset !in Flips(before, after, n)
  {
    if n > 0 {
      FlipsNeverReset(before, after, n - 1);
      InEither(Flips(before, after, n - 1), FlipAt(before, after, n - 1), ModelReset);
    }
  }

  /** In the common path a row is signalled if and only if the OR over its rebadge
      keys flipped; a reset is signalled if and only if the codename layout changed. */
  lemma SignalsAreExact(s: State, all: seq<Descriptor>, live: set<HidKey>)
    ensures var (s', signals) := Refreshed(s, all, live);
            && (ModelReset in signals <==> !SameCodenames(s'.rows, s.rows))
            && (SameCodenames(s'.rows, s.rows) ==>
                  forall row: nat | row < |s'.rows| ::
                    DataChanged(row) in signals <==>
                    Online(s', s'.rows[row].codename) != Online(s, s.rows[row].codename))
  {
    var s' := Refreshed(s, all, live).0;
    if SameCodenames(s'.rows, s.rows) {
      forall row: nat | row < |s'.rows|
        ensures DataChanged(row) in Refreshed(s, all, live).1 <==>
                Online(s', s'.rows[row].codename) != Online(s, s.rows[row].codename)
      {
        FlipsAreTheFlippedRows(OnlineRows(s), OnlineRows(s'), |s.rows|, row);
      }
      FlipsNeverReset(OnlineRows(s), OnlineRows(s'), |s.rows|);
    }
  }

  // ---- A view that only listens ---------------------------------------------------------------

  /** The connected values a view shows, one per row. */
  type View = seq<bool>

  /** A view rereads everything on a reset, and one row when told of it. */
  function React(view: View, s: State, signal: Signal): View {
    match signal
    case ModelReset => seq(|s.rows|, row requires 0 <= row < |s.rows| => Data(s, row))
    case DataChanged(row) => if row < |view| && row < |s.rows| then view[row := Data(s, row)] else view
  }

  function ReactAll(view: View, s: State, signals: seq<Signal>): View
    decreases |signals|
  {
    if signals == [] then view
    else
      var n := |signals| - 1;
      React(ReactAll(view, s, signals[..n]), s, signals[n])
  }

  ghost predicate Coherent(view: View, s: State) {
    |view| == |s.rows| && forall row | 0 <= row < |view| :: view[row] == Data(s, row)
  }

  /** Every row has a rebadge group, so `data` and `refresh` compute the same OR. */
  ghost predicate Grouped(s: State) {
    forall r | r in s.rows :: r.codename in s.keys
  }

  lemma RefreshGroups(s: State, all: seq<Descriptor>, live: set<HidKey>)
    ensures Grouped(Refreshed(s, all, live).0)
  {
    LayoutIsSortedFirsts(all);
    forall r | r in Layout(all)
      ensures r.codename in Group(all)
    {
      GroupCollectsRebadges(all, r.codename);
    }
  }

  lemma ReactOneMore(view: View, s: State, signals: seq<Signal>, signal: Signal)
    ensures ReactAll(view, s, signals + [signal]) == React(ReactAll(view, s, signals), s, signal)
  {
    FrontOfPush(signals, signal);
  }

  /** `seen` shows the first `n` rows as they are, and the others as `view` does. */
  ghost predicate CaughtUp(seen: View, view: View, s: State, n: nat) {
    && |seen| == |view| == |s.rows| && n <= |view|
    && (forall row | 0 <= row < n :: seen[row] == Data(s, row))
    && (forall row | n <= row < |view| :: seen[row] == view[row])
  }

  lemma OneMoreCaughtUp(seen: View, view: View, s: State, row: nat)
    requires CaughtUp(seen, view, s, row) && row < |view| && Grouped(s)
    ensures CaughtUp(React(seen, s, DataChanged(row)), view, s, row + 1)
    ensures OnlineRows(s)[row] == view[row] ==> CaughtUp(seen, view, s, row + 1)
  {
    assert s.rows[row] in s.rows;
  }

  /** The signals of the first `n` rows bring those rows up to date. */
  lemma {:induction false} FlipsCatchUp(view: View, after: State, n: nat)
    requires Grouped(after) && |after.rows| == |view| && n <= |view|
    ensures CaughtUp(ReactAll(view, after, Flips(view, OnlineRows(after), n)), view, after, n)
  {
    if n > 0 {
      FlipsCatchUp(view, after, n - 1);
      NextFlipCatchesUp(view, after, Flips(view, OnlineRows(after), n - 1), n - 1);
    }
  }

  lemma NextFlipCatchesUp(view: View, after: State, flips: seq<Signal>, row: nat)
    requires Grouped(after) && |after.rows| == |view| && row < |view|
    requires CaughtUp(ReactAll(view, after, flips), view, after, row)
    ensures CaughtUp(ReactAll(view, after, flips + FlipAt(view, OnlineRows(after), row)), view, after, row + 1)
  {
    OneMoreCaughtUp(ReactAll(view, after, flips), view, after, row);
    if OnlineRows(after)[row] != view[row] {
      ReactOneMore(view, after, flips, DataChanged(row));
    } else {
      EmptyIsUnit(flips);
    }
  }

  lemma RefreshKeepsCoherent(view: View, s: State, all: seq<Descriptor>, live: set<HidKey>)
    requires Coherent(view, s) && Grouped(s)
    ensures var (s', signals) := Refreshed(s, all, live);
            Coherent(ReactAll(view, s', signals), s')
  {
    RefreshGroups(s, all, live);
    var (s', signals) := Refreshed(s, all, live);
    if SameCodenames(s'.rows, s.rows) {
      assert forall row | 0 <= row < |view| :: s.rows[row] in s.rows;
      assert view == OnlineRows(s);
      FlipsCatchUp(view, s', |s.rows|);
    } else {
      ReactOneMore(view, s', [], ModelReset);
      EmptyIsUnit([ModelReset]);
    }
  }

  // ---- Whole runs --------------------------------------------------------------------------------

  /** The environment changes the registry and the bus; only `RefreshNow` touches the model. */
  datatype Step = SetRegistry(all: seq<Descriptor>) | SetLive(live: set<HidKey>) | RefreshNow

  /** `view` shows the connected role of each row, `shown` the whole descriptors, which it
      rereads on a reset alone. */
  datatype World = World(
    all: seq<Descriptor>,
    live: set<HidKey>,
    model: State,
    view: View,
    shown: seq<Descriptor>,
    resets: nat)

  function Init(all: seq<Descriptor>, live: set<HidKey>): World {
    World(all, live, EMPTY, [], [], 0)
  }

  function Apply(w: World, a: Step): World {
    match a
    case SetRegistry(all) => w.(all := all)
    case SetLive(live) => w.(live := live)
    case RefreshNow =>
      var (s', signals) := Refreshed(w.model, w.all, w.live);
      w.(model := s', view := ReactAll(w.view, s', signals),
         shown := if ModelReset in signals then s'.rows else w.shown,
         resets := w.resets + if ModelReset in signals then 1 else 0)
  }

  function Run(w: World, steps: seq<Step>): World
    decreases steps
  {
    if steps == [] then w else Run(Apply(w, steps[0]), steps[1..])
  }

  lemma {:induction false} RunKeepsCoherent(w: World, steps: seq<Step>)
    requires Coherent(w.view, w.model) && Grouped(w.model)
    ensures Coherent(Run(w, steps).view, Run(w, steps).model)
    decreases steps
  {
    if steps != [] {
      if steps[0].RefreshNow? {
        RefreshKeepsCoherent(w.view, w.model, w.all, w.live);
        RefreshGroups(w.model, w.all, w.live);
      }
      RunKeepsCoherent(Apply(w, steps[0]), steps[1..]);
    }
  }

  /** Main result: over any run of registry changes, plug events and refreshes, a view
      that rereads only what the signals name shows every row's `data(ConnectedRole)`. */
  lemma ViewIsAlwaysCoherent(all: seq<Descriptor>, live: set<HidKey>, steps: seq<Step>)
    ensures Coherent(Run(Init(all, live), steps).view, Run(Init(all, live), steps).model)
  {
    RunKeepsCoherent(Init(all, live), steps);
  }

  predicate RegistryFixed(steps: seq<Step>) {
    forall a | a in steps :: !a.SetRegistry?
  }

  lemma {:induction false} LaidOutNeverResets(w: World, steps: seq<Step>)
    requires RegistryFixed(steps) && w.model.rows == Layout(w.all)
    ensures Run(w, steps).resets == w.resets
    decreases steps
  {
    if steps != [] {
      if steps[0].RefreshNow? {
        SignalsAreExact(w.model, w.all, w.live);
      }
      assert RegistryFixed(steps[1..]);
      LaidOutNeverResets(Apply(w, steps[0]), steps[1..]);
    }
  }

  /** With a fixed registry, whatever is plugged and unplugged, only the first refresh
      of a run can reset the model: after any refresh there are no more resets. */
  lemma OnlyFirstRefreshResets(w: World, steps: seq<Step>)
    requires RegistryFixed(steps)
    ensures Run(Apply(w, RefreshNow), steps).resets == Apply(w, RefreshNow).resets
  {
    LaidOutNeverResets(Apply(w, RefreshNow), steps);
  }

  // ---- A registry that only grows -------------------------------------------------------------------

  /** `DeviceRegistry::registerDevice`: a (vid, pid) registered already is skipped. */
  function Register(all: seq<Descriptor>, d: Descriptor): seq<Descriptor> {
    if exists e | e in all :: KeyOf(e) == KeyOf(d) then all else all + [d]
  }

  /** Every change of the registry in the run registers a device; nothing removes one. */
  predicate RegistryGrows(all: seq<Descriptor>, steps: seq<Step>)
    decreases steps
  {
    steps == [] ||
    match steps[0]
    case SetRegistry(next) =>
      (next == all || (next != [] && next == Register(all, next[|next| - 1]))) && RegistryGrows(next, steps[1..])
    case _ => RegistryGrows(all, steps[1..])
  }

  lemma FirstIsUnique(all: seq<Descriptor>, d: Descriptor, e: Descriptor)
    requires IsFirst(all, d) && IsFirst(all, e) && d.codename == e.codename
    ensures d == e
  {
    var i :| 0 <= i < |all| && all[i] == d && forall j | 0 <= j < i :: all[j].codename != d.codename;
    var k :| 0 <= k < |all| && all[k] == e && forall j | 0 <= j < k :: all[j].codename != e.codename;
  }

  /** Registering more devices under the codenames there are changes no field of any row:
      the first descriptor of each codename stays. */
  lemma SameCodenamesSameRows(all: seq<Descriptor>, more: seq<Descriptor>)
    requires SameCodenames(Layout(all + more), Layout(all))
    ensures Layout(all + more) == Layout(all)
  {
    LayoutIsSortedFirsts(all);
    LayoutIsSortedFirsts(all + more);
    forall row | 0 <= row < |Layout(all)|
      ensures Layout(all + more)[row] == Layout(all)[row]
    {
      var d, e := Layout(all)[row], Layout(all + more)[row];
      assert d in Layout(all) && e in Layout(all + more);
      FirstStaysFirst(all, d, more);
      FirstIsUnique(all + more, d, e);
    }
  }

  /** The rows are the layout of the registry as it was at some time. */
  ghost predicate LaidOutOnce(w: World, n: nat) {
    n <= |w.all| && w.model.rows == Layout(w.all[..n])
  }

  lemma RefreshKeepsRows(w: World, n: nat)
    requires LaidOutOnce(w, n) && w.shown == w.model.rows
    ensures var w' := Apply(w, RefreshNow);
            && w'.shown == w'.model.rows && LaidOutOnce(w', |w'.all|)
            && (w'.resets == w.resets ==> w'.model.rows == w.model.rows)
  {
    var signals := Refreshed(w.model, w.all, w.live).1;
    SignalsAreExact(w.model, w.all, w.live);
    assert w.all[..n] + w.all[n..] == w.all && w.all[..|w.all|] == w.all;
    if ModelReset !in signals {
      SameCodenamesSameRows(w.all[..n], w.all[n..]);
    }
  }

  lemma {:induction false} RunKeepsShown(w: World, steps: seq<Step>, n: nat)
    requires RegistryGrows(w.all, steps) && LaidOutOnce(w, n) && w.shown == w.model.rows
    ensures Run(w, steps).shown == Run(w, steps).model.rows
    ensures Run(w, steps).resets >= w.resets
    ensures Run(w, steps).resets == w.resets ==> Run(w, steps).model.rows == w.model.rows
    decreases steps
  {
    if steps != [] {
      match steps[0]
      case SetRegistry(next) =>
        assert next[..n] == w.all[..n];
        RunKeepsShown(Apply(w, steps[0]), steps[1..], n);
      case SetLive(_) => RunKeepsShown(Apply(w, steps[0]), steps[1..], n);
      case RefreshNow =>
        RefreshKeepsRows(w, n);
        RunKeepsShown(Apply(w, RefreshNow), steps[1..], |w.all|);
    }
  }

  /** Main result for the static roles: over any run whose registry only grows, with devices
      plugged and unplugged at will, the rows change at a reset alone, in no field, so a view
      that rereads whole descriptors on resets alone always shows every row as it is. */
  lemma StaticRolesStayCoherent(all: seq<Descriptor>, live: set<HidKey>, steps: seq<Step>, more: seq<Step>)
    requires RegistryGrows(all, steps + more)
    ensures var w, w' := Run(Init(all, live), steps), Run(Init(all, live), steps + more);
            && w.shown == w.model.rows && w'.shown == w'.model.rows
            && (w'.resets == w.resets ==> w'.model.rows == w.model.rows)
  {
    RunOnwards(Init(all, live), steps, more, 0);
  }

  /** Any state of the run will do as a start. */
  lemma {:induction false} RunOnwards(w: World, steps: seq<Step>, more: seq<Step>, n: nat)
    requires RegistryGrows(w.all, steps + more) && LaidOutOnce(w, n) && w.shown == w.model.rows
    ensures Run(w, steps).shown == Run(w, steps).model.rows
    ensures Run(w, steps + more).shown == Run(w, steps + more).model.rows
    ensures Run(w, steps + more).resets == Run(w, steps).resets ==>
              Run(w, steps + more).model.rows == Run(w, steps).model.rows
    decreases steps
  {
    if steps == [] {
      assert steps + more == more;
      RunKeepsShown(w, more, n);
    } else {
      assert (steps + more)[1..] == steps[1..] + more;
      match steps[0]
      case SetRegistry(next) =>
        assert next[..n] == w.all[..n];
        RunOnwards(Apply(w, steps[0]), steps[1..], more, n);
      case SetLive(_) => RunOnwards(Apply(w, steps[0]), steps[1..], more, n);
      case RefreshNow =>
        RefreshKeepsRows(w, n);
        RunOnwards(Apply(w, RefreshNow), steps[1..], more, |w.all|);
    }
  }
}
