/** What the plugin host child has registered and answers after a run, said of the lines it was
    sent and of what its search paths hold. */
module HostChildRuns {
  import opened HostChild
  import opened Seqs
  import opened Wrappers

  // ---- A run and one more line ------------------------------------------------------------------

  /** The events that answer `line` after a run of `lines`. */
  function AnswerTo(stdlib: set<string>, lines: seq<Line>, line: Line): seq<Event> {
    var segments := Segments(Init(stdlib), lines + [line]);
    if segments == [] then [] else segments[|segments| - 1]
  }

  lemma {:induction false} RunPush(s: State, lines: seq<Line>, line: Line)
    requires RunState(s, lines).status.Running? && !line.Blank?
    ensures s.status.Running?
    ensures RunState(s, lines + [line]) == Process(RunState(s, lines), line).0
    ensures Segments(s, lines + [line]) == Segments(s, lines) + [Process(RunState(s, lines), line).1]
    ensures Taken(s, lines + [line]) == Taken(s, lines) + [line]
    decreases lines
  {
    if lines == [] {
      EmptyIsUnit([line]);
      EmptyIsUnit([Process(s, line).1]);
      RunOfOneMore(s, line, []);
      assert RunState(Process(s, line).0, []) == Process(s, line).0;
    } else {
      var first, rest := lines[0], lines[1..];
      var s1 := Process(s, first).0;
      RunPush(s1, rest, line);
      TailOfPush(lines, line);
      ConsOfTail(lines);
      ConsOfTail(lines + [line]);
      RunOfOneMore(s, first, rest);
      RunOfOneMore(s, first, rest + [line]);
      var own := if first.Blank? then [] else [Process(s, first).1];
      Associates(own, Segments(s1, rest), [Process(RunState(s, lines), line).1]);
      Associates(if first.Blank? then [] else [first], Taken(s1, rest), [line]);
    }
  }

  lemma AnswerIsProcessed(stdlib: set<string>, lines: seq<Line>, line: Line)
    requires RunState(Init(stdlib), lines).status.Running? && !line.Blank?
    ensures AnswerTo(stdlib, lines, line) == Process(RunState(Init(stdlib), lines), line).1
  {
    RunPush(Init(stdlib), lines, line);
  }

  // ---- Search paths -------------------------------------------------------------------------------

  /** The paths the ops add: what a non-empty `path` resolves to. */
  function PathsOf(ops: seq<Line>): seq<string> {
    if ops == [] then [] else PathOf(ops[0]) + PathsOf(ops[1..])
  }

  function PathOf(op: Line): seq<string> {
    match op
    case AddSearchPath(Some(path), Some(resolved)) => if path == "" then [] else [resolved]
    case _ => []
  }

  /** `x` is met in `xs` before `y` is. */
  ghost predicate MetBefore(xs: seq<string>, x: string, y: string) {
    exists k | 0 <= k < |xs| :: xs[k] == x && y !in xs[..k]
  }

  /** The distinct elements of `xs`, in the order in which they are first met. */
  ghost predicate FirstOccurrences(r: seq<string>, xs: seq<string>) {
    && (forall x :: x in r <==> x in xs)
    && (forall i, j | 0 <= i < j < |r| :: r[i] != r[j] && MetBefore(xs, r[i], r[j]))
  }

  lemma MetBeforePush(xs: seq<string>, x: string, y: string, last: string)
    requires MetBefore(xs, x, y)
    ensures MetBefore(xs + [last], x, y)
  {
    var k :| 0 <= k < |xs| && xs[k] == x && y !in xs[..k];
    assert (xs + [last])[k] == x && (xs + [last])[..k] == xs[..k];
  }

  lemma NewIsMetLast(xs: seq<string>, x: string, last: string)
    requires x in xs && last !in xs
    ensures MetBefore(xs + [last], x, last)
  {
    var k :| 0 <= k < |xs| && xs[k] == x;
    assert (xs + [last])[k] == x && (xs + [last])[..k] == xs[..k];
  }

  lemma FirstOccurrencesPush(r: seq<string>, xs: seq<string>, x: string)
    requires FirstOccurrences(r, xs)
    ensures FirstOccurrences(if x in r then r else r + [x], xs + [x])
  {
    var next := if x in r then r else r + [x];
    forall i, j | 0 <= i < j < |next|
      ensures next[i] != next[j] && MetBefore(xs + [x], next[i], next[j])
    {
      if j < |r| {
        MetBeforePush(xs, r[i], r[j], x);
      } else {
        assert r[i] in r;
        NewIsMetLast(xs, r[i], x);
      }
    }
  }

  lemma TryLoadKeepsPaths(s: State, root: string, e: DirEntry)
    ensures Visit(s, root, e).0.searchPaths == s.searchPaths && Visit(s, root, e).0.stdlib == s.stdlib
  {
  }

  lemma {:induction false} EntriesKeepPaths(s: State, root: string, entries: seq<DirEntry>, emitted: seq<Event>)
    ensures LoadEntries(s, root, entries, emitted).0.searchPaths == s.searchPaths
    ensures LoadEntries(s, root, entries, emitted).0.stdlib == s.stdlib
    decreases entries
  {
    if entries != [] {
      TryLoadKeepsPaths(s, root, entries[0]);
      var (s1, events) := Visit(s, root, entries[0]);
      EntriesKeepPaths(s1, root, entries[1..], emitted + events);
    }
  }

  lemma RootKeepsPaths(s: State, root: string, scans: map<string, Scan>)
    ensures LoadRoot(s, root, scans).0.searchPaths == s.searchPaths && LoadRoot(s, root, scans).0.stdlib == s.stdlib
  {
    if root in scans && scans[root].Entries? {
      EntriesKeepPaths(s, root, scans[root].entries, []);
    }
  }

  lemma {:induction false} RootsKeepPaths(s: State, roots: seq<string>, scans: map<string, Scan>, emitted: seq<Event>)
    ensures LoadRoots(s, roots, scans, emitted).0.searchPaths == s.searchPaths
    ensures LoadRoots(s, roots, scans, emitted).0.stdlib == s.stdlib
    decreases roots
  {
    if roots != [] {
      RootKeepsPaths(s, roots[0], scans);
      var (s1, events) := LoadRoot(s, roots[0], scans);
      RootsKeepPaths(s1, roots[1..], scans, emitted + events);
    }
  }

  lemma LineAddsItsPath(s: State, line: Line, xs: seq<string>)
    requires FirstOccurrences(s.searchPaths, xs)
    ensures FirstOccurrences(Process(s, line).0.searchPaths, xs + PathOf(line))
    ensures Process(s, line).0.stdlib == s.stdlib
  {
    EmptyIsUnit(xs);
    match line
    case AddSearchPath(Some(path), Some(resolved)) => FirstOccurrencesPush(s.searchPaths, xs, resolved);
    case LoadAll(scans) => RootsKeepPaths(s, s.searchPaths, scans, []);
    case _ =>
  }

  lemma {:induction false} RunAddsItsPaths(s: State, lines: seq<Line>, xs: seq<string>)
    requires FirstOccurrences(s.searchPaths, xs)
    ensures FirstOccurrences(RunState(s, lines).searchPaths, xs + PathsOf(Taken(s, lines)))
    ensures RunState(s, lines).stdlib == s.stdlib
    decreases lines
  {
    if lines == [] || !s.status.Running? {
      DeadOrDone(s, lines);
      EmptyIsUnit(xs);
    } else {
      var line, rest := lines[0], lines[1..];
      var s1 := Process(s, line).0;
      ConsOfTail(lines);
      RunOfOneMore(s, line, rest);
      LineAddsItsPath(s, line, xs);
      RunAddsItsPaths(s1, rest, xs + PathOf(line));
      PathsOfCons(line, Taken(s1, rest));
      Associates(xs, PathOf(line), PathsOf(Taken(s1, rest)));
      EmptyIsUnit(Taken(s1, rest));
      EmptyIsUnit(xs);
    }
  }

  lemma DeadOrDone(s: State, lines: seq<Line>)
    requires lines == [] || !s.status.Running?
    ensures Taken(s, lines) == [] && RunState(s, lines) == s
  {
  }

  lemma PathsOfCons(op: Line, ops: seq<Line>)
    ensures PathsOf([op] + ops) == PathOf(op) + PathsOf(ops)
  {
    assert ([op] + ops)[1..] == ops;
  }

  /** Main result: after any run the search paths are the distinct resolved paths of the
      `add_search_path` ops taken up, in the order in which they were first added. */
  lemma SearchPathsAreThoseAdded(stdlib: set<string>, lines: seq<Line>)
    ensures FirstOccurrences(RunState(Init(stdlib), lines).searchPaths, PathsOf(Taken(Init(stdlib), lines)))
  {
    RunAddsItsPaths(Init(stdlib), lines, []);
    EmptyIsUnit(PathsOf(Taken(Init(stdlib), lines)));
  }

  // ---- What load_all announces -------------------------------------------------------------------------

  /** One to 64 lower-case letters, digits, dots, underscores and hyphens. */
  predicate IsId(s: string) {
    && s != "" && |s| < 65
    && forall i | 0 <= i < |s| ::
         'a' <= s[i] <= 'z' || '0' <= s[i] <= '9' || s[i] == '.' || s[i] == '_' || s[i] == '-'
  }

  lemma SafeIdIs(s: string)
    ensures IsSafePluginId(s) <==> IsId(s)
  {
    if IsSafePluginId(s) {
      assert forall i | 0 <= i < |s| :: s[i] in s;
    }
  }

  /** The directory holds a plugin that can be loaded and announced. */
  predicate Loadable(stdlib: set<string>, e: DirEntry) {
    && e.kind.Plugin? && IsId(e.name) && e.name !in stdlib
    && e.imported.Imported? && e.imported.id.Some? && IsId(e.imported.id.value)
    && e.manifestPath.Some? && e.imported.attributes.Some?
  }

  lemma LoadableIs(stdlib: set<string>, e: DirEntry)
    ensures Loadable(stdlib, e) <==>
            && e.kind.Plugin? && IsSafePluginId(e.name) && e.name !in stdlib
            && e.imported.Imported? && e.imported.id.Some? && IsSafePluginId(e.imported.id.value)
            && e.manifestPath.Some? && e.imported.attributes.Some?
  {
    SafeIdIs(e.name);
    if e.imported.Imported? && e.imported.id.Some? {
      SafeIdIs(e.imported.id.value);
    }
  }

  /** What a `load_all` comes across: a search path that is no directory, or a plugin directory. */
  datatype Item = NoDirectory(root: string) | Directory(e: DirEntry)

  function ItemsIn(entries: seq<DirEntry>): seq<Item> {
    if entries == [] then []
    else (if entries[0].kind.Plugin? then [Directory(entries[0])] else []) + ItemsIn(entries[1..])
  }

  function ItemsAt(root: string, scans: map<string, Scan>): seq<Item> {
    if root !in scans || scans[root].NotADirectory? then [NoDirectory(root)]
    else if scans[root].Unlistable? then []
    else ItemsIn(scans[root].entries)
  }

  function ItemsUnder(roots: seq<string>, scans: map<string, Scan>): seq<Item> {
    if roots == [] then [] else ItemsAt(roots[0], scans) + ItemsUnder(roots[1..], scans)
  }

  /** A loadable plugin is announced with its id, attributes and manifest; anything else is refused by name. */
  predicate Reports(stdlib: set<string>, item: Item, event: Event) {
    match item
    case NoDirectory(root) => event.PluginError? && event.id == root
    case Directory(e) =>
      if Loadable(stdlib, e)
      then event == PluginLoaded(e.imported.id.value, e.imported.attributes.value, e.manifestPath.value)
      else event.PluginError? && event.id == e.name
  }

  ghost predicate ReportsEach(stdlib: set<string>, items: seq<Item>, events: seq<Event>) {
    |items| == |events| && forall i | 0 <= i < |items| :: Reports(stdlib, items[i], events[i])
  }

  lemma ReportsEachThen(stdlib: set<string>, a: seq<Item>, x: seq<Event>, b: seq<Item>, y: seq<Event>)
    requires ReportsEach(stdlib, a, x) && ReportsEach(stdlib, b, y)
    ensures ReportsEach(stdlib, a + b, x + y)
  {
  }

  lemma EntryReports(s: State, root: string, e: DirEntry)
    requires !s.status.Died? && !Faulty(s.stdlib, e)
    ensures !Visit(s, root, e).0.status.Died? && Visit(s, root, e).0.stdlib == s.stdlib
    ensures ReportsEach(s.stdlib, if e.kind.Plugin? then [Directory(e)] else [], Visit(s, root, e).1)
  {
    VisitFaulty(s, root, e);
    LoadableIs(s.stdlib, e);
  }

  lemma {:induction false} EntriesReport(s: State, root: string, entries: seq<DirEntry>,
                                         done: seq<Item>, emitted: seq<Event>)
    requires !s.status.Died? && ReportsEach(s.stdlib, done, emitted)
    requires forall e | e in entries :: !Faulty(s.stdlib, e)
    ensures !LoadEntries(s, root, entries, emitted).0.status.Died?
    ensures ReportsEach(s.stdlib, done + ItemsIn(entries), LoadEntries(s, root, entries, emitted).1)
    decreases entries
  {
    if entries == [] {
      EmptyIsUnit(done);
    } else {
      var e, rest := entries[0], entries[1..];
      ConsOfTail(entries);
      EntryReports(s, root, e);
      var (s1, events) := Visit(s, root, e);
      var own := if e.kind.Plugin? then [Directory(e)] else [];
      ReportsEachThen(s.stdlib, done, emitted, own, events);
      EntriesReport(s1, root, rest, done + own, emitted + events);
      Associates(done, own, ItemsIn(rest));
    }
  }

  lemma RootReports(s: State, root: string, scans: map<string, Scan>)
    requires !s.status.Died? && !FaultyRoot(s.stdlib, root, scans)
    ensures !LoadRoot(s, root, scans).0.status.Died? && LoadRoot(s, root, scans).0.stdlib == s.stdlib
    ensures ReportsEach(s.stdlib, ItemsAt(root, scans), LoadRoot(s, root, scans).1)
  {
    RootKeepsPaths(s, root, scans);
    if root in scans && scans[root].Entries? {
      EntriesReport(s, root, scans[root].entries, [], []);
      EmptyIsUnit(ItemsIn(scans[root].entries));
    }
  }

  lemma {:induction false} RootsReport(s: State, roots: seq<string>, scans: map<string, Scan>,
                                       done: seq<Item>, emitted: seq<Event>)
    requires !s.status.Died? && ReportsEach(s.stdlib, done, emitted)
    requires forall root | root in roots :: !FaultyRoot(s.stdlib, root, scans)
    ensures !LoadRoots(s, roots, scans, emitted).0.status.Died?
    ensures ReportsEach(s.stdlib, done + ItemsUnder(roots, scans), LoadRoots(s, roots, scans, emitted).1)
    decreases roots
  {
    if roots == [] {
      EmptyIsUnit(done);
    } else {
      var root, rest := roots[0], roots[1..];
      ConsOfTail(roots);
      RootReports(s, root, scans);
      var (s1, events) := LoadRoot(s, root, scans);
      ReportsEachThen(s.stdlib, done, emitted, ItemsAt(root, scans), events);
      RootsReport(s1, rest, scans, done + ItemsAt(root, scans), emitted + events);
      Associates(done, ItemsAt(root, scans), ItemsUnder(rest, scans));
    }
  }

  /** Main result: after any run, a `load_all` that meets no uncaught exception reports on each plugin
      directory of each search path added so far, and on nothing else, in order: a loadable one is
      announced with its id, attributes and manifest, any other is refused. Then it says how
      many it announced. */
  lemma LoadAllReportsEach(stdlib: set<string>, lines: seq<Line>, scans: map<string, Scan>)
    requires RunState(Init(stdlib), lines).status.Running?
    requires !Uncaught(RunState(Init(stdlib), lines), LoadAll(scans))
    ensures var s, answer := RunState(Init(stdlib), lines), AnswerTo(stdlib, lines, LoadAll(scans));
            && FirstOccurrences(s.searchPaths, PathsOf(Taken(Init(stdlib), lines)))
            && answer != []
            && ReportsEach(stdlib, ItemsUnder(s.searchPaths, scans), answer[..|answer| - 1])
            && answer[|answer| - 1] == LoadComplete(CountLoaded(answer[..|answer| - 1]))
  {
    var s := RunState(Init(stdlib), lines);
    SearchPathsAreThoseAdded(stdlib, lines);
    RunAddsItsPaths(Init(stdlib), lines, []);
    AnswerIsProcessed(stdlib, lines, LoadAll(scans));
    RootsReport(s, s.searchPaths, scans, [], []);
    EmptyIsUnit(ItemsUnder(s.searchPaths, scans));
    var events := LoadRoots(s, s.searchPaths, scans, []).1;
    FrontOfPush(events, LoadComplete(CountLoaded(events)));
  }

  // ---- What is registered -------------------------------------------------------------------------------

  /** The ids of the dictionary, in its order. */
  function IdOrder(plugins: seq<Loaded>): seq<string> {
    if plugins == [] then [] else [plugins[0].id] + IdOrder(plugins[1..])
  }

  function InstanceOf(plugins: seq<Loaded>, id: string): Option<Instance> {
    if plugins == [] then None
    else if plugins[0].id == id then Some(plugins[0].instance)
    else InstanceOf(plugins[1..], id)
  }

  function ManifestOf(manifests: map<string, string>, id: string): Option<string> {
    if id in manifests then Some(manifests[id]) else None
  }

  lemma {:induction false} PutPluginSets(plugins: seq<Loaded>, id: string, instance: Instance, k: string)
    ensures InstanceOf(PutPlugin(plugins, id, instance), k) ==
            if k == id then Some(instance) else InstanceOf(plugins, k)
    ensures IdOrder(PutPlugin(plugins, id, instance)) ==
            if id in IdOrder(plugins) then IdOrder(plugins) else IdOrder(plugins) + [id]
  {
    if plugins != [] {
      var rest := plugins[1..];
      if plugins[0].id == id {
        assert PutPlugin(plugins, id, instance)[1..] == rest;
      } else {
        PutPluginSets(rest, id, instance, k);
        assert PutPlugin(plugins, id, instance)[1..] == PutPlugin(rest, id, instance);
        assert id in IdOrder(plugins) <==> id in IdOrder(rest);
        Associates([plugins[0].id], IdOrder(rest), [id]);
      }
    }
  }

  /** The item is a loadable plugin that reports this id. */
  predicate Registers(stdlib: set<string>, item: Item, id: string) {
    item.Directory? && Loadable(stdlib, item.e) && item.e.imported.id.value == id
  }

  /** The last of the items that registers `id`. */
  function LastWith(stdlib: set<string>, items: seq<Item>, id: string): (last: Option<DirEntry>)
    ensures last.Some? ==> Loadable(stdlib, last.value) && last.value.imported.id.value == id
  {
    if items == [] then None
    else if Registers(stdlib, items[|items| - 1], id) then Some(items[|items| - 1].e)
    else LastWith(stdlib, items[..|items| - 1], id)
  }

  /** The ids registered by the items, with repetitions. */
  function IdsOf(stdlib: set<string>, items: seq<Item>): seq<string> {
    if items == [] then []
    else IdsOf(stdlib, items[..|items| - 1]) + OwnId(stdlib, items[|items| - 1])
  }

  function OwnId(stdlib: set<string>, item: Item): seq<string> {
    if item.Directory? && Loadable(stdlib, item.e) then [item.e.imported.id.value] else []
  }

  /** From `s` on, each id has the instance and the manifest of the last item that registers it,
      and those of `s` if there is none; and ids stand in the order in which they first came. */
  ghost predicate RegistersLast(s: State, items: seq<Item>, s': State, known: seq<string>) {
    && FirstOccurrences(IdOrder(s'.plugins), known + IdsOf(s.stdlib, items))
    && forall id :: RegistersLastOf(s, items, s', id)
  }

  ghost predicate RegistersLastOf(s: State, items: seq<Item>, s': State, id: string) {
    match LastWith(s.stdlib, items, id)
    case Some(e) =>
      InstanceOf(s'.plugins, id) == Some(e.imported.instance) && ManifestOf(s'.manifests, id) == e.manifestPath
    case None =>
      && InstanceOf(s'.plugins, id) == InstanceOf(s.plugins, id)
      && ManifestOf(s'.manifests, id) == ManifestOf(s.manifests, id)
  }

  lemma ItemPush(stdlib: set<string>, items: seq<Item>, item: Item, id: string)
    ensures LastWith(stdlib, items + [item], id) ==
            if Registers(stdlib, item, id) then Some(item.e) else LastWith(stdlib, items, id)
    ensures IdsOf(stdlib, items + [item]) == IdsOf(stdlib, items) + OwnId(stdlib, item)
  {
    FrontOfPush(items, item);
  }

  /** What an item does to the two dictionaries. */
  ghost predicate Effect(s: State, item: Item, s': State) {
    if item.Directory? && Loadable(s.stdlib, item.e)
    then s'.plugins == PutPlugin(s.plugins, item.e.imported.id.value, item.e.imported.instance)
         && s'.manifests == s.manifests[item.e.imported.id.value := item.e.manifestPath.value]
    else s'.plugins == s.plugins && s'.manifests == s.manifests
  }

  lemma VisitTakesEffect(s: State, root: string, e: DirEntry)
    requires !s.status.Died? && !Faulty(s.stdlib, e) && e.kind.Plugin?
    ensures Effect(s, Directory(e), Visit(s, root, e).0)
  {
    LoadableIs(s.stdlib, e);
    if Loadable(s.stdlib, e) {
      VisitRegisters(s, root, e);
    } else {
      HostChild.VisitReports(s, root, e);
    }
  }

  lemma EffectOnId(start: State, items: seq<Item>, s: State, item: Item, s': State, id: string)
    requires s.stdlib == start.stdlib && Effect(s, item, s') && RegistersLastOf(start, items, s, id)
    ensures RegistersLastOf(start, items + [item], s', id)
  {
    ItemPush(start.stdlib, items, item, id);
    if item.Directory? && Loadable(start.stdlib, item.e) {
      PutPluginSets(s.plugins, item.e.imported.id.value, item.e.imported.instance, id);
    }
  }

  lemma EffectOnOrder(s: State, item: Item, s': State, ids: seq<string>)
    requires Effect(s, item, s') && FirstOccurrences(IdOrder(s.plugins), ids)
    ensures FirstOccurrences(IdOrder(s'.plugins), ids + OwnId(s.stdlib, item))
  {
    if item.Directory? && Loadable(s.stdlib, item.e) {
      var Imported(id, instance, _) := item.e.imported;
      PutPluginSets(s.plugins, id.value, instance, "");
      FirstOccurrencesPush(IdOrder(s.plugins), ids, id.value);
    } else {
      EmptyIsUnit(ids);
    }
  }

  lemma ItemRegisters(start: State, items: seq<Item>, s: State, known: seq<string>, item: Item, s': State)
    requires RegistersLast(start, items, s, known)
    requires s.stdlib == start.stdlib && Effect(s, item, s')
    ensures RegistersLast(start, items + [item], s', known)
  {
    EffectOnOrder(s, item, s', known + IdsOf(start.stdlib, items));
    ItemPush(start.stdlib, items, item, "");
    Associates(known, IdsOf(start.stdlib, items), OwnId(start.stdlib, item));
    forall id
      ensures RegistersLastOf(start, items + [item], s', id)
    {
      EffectOnId(start, items, s, item, s', id);
    }
  }

  lemma {:induction false} EntriesRegister(start: State, s: State, root: string, entries: seq<DirEntry>,
                                           done: seq<Item>, emitted: seq<Event>, known: seq<string>)
    requires !s.status.Died? && s.stdlib == start.stdlib && RegistersLast(start, done, s, known)
    requires forall e | e in entries :: !Faulty(s.stdlib, e)
    ensures RegistersLast(start, done + ItemsIn(entries), LoadEntries(s, root, entries, emitted).0, known)
    decreases entries
  {
    if entries == [] {
      EmptyIsUnit(done);
    } else {
      var e, rest := entries[0], entries[1..];
      ConsOfTail(entries);
      EntryReports(s, root, e);
      var (s1, events) := Visit(s, root, e);
      if e.kind.Plugin? {
        VisitTakesEffect(s, root, e);
        ItemRegisters(start, done, s, known, Directory(e), s1);
        Associates(done, [Directory(e)], ItemsIn(rest));
        EntriesRegister(start, s1, root, rest, done + [Directory(e)], emitted + events, known);
      } else {
        EmptyIsUnit(ItemsIn(rest));
        EntriesRegister(start, s1, root, rest, done, emitted + events, known);
      }
    }
  }

  lemma RootRegisters(start: State, s: State, root: string, scans: map<string, Scan>,
                      done: seq<Item>, known: seq<string>)
    requires !s.status.Died? && s.stdlib == start.stdlib && RegistersLast(start, done, s, known)
    requires !FaultyRoot(s.stdlib, root, scans)
    ensures RegistersLast(start, done + ItemsAt(root, scans), LoadRoot(s, root, scans).0, known)
  {
    if root in scans && scans[root].Entries? {
      EntriesRegister(start, s, root, scans[root].entries, done, [], known);
    } else {
      ItemRegisters(start, done, s, known, NoDirectory(root), LoadRoot(s, root, scans).0);
    }
  }

  lemma {:induction false} RootsRegister(start: State, s: State, roots: seq<string>, scans: map<string, Scan>,
                                         done: seq<Item>, emitted: seq<Event>, known: seq<string>)
    requires !s.status.Died? && s.stdlib == start.stdlib && RegistersLast(start, done, s, known)
    requires forall root | root in roots :: !FaultyRoot(s.stdlib, root, scans)
    ensures RegistersLast(start, done + ItemsUnder(roots, scans), LoadRoots(s, roots, scans, emitted).0, known)
    decreases roots
  {
    if roots == [] {
      EmptyIsUnit(done);
    } else {
      var root, rest := roots[0], roots[1..];
      ConsOfTail(roots);
      RootReports(s, root, scans);
      RootRegisters(start, s, root, scans, done, known);
      var (s1, events) := LoadRoot(s, root, scans);
      RootsRegister(start, s1, rest, scans, done + ItemsAt(root, scans), emitted + events, known);
      Associates(done, ItemsAt(root, scans), ItemsUnder(rest, scans));
    }
  }

  /** Main result: a `load_all` that meets no uncaught exception registers each loadable plugin of each
      search path: an id has the instance and manifest of the last plugin that reports it, or
      those it had, and keeps its place; new ids come after the old ones, in order. */
  lemma LoadAllRegistersLast(stdlib: set<string>, lines: seq<Line>, scans: map<string, Scan>)
    requires RunState(Init(stdlib), lines).status.Running?
    requires !Uncaught(RunState(Init(stdlib), lines), LoadAll(scans))
    ensures var s, s' := RunState(Init(stdlib), lines), RunState(Init(stdlib), lines + [LoadAll(scans)]);
            && s.stdlib == stdlib
            && RegistersLast(s, ItemsUnder(s.searchPaths, scans), s', IdOrder(s.plugins))
  {
    var s := RunState(Init(stdlib), lines);
    var known := IdOrder(s.plugins);
    RunPush(Init(stdlib), lines, LoadAll(scans));
    RunAddsItsPaths(Init(stdlib), lines, []);
    RunKeepsValid(Init(stdlib), lines);
    DistinctIdsInOrder(s.plugins);
    EmptyIsUnit(known);
    RootsRegister(s, s, s.searchPaths, scans, [], [], known);
    EmptyIsUnit(ItemsUnder(s.searchPaths, scans));
  }

  lemma {:induction false} IdOrderIs(plugins: seq<Loaded>)
    ensures |IdOrder(plugins)| == |plugins| && forall i | 0 <= i < |plugins| :: IdOrder(plugins)[i] == plugins[i].id
  {
    if plugins != [] {
      IdOrderIs(plugins[1..]);
    }
  }

  lemma {:induction false} DistinctIdsDiffer(plugins: seq<Loaded>, i: nat, j: nat)
    requires DistinctIds(plugins) && i < j < |plugins|
    ensures plugins[i].id != plugins[j].id
  {
    if i > 0 {
      DistinctIdsDiffer(plugins[1..], i - 1, j - 1);
    } else {
      assert plugins[1..][j - 1] in plugins[1..];
    }
  }

  lemma DistinctIdsInOrder(plugins: seq<Loaded>)
    requires DistinctIds(plugins)
    ensures FirstOccurrences(IdOrder(plugins), IdOrder(plugins))
  {
    var ids := IdOrder(plugins);
    IdOrderIs(plugins);
    forall i, j | 0 <= i < j < |ids|
      ensures ids[i] != ids[j] && MetBefore(ids, ids[i], ids[j])
    {
      forall k | 0 <= k <= i
        ensures ids[k] != ids[j]
      {
        DistinctIdsDiffer(plugins, k, j);
      }
      assert ids[i] == ids[i] && ids[j] !in ids[..i];
    }
  }

  // ---- The import path -----------------------------------------------------------------------------------

  /** The directory's module is imported, whatever comes of it. */
  predicate IsImported(stdlib: set<string>, e: DirEntry) {
    e.kind.Plugin? && IsId(e.name) && e.name !in stdlib
  }

  ghost predicate ImportsFrom(stdlib: set<string>, root: string, scans: map<string, Scan>) {
    root in scans && scans[root].Entries? && exists e | e in scans[root].entries :: IsImported(stdlib, e)
  }

  /** `r` is on the import path after, if and only if it was before or something is imported from it. */
  ghost predicate AddsToPath(s: State, r: string, imports: bool, s': State) {
    r in s'.sysPath <==> r in s.sysPath || imports
  }

  lemma VisitAddsToPath(s: State, root: string, e: DirEntry, r: string)
    ensures AddsToPath(s, r, r == root && IsImported(s.stdlib, e), Visit(s, root, e).0)
  {
    SafeIdIs(e.name);
  }

  lemma {:induction false} EntriesAddToPath(s: State, root: string, entries: seq<DirEntry>,
                                            emitted: seq<Event>, r: string)
    requires !s.status.Died? && forall e | e in entries :: !Faulty(s.stdlib, e)
    ensures AddsToPath(s, r, r == root && exists e | e in entries :: IsImported(s.stdlib, e),
                       LoadEntries(s, root, entries, emitted).0)
    decreases entries
  {
    if entries != [] {
      var e, rest := entries[0], entries[1..];
      assert forall x :: x in entries <==> x == e || x in rest;
      VisitAddsToPath(s, root, e, r);
      EntryReports(s, root, e);
      var (s1, events) := Visit(s, root, e);
      EntriesAddToPath(s1, root, rest, emitted + events, r);
    }
  }

  lemma RootAddsToPath(s: State, root: string, scans: map<string, Scan>, r: string)
    requires !s.status.Died? && !FaultyRoot(s.stdlib, root, scans)
    ensures AddsToPath(s, r, r == root && ImportsFrom(s.stdlib, root, scans), LoadRoot(s, root, scans).0)
  {
    if root in scans && scans[root].Entries? {
      EntriesAddToPath(s, root, scans[root].entries, [], r);
    }
  }

  lemma {:induction false} RootsAddToPath(s: State, roots: seq<string>, scans: map<string, Scan>,
                                          emitted: seq<Event>, r: string)
    requires !s.status.Died? && forall root | root in roots :: !FaultyRoot(s.stdlib, root, scans)
    ensures AddsToPath(s, r, r in roots && ImportsFrom(s.stdlib, r, scans), LoadRoots(s, roots, scans, emitted).0)
    decreases roots
  {
    if roots != [] {
      var root, rest := roots[0], roots[1..];
      ConsOfTail(roots);
      RootAddsToPath(s, root, scans, r);
      RootReports(s, root, scans);
      var (s1, events) := LoadRoot(s, root, scans);
      RootsAddToPath(s1, rest, scans, emitted + events, r);
    }
  }

  /** A `load_all` that meets no uncaught exception adds to the import path the search paths it imports a
      directory from, and no others. */
  lemma LoadAllImportsFrom(s: State, scans: map<string, Scan>, r: string)
    requires s.status.Running? && !Uncaught(s, LoadAll(scans))
    ensures r in Process(s, LoadAll(scans)).0.sysPath <==>
            r in s.sysPath || (r in s.searchPaths && ImportsFrom(s.stdlib, r, scans))
  {
    RootsAddToPath(s, s.searchPaths, scans, [], r);
  }

  // ---- Dispatching, and the ends of a run -------------------------------------------------------------------

  /** Main result: after any run, a dispatch is answered by `dispatched` with its own ids if and only if
      both are strings, the plugin was announced as loaded before, and its `dispatch` returns;
      unless that lets an exception escape, anything else is answered by one error with the same ids. */
  lemma DispatchReachesRegistered(stdlib: set<string>, lines: seq<Line>, id: Member, action: Member, outcome: Outcome)
    requires RunState(Init(stdlib), lines).status.Running?
    ensures var answer := AnswerTo(stdlib, lines, Dispatch(id, action, outcome));
            var known := id.Text? && action.Text? && id.value in LoadedIds(Flatten(Segments(Init(stdlib), lines)));
            if known && outcome.Returns? then answer == [Dispatched(id.value, action.value)]
            else if known && outcome.Escapes? then answer == []
            else && |answer| == 1 && answer[0].DispatchError?
                 && (id.Text? && action.Text? ==> answer[0].id == id.value && answer[0].action == action.value)
                 && (known ==> outcome == Fails(answer[0].message))
  {
    AnswerIsProcessed(stdlib, lines, Dispatch(id, action, outcome));
    RegisteredAreAnnounced(stdlib, lines);
  }

  lemma RegisteredAreAnnounced(stdlib: set<string>, lines: seq<Line>)
    requires RunState(Init(stdlib), lines).status.Running?
    ensures Ids(RunState(Init(stdlib), lines).plugins) == LoadedIds(Flatten(Segments(Init(stdlib), lines)))
  {
    assert Ids(Init(stdlib).plugins) == {};
    RunKeepsValid(Init(stdlib), lines);
  }

  /** A child that is running has been asked for neither end. */
  predicate AsksToExit(op: Line) {
    op.Shutdown? || op.CrashForTest?
  }

  lemma LineExits(s: State, line: Line)
    requires s.status.Running?
    ensures Process(s, line).0.status.Exited? <==> AsksToExit(line)
    ensures AsksToExit(line) ==> Process(s, line).1 == [if line.Shutdown? then ShutdownAck else Crashing]
  {
    match line
    case LoadAll(scans) => RootsStayRunning(s, s.searchPaths, scans, []);
    case _ =>
  }

  lemma {:induction false} EntriesStayRunning(s: State, root: string, entries: seq<DirEntry>, emitted: seq<Event>)
    requires s.status.Running?
    ensures !LoadEntries(s, root, entries, emitted).0.status.Exited?
    decreases entries
  {
    if entries != [] {
      var (s1, events) := Visit(s, root, entries[0]);
      VisitStaysRunning(s, root, entries[0]);
      if s1.status.Running? {
        EntriesStayRunning(s1, root, entries[1..], emitted + events);
      }
    }
  }

  lemma VisitStaysRunning(s: State, root: string, e: DirEntry)
    requires s.status.Running?
    ensures !Visit(s, root, e).0.status.Exited?
  {
  }

  lemma RootStaysRunning(s: State, root: string, scans: map<string, Scan>)
    requires s.status.Running?
    ensures !LoadRoot(s, root, scans).0.status.Exited?
  {
    if root in scans && scans[root].Entries? {
      EntriesStayRunning(s, root, scans[root].entries, []);
    }
  }

  lemma {:induction false} RootsStayRunning(s: State, roots: seq<string>, scans: map<string, Scan>, emitted: seq<Event>)
    requires s.status.Running?
    ensures !LoadRoots(s, roots, scans, emitted).0.status.Exited?
    decreases roots
  {
    if roots != [] {
      var (s1, events) := LoadRoot(s, roots[0], scans);
      RootStaysRunning(s, roots[0], scans);
      if s1.status.Running? {
        RootsStayRunning(s1, roots[1..], scans, emitted + events);
      }
    }
  }

  lemma TakenCons(s: State, line: Line, rest: seq<Line>)
    requires s.status.Running?
    ensures (exists op | op in Taken(s, [line] + rest) :: AsksToExit(op)) <==>
            AsksToExit(line) || exists op | op in Taken(Process(s, line).0, rest) :: AsksToExit(op)
  {
    RunOfOneMore(s, line, rest);
    var own, later := if line.Blank? then [] else [line], Taken(Process(s, line).0, rest);
    assert forall op :: op in own + later <==> op in own || op in later;
    assert !line.Blank? ==> line in own;
  }

  /** A run ends in an orderly exit if and only if it takes up a `shutdown` or the test's crash op,
      and the answer to that is the acknowledgement of that one; no op is taken up after it. */
  lemma {:induction false} ExitsWhenAsked(s: State, lines: seq<Line>)
    requires s.status.Running?
    ensures RunState(s, lines).status.Exited? <==> exists op | op in Taken(s, lines) :: AsksToExit(op)
    ensures RunState(s, lines).status.Exited? ==>
              var ops, segments := Taken(s, lines), Segments(s, lines);
              && ops != [] && segments != [] && AsksToExit(ops[|ops| - 1])
              && segments[|segments| - 1] == [if ops[|ops| - 1].Shutdown? then ShutdownAck else Crashing]
    decreases lines
  {
    if lines != [] {
      var line, rest := lines[0], lines[1..];
      var s1 := Process(s, line).0;
      ConsOfTail(lines);
      LineExits(s, line);
      RunOfOneMore(s, line, rest);
      TakenCons(s, line, rest);
      if s1.status.Running? {
        ExitsWhenAsked(s1, rest);
      } else {
        DeadTakesNothing(s1, rest);
      }
    }
  }

  // ---- The other answers -------------------------------------------------------------------------------------

  /** A line that is no op is answered by one error of the parser, an unknown op by one that names it, and a
      search path by its acceptance or by an error if there is none. */
  lemma OtherAnswers(stdlib: set<string>, lines: seq<Line>, line: Line)
    requires RunState(Init(stdlib), lines).status.Running? && !line.Blank?
    requires !Uncaught(RunState(Init(stdlib), lines), line)
    ensures var answer := AnswerTo(stdlib, lines, line);
            && (line.BadJson? ==> answer == [ErrorEvent("<parse>", line.why)])
            && (line.NotAnObject? ==> |answer| == 1 && answer[0].ErrorEvent? && answer[0].op == "<parse>")
            && (line.UnknownOp? ==> |answer| == 1 && answer[0].ErrorEvent? && answer[0].op == line.op)
            && (line.AddSearchPath? ==>
                  if PathOf(line) != [] then answer == [PathAdded]
                  else |answer| == 1 && answer[0].ErrorEvent? && answer[0].op == "add_search_path")
  {
    AnswerIsProcessed(stdlib, lines, line);
  }

  /** A `list_plugins` that can read every plugin lists them in the order of the dictionary, each with the
      attributes of its instance and its manifest, and then says how many there are. */
  lemma ListNamesEach(stdlib: set<string>, lines: seq<Line>, attrs: map<Instance, Info>)
    requires RunState(Init(stdlib), lines).status.Running?
    requires !Uncaught(RunState(Init(stdlib), lines), ListPlugins(attrs))
    ensures var plugins := RunState(Init(stdlib), lines).plugins;
            var manifests := RunState(Init(stdlib), lines).manifests;
            var answer := AnswerTo(stdlib, lines, ListPlugins(attrs));
            && |answer| == |plugins| + 1 && answer[|plugins|] == PluginsComplete(|plugins|)
            && forall i | 0 <= i < |plugins| ::
                 && plugins[i].instance in attrs && plugins[i].id in manifests
                 && answer[i] == PluginListed(plugins[i].id, attrs[plugins[i].instance], manifests[plugins[i].id])
  {
    AnswerIsProcessed(stdlib, lines, ListPlugins(attrs));
    assert Ids(Init(stdlib).plugins) == {};
    RunKeepsValid(Init(stdlib), lines);
    ListsEach(RunState(Init(stdlib), lines), attrs);
  }

  lemma ListsEach(s: State, attrs: map<Instance, Info>)
    requires Valid(s) && !Uncaught(s, ListPlugins(attrs))
    ensures var answer := Process(s, ListPlugins(attrs)).1;
            && |answer| == |s.plugins| + 1 && answer[|s.plugins|] == PluginsComplete(|s.plugins|)
            && forall i | 0 <= i < |s.plugins| ::
                 && s.plugins[i].instance in attrs && s.plugins[i].id in s.manifests
                 && answer[i] ==
                    PluginListed(s.plugins[i].id, attrs[s.plugins[i].instance], s.manifests[s.plugins[i].id])
  {
    assert forall p | p in s.plugins :: p.instance in attrs && p.id in Ids(s.plugins);
    InventoryGoesOn(s.plugins, s.manifests, attrs, []);
    InventoryListsEach(s.plugins, s.manifests, attrs, []);
  }
}
