/** The plugin host child's line protocol (`_host_child.py`): an op line is answered by one
    segment of events that tells its own end, unless an exception nothing catches kills the child. */
module HostChild {
  import opened Seqs
  import opened Wrappers

  /** What the inventory events say about a plugin besides its id and manifest. */
  datatype Info = Info(name: string, version: string, authors: string, permissions: seq<string>)

  /** A `Plugin` object. */
  type Instance = nat

  /** What importing a directory's `plugin.py` and instantiating `Plugin` gives. An id that
      is no string is absent; no attributes means that reading one of them raises.
      `Raises` is all that escapes: an exception the handlers do not catch or cannot
      print, or an `id` or a `Plugin` that raises when it is looked up. */
  datatype Import =
    | ImportFails(why: string)
    | NoPluginClass
    | ConstructorFails(why: string)
    | Imported(id: Option<string>, instance: Instance, attributes: Option<Info>)
    | Raises

  /** Whether an entry is a plugin directory; the question raises where it may not be asked. */
  datatype Kind = Plugin | Other | Unreadable

  /** A directory entry, in sorted order; the file system and the importer answer the rest.
      No manifest path means that looking for the manifest raises. */
  datatype DirEntry = DirEntry(name: string, kind: Kind, imported: Import, manifestPath: Option<string>)

  /** A search path; one that may not be listed, or asked about, raises. */
  datatype Scan = NotADirectory | Entries(entries: seq<DirEntry>) | Unlistable

  /** A member of an op; one that is no string is known by its text. */
  datatype Member = Text(value: string) | NoString(text: string)

  /** What `instance.dispatch` does; `Escapes` is an exception that is no `Exception`, or
      that cannot be printed. */
  datatype Outcome = Returns | Fails(message: string) | Escapes

  /** An input line, parsed; the outcomes only the environment knows come with it. An
      `Unparsable` line makes the parser raise something other than a decoding error, as over-long
      integers and deep nesting do. `Undecodable` is the end of the input where it is not UTF-8: the
      loop's own read raises, and whatever was read along with the bad bytes and not handed
      out as a line yet is lost with them. A path resolves to nothing if resolving it raises, as it
      does with a NUL in it. `attrs` are the attributes of the instances that can be read. */
  datatype Line =
    | Blank
    | BadJson(why: string)
    | Unparsable
    | Undecodable
    | NotAnObject
    | AddSearchPath(path: Option<string>, resolved: Option<string>)
    | LoadAll(scans: map<string, Scan>)
    | ListPlugins(attrs: map<Instance, Info>)
    | Dispatch(pluginId: Member, actionId: Member, outcome: Outcome)
    | Shutdown
    | CrashForTest
    | UnknownOp(op: string)

  datatype Event =
    | Ready
    | PathAdded
    | PluginLoaded(id: string, info: Info, manifestPath: string)
    | PluginError(id: string, message: string)
    | LoadComplete(count: nat)
    | PluginListed(id: string, info: Info, manifestPath: string)
    | PluginsComplete(count: nat)
    | Dispatched(id: string, action: string)
    | DispatchError(id: string, action: string, message: string)
    | ShutdownAck
    | Crashing
    | ErrorEvent(op: string, message: string)

  /** One item of `_plugins`, a dictionary in insertion order. */
  datatype Loaded = Loaded(id: string, instance: Instance)

  /** `Died` of an exception that nothing caught. */
  datatype Status = Running | Exited | Died

  datatype State = State(
    stdlib: set<string>,
    searchPaths: seq<string>,
    plugins: seq<Loaded>,
    manifests: map<string, string>,
    sysPath: set<string>,
    status: Status)

  function Init(stdlib: set<string>): State {
    State(stdlib, [], [], map[], {}, Running)
  }

  function Dead(s: State): State {
    s.(status := Died)
  }

  // ---- Loading ------------------------------------------------------------------------------

  predicate SafeChar(c: char) {
    'a' <= c <= 'z' || '0' <= c <= '9' || c in "._-"
  }

  predicate IsSafePluginId(s: string) {
    1 <= |s| <= 64 && forall c | c in s :: SafeChar(c)
  }

  function DirnameRejection(s: State, name: string): Option<string> {
    if !IsSafePluginId(name) then Some("unsafe directory name")
    else if name in s.stdlib then Some("directory name shadows the Python stdlib module '" + name + "'")
    else None
  }

  /** `_plugins[id] = instance`: a known id keeps its place. */
  function PutPlugin(plugins: seq<Loaded>, id: string, instance: Instance): seq<Loaded> {
    if plugins == [] then [Loaded(id, instance)]
    else if plugins[0].id == id then [Loaded(id, instance)] + plugins[1..]
    else [plugins[0]] + PutPlugin(plugins[1..], id, instance)
  }

  function Ids(plugins: seq<Loaded>): set<string> {
    set p | p in plugins :: p.id
  }

  /** What `_load_one_plugin` returns, if it does. */
  datatype Attempt = Registered(id: string) | Refused(why: string) | Raised

  function TryLoad(s: State, root: string, e: DirEntry): (State, Attempt) {
    match DirnameRejection(s, e.name)
    case Some(reason) => (s, Refused(reason))
    case None =>
      var s1 := s.(sysPath := s.sysPath + {root});
      match e.imported
      case ImportFails(why) => (s1, Refused("import: " + why))
      case NoPluginClass => (s1, Refused("module has no `Plugin` attribute"))
      case ConstructorFails(why) => (s1, Refused("Plugin(): " + why))
      case Raises => (Dead(s1), Raised)
      case Imported(id, instance, _) =>
        if id.None? || !IsSafePluginId(id.value) then (s1, Refused("plugin reports unsafe id"))
        else
          var s2 := s1.(plugins := PutPlugin(s1.plugins, id.value, instance));
          if e.manifestPath.None? then (Dead(s2), Raised)
          else (s2.(manifests := s2.manifests[id.value := e.manifestPath.value]), Registered(id.value))
  }

  /** One directory entry under `root`: the new state, and the events it emits. */
  function Visit(s: State, root: string, e: DirEntry): (State, seq<Event>) {
    match e.kind
    case Other => (s, [])
    case Unreadable => (Dead(s), [])
    case Plugin =>
      var (s1, attempt) := TryLoad(s, root, e);
      match attempt
      case Raised => (s1, [])
      case Refused(why) => (s1, [PluginError(e.name, why)])
      case Registered(id) =>
        match e.imported.attributes
        case None => (Dead(s1), [])
        case Some(info) => (s1, [PluginLoaded(id, info, e.manifestPath.value)])
  }

  /** The entries of a directory in turn, adding to the events emitted so far. */
  function LoadEntries(s: State, root: string, entries: seq<DirEntry>, emitted: seq<Event>): (State, seq<Event>)
    decreases entries
  {
    if entries == [] then (s, emitted)
    else
      var (s1, events) := Visit(s, root, entries[0]);
      if s1.status.Died? then (s1, emitted + events) else LoadEntries(s1, root, entries[1..], emitted + events)
  }

  function LoadRoot(s: State, root: string, scans: map<string, Scan>): (State, seq<Event>) {
    if root !in scans || scans[root].NotADirectory?
    then (s, [PluginError(root, "search path is not a directory")])
    else if scans[root].Unlistable? then (Dead(s), [])
    else LoadEntries(s, root, scans[root].entries, [])
  }

  /** The search paths in turn, adding to the events emitted so far. */
  function LoadRoots(s: State, roots: seq<string>, scans: map<string, Scan>, emitted: seq<Event>): (State, seq<Event>)
    decreases roots
  {
    if roots == [] then (s, emitted)
    else
      var (s1, events) := LoadRoot(s, roots[0], scans);
      if s1.status.Died? then (s1, emitted + events) else LoadRoots(s1, roots[1..], scans, emitted + events)
  }

  lemma LoadRootsStep(s: State, roots: seq<string>, i: nat, scans: map<string, Scan>, emitted: seq<Event>)
    requires i < |roots|
    ensures var (s1, events) := LoadRoot(s, roots[i], scans);
            LoadRoots(s, roots[i..], scans, emitted) ==
            if s1.status.Died? then (s1, emitted + events)
            else LoadRoots(s1, roots[i + 1..], scans, emitted + events)
  {
    SuffixStep(roots, i);
  }

  function CountLoaded(events: seq<Event>): nat {
    if events == [] then 0 else (if events[0].PluginLoaded? then 1 else 0) + CountLoaded(events[1..])
  }

  /** The inventory, added to the events emitted so far, up to the first plugin whose
      attributes cannot be read; and whether there is none. */
  function Inventory(plugins: seq<Loaded>, manifests: map<string, string>, attrs: map<Instance, Info>,
                     emitted: seq<Event>): (seq<Event>, bool)
    decreases plugins
  {
    if plugins == [] then (emitted, true)
    else
      var Loaded(id, instance) := plugins[0];
      if instance !in attrs then (emitted, false)
      else
        var event := PluginListed(id, attrs[instance], if id in manifests then manifests[id] else "");
        Inventory(plugins[1..], manifests, attrs, emitted + [event])
  }

  // ---- One line ---------------------------------------------------------------------------------

  function TextOf(m: Member): string {
    match m case Text(value) => value case NoString(text) => text
  }

  /** The new state and the events one input line emits. */
  function Process(s: State, line: Line): (State, seq<Event>) {
    match line
    case Blank => (s, [])
    case BadJson(why) => (s, [ErrorEvent("<parse>", why)])
    case Unparsable => (Dead(s), [])
    case Undecodable => (Dead(s), [])
    case NotAnObject => (s, [ErrorEvent("<parse>", "not a JSON object")])
    case AddSearchPath(path, resolved) =>
      if path.None? || path.value == "" then (s, [ErrorEvent("add_search_path", "missing path")])
      else if resolved.None? then (Dead(s), [])
      else
        var path := resolved.value;
        (if path in s.searchPaths then s else s.(searchPaths := s.searchPaths + [path]), [PathAdded])
    case LoadAll(scans) =>
      var (s', events) := LoadRoots(s, s.searchPaths, scans, []);
      (s', if s'.status.Died? then events else events + [LoadComplete(CountLoaded(events))])
    case ListPlugins(attrs) =>
      var (events, whole) := Inventory(s.plugins, s.manifests, attrs, []);
      if whole then (s, events + [PluginsComplete(|s.plugins|)]) else (Dead(s), events)
    case Dispatch(id, action, outcome) =>
      if id.NoString? || action.NoString? then
        (s, [DispatchError(TextOf(id), TextOf(action), "missing plugin_id / action_id")])
      else if id.value !in Ids(s.plugins) then (s, [DispatchError(id.value, action.value, "unknown plugin")])
      else
        (match outcome
         case Fails(message) => (s, [DispatchError(id.value, action.value, message)])
         case Escapes => (Dead(s), [])
         case Returns => (s, [Dispatched(id.value, action.value)]))
    case Shutdown => (s.(status := Exited), [ShutdownAck])
    case CrashForTest => (s.(status := Exited), [Crashing])
    case UnknownOp(op) => (s, [ErrorEvent(op, "unknown op")])
  }

  // ---- The module, with its globals as fields ------------------------------------------------------

  /** An uncaught exception sets `status` and returns at once, through every caller. */
  class Child {
    const stdlib: set<string>
    var searchPaths: seq<string>
    var plugins: seq<Loaded>
    var manifests: map<string, string>
    var sysPath: set<string>
    var status: Status
    var out: seq<Event>

    ghost function Abs(): State
      reads this
    {
      State(stdlib, searchPaths, plugins, manifests, sysPath, status)
    }

    constructor (stdlib: set<string>)
      ensures Abs() == Init(stdlib) && out == [Ready]
    {
      this.stdlib := stdlib;
      searchPaths, plugins, manifests, sysPath, status := [], [], map[], {}, Running;
      out := [Ready];
    }

    method Emit(event: Event)
      modifies this`out
      ensures out == old(out) + [event]
    {
      out := out + [event];
    }

    /** `_load_one_plugin`. */
    method LoadOnePlugin(root: string, e: DirEntry) returns (attempt: Attempt)
      modifies this`plugins, this`manifests, this`sysPath, this`status
      ensures (Abs(), attempt) == TryLoad(old(Abs()), root, e)
    {
      if !IsSafePluginId(e.name) {
        return Refused("unsafe directory name");
      }
      if e.name in stdlib {
        return Refused("directory name shadows the Python stdlib module '" + e.name + "'");
      }
      sysPath := sysPath + {root};
      match e.imported
      case ImportFails(why) => return Refused("import: " + why);
      case NoPluginClass => return Refused("module has no `Plugin` attribute");
      case ConstructorFails(why) => return Refused("Plugin(): " + why);
      case Raises =>
        status := Died;
        return Raised;
      case Imported(id, instance, _) =>
        if id.None? || !IsSafePluginId(id.value) {
          return Refused("plugin reports unsafe id");
        }
        plugins := PutPlugin(plugins, id.value, instance);
        if e.manifestPath.None? {
          status := Died;
          return Raised;
        }
        manifests := manifests[id.value := e.manifestPath.value];
        return Registered(id.value);
    }

    /** The body of the loop over directory entries; `ok` is whether it emitted `plugin_loaded`. */
    method VisitEntry(root: string, e: DirEntry) returns (ok: bool)
      modifies this`plugins, this`manifests, this`sysPath, this`status, this`out
      ensures var (s', events) := Visit(old(Abs()), root, e);
              Abs() == s' && out == old(out) + events && CountLoaded(events) == if ok then 1 else 0
    {
      ok := false;
      if e.kind.Unreadable? {
        status := Died;
        return;
      }
      if e.kind.Other? {
        return;
      }
      var attempt := LoadOnePlugin(root, e);
      match attempt
      case Raised =>
      case Refused(why) => Emit(PluginError(e.name, why));
      case Registered(id) =>
        if e.imported.attributes.None? {
          status := Died;
          return;
        }
        Emit(PluginLoaded(id, e.imported.attributes.value, e.manifestPath.value));
        ok := true;
    }

    /** One search path; `loaded` is how many plugins it added or replaced. */
    method LoadDirectory(root: string, scans: map<string, Scan>) returns (loaded: nat)
      requires !status.Died?
      modifies this`plugins, this`manifests, this`sysPath, this`status, this`out
      ensures var (s', events) := LoadRoot(old(Abs()), root, scans);
              Abs() == s' && out == old(out) + events && loaded == CountLoaded(events)
    {
      loaded := 0;
      if root !in scans || scans[root].NotADirectory? {
        Emit(PluginError(root, "search path is not a directory"));
        return;
      }
      if scans[root].Unlistable? {
        status := Died;
        return;
      }
      loaded := LoadInOrder(root, scans[root].entries);
    }

    /** The loop over the entries of a directory. */
    method LoadInOrder(root: string, entries: seq<DirEntry>) returns (loaded: nat)
      requires !status.Died?
      modifies this`plugins, this`manifests, this`sysPath, this`status, this`out
      ensures var (s', events) := LoadEntries(old(Abs()), root, entries, []);
              Abs() == s' && out == old(out) + events && loaded == CountLoaded(events)
    {
      loaded := 0;
      ghost var done: seq<Event> := [];
      for i := 0 to |entries|
        invariant !status.Died?
        invariant out == old(out) + done && loaded == CountLoaded(done)
        invariant LoadEntries(old(Abs()), root, entries, []) == LoadEntries(Abs(), root, entries[i..], done)
      {
        ghost var events := Visit(Abs(), root, entries[i]).1;
        CountLoadedAppend(done, events);
        assert entries[i..][0] == entries[i] && entries[i..][1..] == entries[i + 1..];
        var ok := VisitEntry(root, entries[i]);
        loaded := loaded + if ok then 1 else 0;
        done := done + events;
        if status.Died? {
          return;
        }
      }
    }

    method LoadAllPlugins(scans: map<string, Scan>)
      requires !status.Died?
      modifies this`plugins, this`manifests, this`sysPath, this`status, this`out
      ensures var (s', events) := LoadRoots(old(Abs()), old(searchPaths), scans, []);
              && Abs() == s'
              && out == old(out) + events + (if s'.status.Died? then [] else [LoadComplete(CountLoaded(events))])
    {
      ghost var emitted: seq<Event> := [];
      var loadedNow := 0;
      for i := 0 to |searchPaths|
        invariant !status.Died?
        invariant out == old(out) + emitted && loadedNow == CountLoaded(emitted)
        invariant LoadRoots(old(Abs()), searchPaths, scans, []) == LoadRoots(Abs(), searchPaths[i..], scans, emitted)
      {
        ghost var events := LoadRoot(Abs(), searchPaths[i], scans).1;
        CountLoadedAppend(emitted, events);
        LoadRootsStep(Abs(), searchPaths, i, scans, emitted);
        var loaded := LoadDirectory(searchPaths[i], scans);
        loadedNow := loadedNow + loaded;
        emitted := emitted + events;
        if status.Died? {
          return;
        }
      }
      Emit(LoadComplete(loadedNow));
    }

    method List(attrs: map<Instance, Info>)
      modifies this`status, this`out
      ensures var (events, whole) := Inventory(plugins, manifests, attrs, []);
              && out == old(out) + events + (if whole then [PluginsComplete(|plugins|)] else [])
              && status == if whole then old(status) else Died
    {
      ghost var done: seq<Event> := [];
      for i := 0 to |plugins|
        invariant status == old(status) && out == old(out) + done
        invariant Inventory(plugins, manifests, attrs, []) == Inventory(plugins[i..], manifests, attrs, done)
      {
        assert plugins[i..][0] == plugins[i] && plugins[i..][1..] == plugins[i + 1..];
        var Loaded(id, instance) := plugins[i];
        if instance !in attrs {
          status := Died;
          return;
        }
        var event := PluginListed(id, attrs[instance], if id in manifests then manifests[id] else "");
        Emit(event);
        done := done + [event];
      }
      Emit(PluginsComplete(|plugins|));
    }

    method AddPath(path: Option<string>, resolved: Option<string>)
      modifies this`searchPaths, this`status, this`out
      ensures var (s', events) := Process(old(Abs()), AddSearchPath(path, resolved));
              Abs() == s' && out == old(out) + events
    {
      if path.None? || path.value == "" {
        Emit(ErrorEvent("add_search_path", "missing path"));
      } else if resolved.None? {
        status := Died;
      } else {
        if resolved.value !in searchPaths {
          searchPaths := searchPaths + [resolved.value];
        }
        Emit(PathAdded);
      }
    }

    method DispatchAction(id: Member, action: Member, outcome: Outcome)
      modifies this`status, this`out
      ensures var (s', events) := Process(old(Abs()), Dispatch(id, action, outcome));
              Abs() == s' && out == old(out) + events
    {
      if id.NoString? || action.NoString? {
        Emit(DispatchError(TextOf(id), TextOf(action), "missing plugin_id / action_id"));
      } else if id.value !in Ids(plugins) {
        Emit(DispatchError(id.value, action.value, "unknown plugin"));
      } else {
        match outcome
        case Returns => Emit(Dispatched(id.value, action.value));
        case Fails(message) => Emit(DispatchError(id.value, action.value, message));
        case Escapes => status := Died;
      }
    }

    /** One turn of `_main`'s loop. */
    method HandleLine(line: Line)
      requires status.Running?
      modifies this
      ensures var (s', events) := Process(old(Abs()), line);
              Abs() == s' && out == old(out) + events
    {
      match line
      case Blank =>
      case BadJson(why) => Emit(ErrorEvent("<parse>", why));
      case Unparsable => status := Died;
      case Undecodable => status := Died;
      case NotAnObject => Emit(ErrorEvent("<parse>", "not a JSON object"));
      case AddSearchPath(path, resolved) => AddPath(path, resolved);
      case LoadAll(scans) => LoadAllPlugins(scans);
      case ListPlugins(attrs) => List(attrs);
      case Dispatch(id, action, outcome) => DispatchAction(id, action, outcome);
      case Shutdown =>
        Emit(ShutdownAck);
        status := Exited;
      case CrashForTest =>
        Emit(Crashing);
        status := Exited;
      case UnknownOp(op) => Emit(ErrorEvent(op, "unknown op"));
    }
  }

  lemma {:induction false} CountLoadedAppend(a: seq<Event>, b: seq<Event>)
    ensures CountLoaded(a + b) == CountLoaded(a) + CountLoaded(b)
  {
    if a == [] {
      assert a + b == b;
    } else {
      assert (a + b)[1..] == a[1..] + b;
      CountLoadedAppend(a[1..], b);
    }
  }

  // ---- Uncaught exceptions ---------------------------------------------------------------------------

  /** Visiting the entry raises something nothing catches. */
  predicate Faulty(stdlib: set<string>, e: DirEntry) {
    match e.kind
    case Other => false
    case Unreadable => true
    case Plugin =>
      && IsSafePluginId(e.name) && e.name !in stdlib
      && (e.imported.Raises?
          || (&& e.imported.Imported? && e.imported.id.Some? && IsSafePluginId(e.imported.id.value)
              && (e.manifestPath.None? || e.imported.attributes.None?)))
  }

  predicate FaultyRoot(stdlib: set<string>, root: string, scans: map<string, Scan>) {
    && root in scans && !scans[root].NotADirectory?
    && (scans[root].Unlistable? || exists e | e in scans[root].entries :: Faulty(stdlib, e))
  }

  /** Handling the line meets an exception nothing catches, in terms of the inputs alone. */
  predicate Uncaught(s: State, line: Line) {
    match line
    case Unparsable => true
    case Undecodable => true
    case AddSearchPath(path, resolved) => path.Some? && path.value != "" && resolved.None?
    case LoadAll(scans) => exists root | root in s.searchPaths :: FaultyRoot(s.stdlib, root, scans)
    case ListPlugins(attrs) => exists p | p in s.plugins :: p.instance !in attrs
    case Dispatch(id, action, outcome) => id.Text? && action.Text? && id.value in Ids(s.plugins) && outcome.Escapes?
    case _ => false
  }

  const NO_INFO := Info("", "", "", [])

  /** The same inputs with every fault repaired. */
  function MendEntry(e: DirEntry): DirEntry {
    DirEntry(e.name,
             if e.kind.Unreadable? then Other else e.kind,
             match e.imported
             case Raises => NoPluginClass
             case Imported(id, instance, None) => Imported(id, instance, Some(NO_INFO))
             case _ => e.imported,
             if e.manifestPath.None? then Some("") else e.manifestPath)
  }

  function MendEntries(entries: seq<DirEntry>): seq<DirEntry> {
    if entries == [] then [] else [MendEntry(entries[0])] + MendEntries(entries[1..])
  }

  function MendScan(scan: Scan): Scan {
    match scan
    case NotADirectory => NotADirectory
    case Unlistable => Entries([])
    case Entries(entries) => Entries(MendEntries(entries))
  }

  function MendScans(scans: map<string, Scan>): map<string, Scan> {
    map root | root in scans :: MendScan(scans[root])
  }

  function MendReads(plugins: seq<Loaded>, attrs: map<Instance, Info>): map<Instance, Info> {
    if plugins == [] then attrs
    else
      var rest := MendReads(plugins[1..], attrs);
      if plugins[0].instance in rest then rest else rest[plugins[0].instance := NO_INFO]
  }

  function Mend(s: State, line: Line): Line {
    match line
    case Unparsable => BadJson("")
    case Undecodable => BadJson("")
    case AddSearchPath(path, None) => AddSearchPath(path, path)
    case LoadAll(scans) => LoadAll(MendScans(scans))
    case ListPlugins(attrs) => ListPlugins(MendReads(s.plugins, attrs))
    case Dispatch(id, action, Escapes) => Dispatch(id, action, Returns)
    case _ => line
  }

  lemma TryLoadRaises(s: State, root: string, e: DirEntry)
    requires !s.status.Died?
    ensures var (s', attempt) := TryLoad(s, root, e);
            && s'.stdlib == s.stdlib
            && (s'.status.Died? <==> attempt.Raised?)
            && (attempt.Raised? || (attempt.Registered? && e.imported.attributes.None?)
                <==> Faulty(s.stdlib, e.(kind := Plugin)))
  {
  }

  lemma VisitFaulty(s: State, root: string, e: DirEntry)
    requires !s.status.Died?
    ensures var (s', events) := Visit(s, root, e);
            && (s'.status.Died? <==> Faulty(s.stdlib, e))
            && s'.stdlib == s.stdlib
            && (s'.status.Died? ==> events == [])
            && forall x | x in events :: x.PluginLoaded? || x.PluginError?
  {
    if e.kind.Plugin? {
      TryLoadRaises(s, root, e);
      assert e.(kind := Plugin) == e;
    }
  }

  lemma VisitMended(s: State, root: string, e: DirEntry)
    requires !s.status.Died?
    ensures !Faulty(s.stdlib, e) ==> Visit(s, root, MendEntry(e)) == Visit(s, root, e)
    ensures !Faulty(s.stdlib, MendEntry(e))
  {
  }

  predicate LoadsOnly(events: seq<Event>) {
    forall e | e in events :: e.PluginLoaded? || e.PluginError?
  }

  /** What loading emits of a part of the input, as against the same part mended. */
  ghost predicate CutWhere(faulty: bool, s: State, after: (State, seq<Event>), mended: (State, seq<Event>)) {
    && (after.0.status.Died? <==> faulty)
    && !mended.0.status.Died?
    && after.0.stdlib == s.stdlib && mended.0.stdlib == s.stdlib
    && LoadsOnly(after.1) && LoadsOnly(mended.1)
    && (if faulty then after.1 <= mended.1 else after == mended)
  }

  lemma {:induction false} EntriesCut(s: State, root: string, entries: seq<DirEntry>, emitted: seq<Event>)
    requires !s.status.Died? && LoadsOnly(emitted)
    ensures CutWhere(exists e | e in entries :: Faulty(s.stdlib, e), s,
                     LoadEntries(s, root, entries, emitted), LoadEntries(s, root, MendEntries(entries), emitted))
    decreases |entries|
  {
    if entries != [] {
      var e, rest := entries[0], entries[1..];
      VisitFaulty(s, root, e);
      VisitMended(s, root, e);
      assert MendEntries(entries)[1..] == MendEntries(rest);
      assert forall x :: x in entries <==> x == e || x in rest;
      var (s1, events) := Visit(s, root, e);
      if Faulty(s.stdlib, e) {
        MendedEntriesLoad(s, root, entries, emitted);
      } else {
        EntriesCut(s1, root, rest, emitted + events);
      }
    }
  }

  lemma {:induction false} MendedEntriesLoad(s: State, root: string, entries: seq<DirEntry>, emitted: seq<Event>)
    requires !s.status.Died? && LoadsOnly(emitted)
    ensures var mended := LoadEntries(s, root, MendEntries(entries), emitted);
            && !mended.0.status.Died? && mended.0.stdlib == s.stdlib
            && LoadsOnly(mended.1) && emitted <= mended.1
    decreases |entries|
  {
    if entries != [] {
      VisitMended(s, root, entries[0]);
      VisitFaulty(s, root, MendEntry(entries[0]));
      assert MendEntries(entries)[1..] == MendEntries(entries[1..]);
      var (s1, events) := Visit(s, root, MendEntry(entries[0]));
      MendedEntriesLoad(s1, root, entries[1..], emitted + events);
    }
  }

  lemma AnyRootFaulty(stdlib: set<string>, roots: seq<string>, scans: map<string, Scan>)
    requires roots != []
    ensures (exists root | root in roots :: FaultyRoot(stdlib, root, scans)) <==>
            FaultyRoot(stdlib, roots[0], scans) || exists root | root in roots[1..] :: FaultyRoot(stdlib, root, scans)
  {
    ConsOfTail(roots);
  }

  lemma RootCut(s: State, root: string, scans: map<string, Scan>)
    requires !s.status.Died?
    ensures CutWhere(FaultyRoot(s.stdlib, root, scans), s,
                     LoadRoot(s, root, scans), LoadRoot(s, root, MendScans(scans)))
  {
    if root in scans && scans[root].Entries? {
      EntriesCut(s, root, scans[root].entries, []);
    }
  }

  lemma {:induction false} MendedRootsLoad(s: State, roots: seq<string>, scans: map<string, Scan>, emitted: seq<Event>)
    requires !s.status.Died? && LoadsOnly(emitted)
    ensures var mended := LoadRoots(s, roots, MendScans(scans), emitted);
            && !mended.0.status.Died? && mended.0.stdlib == s.stdlib
            && LoadsOnly(mended.1) && emitted <= mended.1
    decreases |roots|
  {
    if roots != [] {
      RootCut(s, roots[0], scans);
      var (s1, events) := LoadRoot(s, roots[0], MendScans(scans));
      MendedRootsLoad(s1, roots[1..], scans, emitted + events);
    }
  }

  lemma {:induction false} RootsCut(s: State, roots: seq<string>, scans: map<string, Scan>, emitted: seq<Event>)
    requires !s.status.Died? && LoadsOnly(emitted)
    ensures CutWhere(exists root | root in roots :: FaultyRoot(s.stdlib, root, scans), s,
                     LoadRoots(s, roots, scans, emitted), LoadRoots(s, roots, MendScans(scans), emitted))
    decreases |roots|
  {
    if roots != [] {
      var root, rest := roots[0], roots[1..];
      AnyRootFaulty(s.stdlib, roots, scans);
      RootCut(s, root, scans);
      var (s1, events) := LoadRoot(s, root, scans);
      if FaultyRoot(s.stdlib, root, scans) {
        var (m1, more) := LoadRoot(s, root, MendScans(scans));
        MendedRootsLoad(m1, rest, scans, emitted + more);
      } else {
        RootsCut(s1, rest, scans, emitted + events);
      }
    }
  }

  predicate Readable(plugins: seq<Loaded>, attrs: map<Instance, Info>) {
    forall p | p in plugins :: p.instance in attrs
  }

  predicate ListsOnly(events: seq<Event>) {
    forall e | e in events :: e.PluginListed?
  }

  lemma {:induction false} InventoryGoesOn(plugins: seq<Loaded>, manifests: map<string, string>,
                                           attrs: map<Instance, Info>, emitted: seq<Event>)
    requires ListsOnly(emitted)
    ensures var (events, whole) := Inventory(plugins, manifests, attrs, emitted);
            emitted <= events && ListsOnly(events) && (whole <==> Readable(plugins, attrs))
    decreases plugins
  {
    if plugins != [] {
      assert forall p :: p in plugins <==> p == plugins[0] || p in plugins[1..];
      var Loaded(id, instance) := plugins[0];
      if instance in attrs {
        var event := PluginListed(id, attrs[instance], if id in manifests then manifests[id] else "");
        InventoryGoesOn(plugins[1..], manifests, attrs, emitted + [event]);
      }
    }
  }

  /** A whole inventory lists each plugin once, in the order of the dictionary. */
  lemma {:induction false} InventoryListsEach(plugins: seq<Loaded>, manifests: map<string, string>,
                                              attrs: map<Instance, Info>, emitted: seq<Event>)
    requires Readable(plugins, attrs)
    ensures var events := Inventory(plugins, manifests, attrs, emitted).0;
            && |events| == |emitted| + |plugins| && emitted <= events
            && forall i | 0 <= i < |plugins| ::
                 var p := plugins[i];
                 events[|emitted| + i] ==
                 PluginListed(p.id, attrs[p.instance], if p.id in manifests then manifests[p.id] else "")
    decreases plugins
  {
    if plugins != [] {
      var Loaded(id, instance) := plugins[0];
      var event := PluginListed(id, attrs[instance], if id in manifests then manifests[id] else "");
      InventoryListsEach(plugins[1..], manifests, attrs, emitted + [event]);
      var events := Inventory(plugins, manifests, attrs, emitted).0;
      forall i | 0 <= i < |plugins|
        ensures var p := plugins[i];
                events[|emitted| + i] ==
                PluginListed(p.id, attrs[p.instance], if p.id in manifests then manifests[p.id] else "")
      {
        if i > 0 {
          assert plugins[1..][i - 1] == plugins[i];
          assert |emitted| + i == |emitted + [event]| + (i - 1);
        }
      }
    }
  }

  lemma {:induction false} InventoryCut(plugins: seq<Loaded>, manifests: map<string, string>,
                                        attrs: map<Instance, Info>, mended: map<Instance, Info>, emitted: seq<Event>)
    requires ListsOnly(emitted)
    requires Readable(plugins, mended) && forall i | i in attrs :: i in mended && mended[i] == attrs[i]
    ensures var (events, whole) := Inventory(plugins, manifests, attrs, emitted);
            var all := Inventory(plugins, manifests, mended, emitted).0;
            if whole then events == all else events <= all
    decreases plugins
  {
    if plugins != [] {
      var Loaded(id, instance) := plugins[0];
      if instance in attrs {
        var event := PluginListed(id, attrs[instance], if id in manifests then manifests[id] else "");
        InventoryCut(plugins[1..], manifests, attrs, mended, emitted + [event]);
      } else {
        InventoryGoesOn(plugins, manifests, mended, emitted);
      }
    }
  }

  lemma {:induction false} MendedReads(plugins: seq<Loaded>, attrs: map<Instance, Info>)
    ensures Readable(plugins, MendReads(plugins, attrs))
    ensures forall i | i in attrs :: i in MendReads(plugins, attrs) && MendReads(plugins, attrs)[i] == attrs[i]
  {
    if plugins != [] {
      MendedReads(plugins[1..], attrs);
      assert forall p :: p in plugins <==> p == plugins[0] || p in plugins[1..];
    }
  }

  // ---- Self-delimiting segments ----------------------------------------------------------------------

  /** Whether the host, having sent `line`, stops reading at `event`. */
  predicate Terminates(line: Line, event: Event) {
    match line
    case LoadAll(_) => event.LoadComplete?
    case ListPlugins(_) => event.PluginsComplete?
    case _ => true
  }

  /** A segment ends at its first terminator. */
  predicate IsSegment(line: Line, events: seq<Event>) {
    && events != []
    && Terminates(line, events[|events| - 1])
    && forall i | 0 <= i < |events| - 1 :: !Terminates(line, events[i])
  }

  predicate NoTerminator(line: Line, events: seq<Event>) {
    forall e | e in events :: !Terminates(line, e)
  }

  lemma TerminatorLast(line: Line, events: seq<Event>, last: Event)
    requires Terminates(line, last) && NoTerminator(line, events)
    ensures IsSegment(line, events + [last])
  {
    assert forall i | 0 <= i < |events| :: (events + [last])[i] in events;
  }

  lemma NoTerminatorNoSegment(line: Line, events: seq<Event>)
    requires NoTerminator(line, events)
    ensures !IsSegment(line, events)
  {
    assert events != [] ==> events[|events| - 1] in events;
  }

  /** The line is answered by one whole segment, or else by the beginning of the one the
      mended line is answered by, in which nothing ends it. */
  ghost predicate AnsweredUnless(uncaught: bool, line: Line, events: seq<Event>, whole: seq<Event>) {
    && IsSegment(line, whole)
    && (if uncaught then events < whole && NoTerminator(line, events) else events == whole)
  }

  lemma LoadAllAnswers(s: State, scans: map<string, Scan>)
    requires !s.status.Died?
    ensures var line := LoadAll(scans);
            && (Process(s, line).0.status.Died? <==> Uncaught(s, line))
            && AnsweredUnless(Uncaught(s, line), line, Process(s, line).1, Process(s, Mend(s, line)).1)
  {
    RootsCut(s, s.searchPaths, scans, []);
    var events := LoadRoots(s, s.searchPaths, MendScans(scans), []).1;
    TerminatorLast(LoadAll(scans), events, LoadComplete(CountLoaded(events)));
  }

  lemma ListAnswers(s: State, attrs: map<Instance, Info>)
    requires s.status.Running?
    ensures var line := ListPlugins(attrs);
            && (Process(s, line).0.status.Died? <==> Uncaught(s, line))
            && AnsweredUnless(Uncaught(s, line), line, Process(s, line).1, Process(s, Mend(s, line)).1)
  {
    var mended := MendReads(s.plugins, attrs);
    MendedReads(s.plugins, attrs);
    InventoryGoesOn(s.plugins, s.manifests, attrs, []);
    InventoryGoesOn(s.plugins, s.manifests, mended, []);
    InventoryCut(s.plugins, s.manifests, attrs, mended, []);
    var events := Inventory(s.plugins, s.manifests, mended, []).0;
    TerminatorLast(ListPlugins(attrs), events, PluginsComplete(|s.plugins|));
  }

  lemma ShortLineAnswers(s: State, line: Line)
    requires s.status.Running? && !line.Blank? && !line.LoadAll? && !line.ListPlugins?
    ensures Process(s, line).0.status.Died? <==> Uncaught(s, line)
    ensures AnsweredUnless(Uncaught(s, line), line, Process(s, line).1, Process(s, Mend(s, line)).1)
  {
  }

  /** Main result for one line: the child dies of it if and only if an exception nothing
      catches occurs while it is handled. If none does, the line is answered by exactly one
      whole segment; if one does, by the beginning, cut before its end, of the segment it
      would be answered by without the faults, and the reader finds no end in it. */
  lemma OneSegmentUnlessUncaught(s: State, line: Line)
    requires s.status.Running? && !line.Blank?
    ensures Process(s, line).0.status.Died? <==> Uncaught(s, line)
    ensures AnsweredUnless(Uncaught(s, line), line, Process(s, line).1, Process(s, Mend(s, line)).1)
    ensures IsSegment(line, Process(s, line).1) <==> !Uncaught(s, line)
  {
    match line
    case LoadAll(scans) => LoadAllAnswers(s, scans);
    case ListPlugins(attrs) => ListAnswers(s, attrs);
    case _ => ShortLineAnswers(s, line);
    if Uncaught(s, line) {
      NoTerminatorNoSegment(line, Process(s, line).1);
    }
  }

  /** The documented promise that no op is silent fails: a search path with a NUL in it, which
      cannot be resolved, is answered by nothing, and no op after it is answered either. */
  lemma NulPathIsNeverAnswered(stdlib: set<string>, later: seq<Line>)
    ensures var nul := AddSearchPath(Some("\0"), None);
            && Segments(Init(stdlib), [nul] + later) == [[]]
            && RunState(Init(stdlib), [nul] + later).status.Died?
  {
    var nul := AddSearchPath(Some("\0"), None);
    var lines := [nul] + later;
    assert lines[1..] == later;
    assert Process(Init(stdlib), nul) == (Dead(Init(stdlib)), []);
  }

  /** The segments of a run: one per non-blank line, until the child is gone; the
      last one may be cut. */
  function Segments(s: State, lines: seq<Line>): seq<seq<Event>>
    decreases lines
  {
    if lines == [] || !s.status.Running? then []
    else
      var (s', events) := Process(s, lines[0]);
      (if lines[0].Blank? then [] else [events]) + Segments(s', lines[1..])
  }

  /** The ops a run takes up: its non-blank lines, until the child is gone. */
  function Taken(s: State, lines: seq<Line>): seq<Line>
    decreases lines
  {
    if lines == [] || !s.status.Running? then []
    else (if lines[0].Blank? then [] else [lines[0]]) + Taken(Process(s, lines[0]).0, lines[1..])
  }

  /** Some line taken up meets an exception nothing catches. */
  predicate SomeUncaught(s: State, lines: seq<Line>)
    decreases lines
  {
    lines != [] && s.status.Running? && (Uncaught(s, lines[0]) || SomeUncaught(Process(s, lines[0]).0, lines[1..]))
  }

  function Flatten(segments: seq<seq<Event>>): seq<Event> {
    if segments == [] then [] else segments[0] + Flatten(segments[1..])
  }

  /** The position after the first terminator of `line`. */
  function SegmentEnd(line: Line, events: seq<Event>): (r: Option<nat>)
    ensures r.Some? ==> 0 < r.value <= |events|
  {
    if events == [] then None
    else if Terminates(line, events[0]) then Some(1)
    else match SegmentEnd(line, events[1..]) case None => None case Some(n) => Some(n + 1)
  }

  /** The host's reader: knowing the ops it sent, it cuts the stream at each op's terminator. */
  function ReadSegments(ops: seq<Line>, events: seq<Event>): Option<seq<seq<Event>>>
    decreases ops
  {
    if ops == [] then (if events == [] then Some([]) else None)
    else
      match SegmentEnd(ops[0], events)
      case None => None
      case Some(n) =>
        match ReadSegments(ops[1..], events[n..])
        case None => None
        case Some(rest) => Some([events[..n]] + rest)
  }

  lemma {:induction false} SegmentEndsThere(line: Line, segment: seq<Event>, rest: seq<Event>)
    requires IsSegment(line, segment)
    ensures SegmentEnd(line, segment + rest) == Some(|segment|)
    decreases |segment|
  {
    if |segment| > 1 {
      assert (segment + rest)[1..] == segment[1..] + rest;
      SegmentEndsThere(line, segment[1..], rest);
    }
  }

  lemma {:induction false} NoEndFound(line: Line, events: seq<Event>)
    requires NoTerminator(line, events)
    ensures SegmentEnd(line, events) == None
  {
    if events != [] {
      assert events[0] in events;
      NoEndFound(line, events[1..]);
    }
  }

  lemma RunOfOneMore(s: State, line: Line, rest: seq<Line>)
    requires s.status.Running?
    ensures var lines := [line] + rest;
            var (s', events) := Process(s, line);
            && Segments(s, lines) == (if line.Blank? then [] else [events]) + Segments(s', rest)
            && Taken(s, lines) == (if line.Blank? then [] else [line]) + Taken(s', rest)
            && (SomeUncaught(s, lines) <==> Uncaught(s, line) || SomeUncaught(s', rest))
            && RunState(s, lines) == RunState(s', rest)
  {
    assert ([line] + rest)[1..] == rest;
  }

  /** A stream that starts with a whole segment is cut there, and the rest read on its own. */
  lemma ReadWhole(line: Line, ops: seq<Line>, segment: seq<Event>, rest: seq<Event>)
    requires IsSegment(line, segment)
    ensures ReadSegments([line] + ops, segment + rest) ==
            match ReadSegments(ops, rest) { case None => None case Some(more) => Some([segment] + more) }
  {
    SegmentEndsThere(line, segment, rest);
    assert ([line] + ops)[1..] == ops;
    assert (segment + rest)[..|segment|] == segment && (segment + rest)[|segment|..] == rest;
  }

  lemma FlattenCons(segment: seq<Event>, segments: seq<seq<Event>>)
    ensures Flatten([segment] + segments) == segment + Flatten(segments)
  {
    assert ([segment] + segments)[1..] == segments;
  }

  lemma DeadTakesNothing(s: State, lines: seq<Line>)
    requires !s.status.Running?
    ensures Segments(s, lines) == [] && Taken(s, lines) == [] && !SomeUncaught(s, lines) && RunState(s, lines) == s
  {
  }

  /** What the reader makes of a run: all its segments, or nothing but a wait for the end
      of the last one. */
  ghost predicate ReadsBack(s: State, lines: seq<Line>) {
    var segments, ops := Segments(s, lines), Taken(s, lines);
    && |segments| == |ops|
    && (RunState(s, lines).status.Died? <==> SomeUncaught(s, lines))
    && ReadSegments(ops, Flatten(segments)) == (if SomeUncaught(s, lines) then None else Some(segments))
    && (SomeUncaught(s, lines) ==>
          && segments != []
          && NoTerminator(ops[|ops| - 1], segments[|segments| - 1])
          && ReadSegments(ops[..|ops| - 1], Flatten(segments[..|segments| - 1])) == Some(segments[..|segments| - 1]))
  }

  lemma CutEndsTheRun(s: State, line: Line, rest: seq<Line>)
    requires s.status.Running? && !line.Blank? && Uncaught(s, line)
    ensures ReadsBack(s, [line] + rest)
  {
    OneSegmentUnlessUncaught(s, line);
    RunOfOneMore(s, line, rest);
    var (s', events) := Process(s, line);
    DeadTakesNothing(s', rest);
    NoEndFound(line, events);
    var segments, ops := Segments(s, [line] + rest), Taken(s, [line] + rest);
    assert segments == [events] && ops == [line];
    FlattenCons(events, []);
    assert events + [] == events;
    assert segments[..0] == [] && ops[..0] == [];
  }

  lemma WholeThenRest(s: State, line: Line, rest: seq<Line>)
    requires s.status.Running? && !line.Blank? && !Uncaught(s, line)
    requires ReadsBack(Process(s, line).0, rest)
    ensures ReadsBack(s, [line] + rest)
  {
    OneSegmentUnlessUncaught(s, line);
    RunOfOneMore(s, line, rest);
    var (s', events) := Process(s, line);
    var segments, ops := Segments(s', rest), Taken(s', rest);
    FlattenCons(events, segments);
    ReadWhole(line, ops, events, Flatten(segments));
    if SomeUncaught(s', rest) {
      ReadBeforeTheLast(line, ops, events, segments);
    }
  }

  lemma ReadBeforeTheLast(line: Line, ops: seq<Line>, events: seq<Event>, segments: seq<seq<Event>>)
    requires IsSegment(line, events) && segments != [] && |segments| == |ops|
    requires ReadSegments(ops[..|ops| - 1], Flatten(segments[..|segments| - 1])) == Some(segments[..|segments| - 1])
    ensures ([line] + ops)[|ops|] == ops[|ops| - 1] && ([events] + segments)[|segments|] == segments[|segments| - 1]
    ensures var front, frontOps := ([events] + segments)[..|segments|], ([line] + ops)[..|ops|];
            ReadSegments(frontOps, Flatten(front)) == Some(front)
  {
    var front, frontOps := segments[..|segments| - 1], ops[..|ops| - 1];
    FrontOfCons(events, segments);
    FrontOfCons(line, ops);
    FlattenCons(events, front);
    ReadWhole(line, frontOps, events, Flatten(front));
  }

  lemma BlankThenRest(s: State, rest: seq<Line>)
    requires s.status.Running? && ReadsBack(s, rest)
    ensures ReadsBack(s, [Blank] + rest)
  {
    RunOfOneMore(s, Blank, rest);
    assert [] + Segments(s, rest) == Segments(s, rest) && [] + Taken(s, rest) == Taken(s, rest);
  }

  lemma NothingReadsBack(s: State, lines: seq<Line>)
    requires !s.status.Died? && (lines == [] || !s.status.Running?)
    ensures ReadsBack(s, lines)
  {
    assert Segments(s, lines) == [] && Taken(s, lines) == [];
  }

  lemma {:induction false} RunReadsBack(s: State, lines: seq<Line>)
    requires !s.status.Died?
    ensures ReadsBack(s, lines)
    decreases lines
  {
    if lines == [] || !s.status.Running? {
      NothingReadsBack(s, lines);
    } else {
      var line, rest := lines[0], lines[1..];
      assert lines == [line] + rest;
      if line.Blank? {
        RunReadsBack(s, rest);
        BlankThenRest(s, rest);
      } else if Uncaught(s, line) {
        CutEndsTheRun(s, line, rest);
      } else {
        OneSegmentUnlessUncaught(s, line);
        RunReadsBack(Process(s, line).0, rest);
        WholeThenRest(s, line, rest);
      }
    }
  }

  /** Main result: for every sequence of input lines, a reader that stops at each op's
      terminator recovers exactly the segments of the ops taken up if and only if no
      exception nothing catches occurs in the run. If one does, the child is dead, the
      op that met it is the last one taken up, the reader recovers the segments before it
      and finds no end in what it emitted. */
  lemma OutputIsSelfDelimiting(stdlib: set<string>, lines: seq<Line>)
    ensures var s := Init(stdlib);
            var segments := Segments(s, lines);
            && (ReadSegments(Taken(s, lines), Flatten(segments)) == Some(segments) <==> !SomeUncaught(s, lines))
            && ReadsBack(s, lines)
            && (!SomeUncaught(s, lines) ==> forall g | g in segments :: g != [])
  {
    RunReadsBack(Init(stdlib), lines);
    SegmentsNonEmpty(Init(stdlib), lines);
  }

  /** The loop of `_main` over the lines of the input, adding to the events emitted so far. */
  function MainLoop(s: State, lines: seq<Line>, emitted: seq<Event>): (State, seq<Event>)
    decreases lines
  {
    if lines == [] || !s.status.Running? then (s, emitted)
    else
      var (s1, events) := Process(s, lines[0]);
      MainLoop(s1, lines[1..], emitted + events)
  }

  lemma {:induction false} MainLoopEmitsSegments(s: State, lines: seq<Line>, emitted: seq<Event>)
    ensures MainLoop(s, lines, emitted) == (RunState(s, lines), emitted + Flatten(Segments(s, lines)))
    decreases lines
  {
    if lines == [] || !s.status.Running? {
      assert emitted + [] == emitted;
    } else {
      var line, rest := lines[0], lines[1..];
      var (s1, events) := Process(s, line);
      assert lines == [line] + rest;
      RunOfOneMore(s, line, rest);
      MainLoopEmitsSegments(s1, rest, emitted + events);
      if line.Blank? {
        assert [] + Segments(s1, rest) == Segments(s1, rest) && emitted + [] == emitted;
      } else {
        FlattenCons(events, Segments(s1, rest));
        assert emitted + (events + Flatten(Segments(s1, rest))) == emitted + events + Flatten(Segments(s1, rest));
      }
    }
  }

  /** `_main`: the handshake, then the loop, to the end of the input or the child's. */
  method RunMain(stdlib: set<string>, lines: seq<Line>) returns (child: Child)
    ensures fresh(child) && child.Abs() == RunState(Init(stdlib), lines)
    ensures child.out == [Ready] + Flatten(Segments(Init(stdlib), lines))
  {
    child := new Child(stdlib);
    for i := 0 to |lines|
      invariant fresh(child) && child.status.Running?
      invariant MainLoop(Init(stdlib), lines, [Ready]) == MainLoop(child.Abs(), lines[i..], child.out)
    {
      assert lines[i..][0] == lines[i] && lines[i..][1..] == lines[i + 1..];
      child.HandleLine(lines[i]);
      if !child.status.Running? {
        break;
      }
    }
    MainLoopEmitsSegments(Init(stdlib), lines, [Ready]);
  }

  lemma {:induction false} SegmentsNonEmpty(s: State, lines: seq<Line>)
    ensures !SomeUncaught(s, lines) ==> forall g | g in Segments(s, lines) :: g != []
    decreases lines
  {
    if lines != [] && s.status.Running? {
      SegmentsNonEmpty(Process(s, lines[0]).0, lines[1..]);
      if !lines[0].Blank? {
        OneSegmentUnlessUncaught(s, lines[0]);
      }
    }
  }

  // ---- The inventory over a run ---------------------------------------------------------------------------

  ghost predicate DistinctIds(plugins: seq<Loaded>) {
    plugins == [] || (plugins[0].id !in Ids(plugins[1..]) && DistinctIds(plugins[1..]))
  }

  /** Each id once, all within the id grammar, and no manifest without its plugin. */
  ghost predicate Safe(s: State) {
    && DistinctIds(s.plugins)
    && s.manifests.Keys <= Ids(s.plugins)
    && (forall id | id in Ids(s.plugins) :: IsSafePluginId(id))
  }

  /** The two dictionaries have the same keys, each once, all within the id grammar. */
  ghost predicate Valid(s: State) {
    Safe(s) && s.manifests.Keys == Ids(s.plugins)
  }

  /** The ids announced by `plugin_loaded`. */
  function LoadedIds(events: seq<Event>): set<string> {
    set e | e in events && e.PluginLoaded? :: e.id
  }

  /** From `s` to `s'` the plugins announced are the ones registered, unless the child
      dies between registering one and announcing it. */
  ghost predicate Announces(s: State, events: seq<Event>, s': State) {
    && Safe(s')
    && Ids(s.plugins) + LoadedIds(events) <= Ids(s'.plugins)
    && (!s'.status.Died? ==> Valid(s') && Ids(s'.plugins) == Ids(s.plugins) + LoadedIds(events))
  }

  lemma {:induction false} PutPluginIds(plugins: seq<Loaded>, id: string, instance: Instance)
    requires DistinctIds(plugins)
    ensures DistinctIds(PutPlugin(plugins, id, instance))
    ensures Ids(PutPlugin(plugins, id, instance)) == Ids(plugins) + {id}
  {
    var r := PutPlugin(plugins, id, instance);
    if plugins == [] {
      assert r[1..] == [];
    } else {
      assert plugins == [plugins[0]] + plugins[1..];
      assert Ids(plugins) == {plugins[0].id} + Ids(plugins[1..]);
      assert r == [r[0]] + r[1..];
      assert Ids(r) == {r[0].id} + Ids(r[1..]);
      if plugins[0].id == id {
        assert r[1..] == plugins[1..];
      } else {
        PutPluginIds(plugins[1..], id, instance);
        assert r[1..] == PutPlugin(plugins[1..], id, instance);
      }
    }
  }

  lemma LoadedIdsOfOne(event: Event)
    ensures LoadedIds([event]) == if event.PluginLoaded? then {event.id} else {}
  {
    assert forall e :: e in [event] <==> e == event;
  }

  lemma LoadedIdsAppend(a: seq<Event>, b: seq<Event>)
    ensures LoadedIds(a + b) == LoadedIds(a) + LoadedIds(b)
  {
  }

  lemma AnnouncesThen(s: State, first: seq<Event>, s1: State, rest: seq<Event>, s2: State)
    requires Announces(s, first, s1) && !s1.status.Died? && Announces(s1, rest, s2)
    ensures Announces(s, first + rest, s2)
  {
    LoadedIdsAppend(first, rest);
  }

  lemma SameInventory(s: State, s': State, events: seq<Event>)
    requires Valid(s) && s'.plugins == s.plugins && s'.manifests == s.manifests
    requires forall e | e in events :: !e.PluginLoaded?
    ensures Announces(s, events, s')
  {
    assert LoadedIds(events) == {};
  }

  lemma RegisterAnnounces(s: State, id: string, instance: Instance, manifestPath: Option<string>, s': State)
    requires Valid(s) && IsSafePluginId(id)
    requires s'.plugins == PutPlugin(s.plugins, id, instance)
    requires s'.manifests == if manifestPath.None? then s.manifests else s.manifests[id := manifestPath.value]
    ensures Safe(s') && Ids(s'.plugins) == Ids(s.plugins) + {id}
    ensures manifestPath.Some? ==> Valid(s')
  {
    PutPluginIds(s.plugins, id, instance);
  }

  /** A visit that registers: the new state, and what is announced of it. */
  lemma VisitRegisters(s: State, root: string, e: DirEntry)
    requires e.kind.Plugin? && DirnameRejection(s, e.name).None?
    requires e.imported.Imported? && e.imported.id.Some? && IsSafePluginId(e.imported.id.value)
    ensures var (s', events) := Visit(s, root, e);
            var id := e.imported.id.value;
            && s'.plugins == PutPlugin(s.plugins, id, e.imported.instance)
            && s'.manifests == (if e.manifestPath.None? then s.manifests else s.manifests[id := e.manifestPath.value])
            && (if e.manifestPath.None? || e.imported.attributes.None? then s'.status.Died? && events == []
                else events == [PluginLoaded(id, e.imported.attributes.value, e.manifestPath.value)])
  {
  }

  lemma VisitReports(s: State, root: string, e: DirEntry)
    requires !(&& e.kind.Plugin? && DirnameRejection(s, e.name).None?
               && e.imported.Imported? && e.imported.id.Some? && IsSafePluginId(e.imported.id.value))
    ensures var (s', events) := Visit(s, root, e);
            && s'.plugins == s.plugins && s'.manifests == s.manifests
            && forall x | x in events :: !x.PluginLoaded?
  {
  }

  lemma VisitAnnounces(s: State, root: string, e: DirEntry)
    requires Valid(s)
    ensures var (s', events) := Visit(s, root, e);
            Announces(s, events, s')
  {
    var (s', events) := Visit(s, root, e);
    if && e.kind.Plugin? && DirnameRejection(s, e.name).None?
       && e.imported.Imported? && e.imported.id.Some? && IsSafePluginId(e.imported.id.value) {
      VisitRegisters(s, root, e);
      RegisterAnnounces(s, e.imported.id.value, e.imported.instance, e.manifestPath, s');
      if events != [] {
        LoadedIdsOfOne(events[0]);
      }
    } else {
      VisitReports(s, root, e);
      SameInventory(s, s', events);
    }
  }

  lemma {:induction false} LoadEntriesAnnounces(s: State, root: string, entries: seq<DirEntry>,
                                                emitted: seq<Event>, start: State)
    requires Announces(start, emitted, s) && !s.status.Died?
    ensures var (s', events) := LoadEntries(s, root, entries, emitted);
            Announces(start, events, s')
    decreases entries
  {
    if entries != [] {
      var (s1, events) := Visit(s, root, entries[0]);
      VisitAnnounces(s, root, entries[0]);
      AnnouncesThen(start, emitted, s, events, s1);
      if !s1.status.Died? {
        LoadEntriesAnnounces(s1, root, entries[1..], emitted + events, start);
      }
    }
  }

  lemma LoadRootAnnounces(s: State, root: string, scans: map<string, Scan>)
    requires Valid(s) && !s.status.Died?
    ensures var (s', events) := LoadRoot(s, root, scans);
            Announces(s, events, s')
  {
    if root in scans && scans[root].Entries? {
      SameInventory(s, s, []);
      LoadEntriesAnnounces(s, root, scans[root].entries, [], s);
    } else {
      var (s', events) := LoadRoot(s, root, scans);
      SameInventory(s, s', events);
    }
  }

  lemma {:induction false} LoadRootsAnnounces(s: State, roots: seq<string>, scans: map<string, Scan>,
                                              emitted: seq<Event>, start: State)
    requires Announces(start, emitted, s) && !s.status.Died?
    ensures var (s', events) := LoadRoots(s, roots, scans, emitted);
            Announces(start, events, s')
    decreases roots
  {
    if roots != [] {
      var (s1, events) := LoadRoot(s, roots[0], scans);
      LoadRootAnnounces(s, roots[0], scans);
      AnnouncesThen(start, emitted, s, events, s1);
      if !s1.status.Died? {
        LoadRootsAnnounces(s1, roots[1..], scans, emitted + events, start);
      }
    }
  }

  lemma LoadAllAnnounces(s: State, scans: map<string, Scan>)
    requires Valid(s) && s.status.Running?
    ensures var (s', events) := Process(s, LoadAll(scans));
            Announces(s, events, s')
  {
    SameInventory(s, s, []);
    LoadRootsAnnounces(s, s.searchPaths, scans, [], s);
    var (s', events) := LoadRoots(s, s.searchPaths, scans, []);
    if !s'.status.Died? {
      SameInventory(s', s', [LoadComplete(CountLoaded(events))]);
      AnnouncesThen(s, events, s', [LoadComplete(CountLoaded(events))], s');
    }
  }

  lemma OtherOpsAnnounceNothing(s: State, line: Line)
    requires !line.LoadAll?
    ensures var (s', events) := Process(s, line);
            && s'.plugins == s.plugins && s'.manifests == s.manifests
            && forall e | e in events :: !e.PluginLoaded?
  {
    if line.ListPlugins? {
      InventoryGoesOn(s.plugins, s.manifests, line.attrs, []);
    }
  }

  lemma ProcessAnnounces(s: State, line: Line)
    requires Valid(s) && s.status.Running?
    ensures var (s', events) := Process(s, line);
            Announces(s, events, s')
  {
    if line.LoadAll? {
      LoadAllAnnounces(s, line.scans);
    } else {
      OtherOpsAnnounceNothing(s, line);
      var (s', events) := Process(s, line);
      SameInventory(s, s', events);
    }
  }

  function RunState(s: State, lines: seq<Line>): State
    decreases lines
  {
    if lines == [] || !s.status.Running? then s else RunState(Process(s, lines[0]).0, lines[1..])
  }

  /** In every run the ids stay within the grammar, each once; and as long as no exception
      kills the child, plugin and manifest dictionaries have the same keys, which are
      the ids announced as loaded. */
  lemma {:induction false} RunKeepsValid(s: State, lines: seq<Line>)
    requires Valid(s) && !s.status.Died?
    ensures Announces(s, Flatten(Segments(s, lines)), RunState(s, lines))
    decreases lines
  {
    if lines != [] && s.status.Running? {
      var line, rest := lines[0], lines[1..];
      assert lines == [line] + rest;
      RunOfOneMore(s, line, rest);
      var (s', events) := Process(s, line);
      ProcessAnnounces(s, line);
      var more := Segments(s', rest);
      if !s'.status.Died? {
        RunKeepsValid(s', rest);
        AnnouncesThen(s, events, s', Flatten(more), RunState(s', rest));
      } else {
        assert more == [] && events + Flatten(more) == events;
      }
      if line.Blank? {
        assert [] + more == more && events + Flatten(more) == Flatten(more);
      } else {
        FlattenCons(events, more);
      }
    } else {
      SameInventory(s, s, []);
    }
  }

  lemma {:induction false} DistinctIdsCount(plugins: seq<Loaded>)
    requires DistinctIds(plugins)
    ensures |Ids(plugins)| == |plugins|
  {
    if plugins != [] {
      DistinctIdsCount(plugins[1..]);
      assert plugins == [plugins[0]] + plugins[1..];
      assert Ids(plugins) == {plugins[0].id} + Ids(plugins[1..]);
    }
  }

  lemma LoadsAreCounted(s: State, scans: map<string, Scan>)
    requires !s.status.Died? && !Uncaught(s, LoadAll(scans))
    ensures var loads := Process(s, LoadAll(scans)).1;
            loads != [] && loads[|loads| - 1] == LoadComplete(CountLoaded(loads[..|loads| - 1]))
  {
    LoadAllAnswers(s, scans);
    var events := LoadRoots(s, s.searchPaths, scans, []).1;
    assert (events + [LoadComplete(CountLoaded(events))])[..|events|] == events;
  }

  lemma PluginsAreCounted(s: State, attrs: map<Instance, Info>)
    requires !Uncaught(s, ListPlugins(attrs))
    ensures var listing := Process(s, ListPlugins(attrs)).1;
            listing != [] && listing[|listing| - 1] == PluginsComplete(|s.plugins|)
  {
    InventoryGoesOn(s.plugins, s.manifests, attrs, []);
  }

  /** Main result: after any run the child did not die of, `load_complete` counts the
      segment's `plugin_loaded` events and `plugins_complete` the distinct ids loaded so far,
      where they are emitted at all; and the plugin and manifest dictionaries have the
      same keys, all within the id grammar. */
  lemma CountsAreExact(stdlib: set<string>, lines: seq<Line>, scans: map<string, Scan>, attrs: map<Instance, Info>)
    requires !RunState(Init(stdlib), lines).status.Died?
    ensures var s := RunState(Init(stdlib), lines);
            var loads := Process(s, LoadAll(scans)).1;
            var listing := Process(s, ListPlugins(attrs)).1;
            && Valid(s)
            && (!Uncaught(s, LoadAll(scans)) ==>
                  loads != [] && loads[|loads| - 1] == LoadComplete(CountLoaded(loads[..|loads| - 1])))
            && (!Uncaught(s, ListPlugins(attrs)) ==>
                  && listing != []
                  && listing[|listing| - 1] == PluginsComplete(|LoadedIds(Flatten(Segments(Init(stdlib), lines)))|))
  {
    var s := RunState(Init(stdlib), lines);
    assert Ids(Init(stdlib).plugins) == {};
    RunKeepsValid(Init(stdlib), lines);
    DistinctIdsCount(s.plugins);
    if !Uncaught(s, LoadAll(scans)) {
      LoadsAreCounted(s, scans);
    }
    if !Uncaught(s, ListPlugins(attrs)) {
      PluginsAreCounted(s, attrs);
    }
  }
}
