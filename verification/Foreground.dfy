/** The foreground-application pipeline: staged focus from the compositor, the trailing-edge
    debounce, and the launch/terminate fan-out with its profile auto-switch. */
module Foreground {
  import opened Seqs
  import opened Timing
  import opened Wrappers

  type HandleId = nat
  type UInt32 = n: int | 0 <= n < 0x1_0000_0000

  /** `kActiveWindowDebounceMs`. */
  const DEBOUNCE_MS := 180

  /** The protocol's `activated` state value. */
  const STATE_ACTIVATED: UInt32 := 2

  datatype Info = Info(appId: string, title: string)

  /** `WlrToplevelHandle`: `pendingActivated` is staged, `activated` committed by `done`. */
  datatype Handle = Handle(appId: string, title: string, activated: bool, pendingActivated: bool)

  const NEW_HANDLE := Handle("", "", false, false)

  type Handles = map<HandleId, Handle>

  /** The state of the debouncer; `due` is the time its timer fires. `listening`: a callback is set. */
  datatype Debouncer = Debouncer(pending: Option<Info>, last: Option<string>, due: Option<int>, listening: bool)

  datatype Notice = Launch(app: string) | Terminate(app: string)

  /** A profile becoming active by hand, or an automatic call of `loadProfileById`, which may fail. */
  datatype Switch = ByHand(profile: string) | Auto(profile: string, loaded: bool)

  /** `m_lastForegroundApp`, the active profile, and what was sent and switched so far. */
  datatype App = App(lastForeground: string, activeProfile: string, word: seq<Notice>, switches: seq<Switch>)

  /** A focus submitted to the debouncer, or delivered by it to the callback. */
  datatype Focus = Submitted(time: int, info: Info) | Delivered(time: int, info: Info)

  datatype State = State(now: int, handles: Handles, deb: Debouncer, app: App, foci: seq<Focus>)

  function Init(now: int, profile: string): State {
    State(now, map[], Debouncer(None, None, None, false), App("", profile, [], []), [])
  }

  /** `pick` is the activated handle the iteration over the unordered map meets first; the
      profile `resolved` for the app, and whether loading it works, come from the profile
      controller. */
  datatype Step =
    | Toplevel(id: HandleId) | AppId(id: HandleId, name: string) | Title(id: HandleId, name: string)
    | StateEvent(id: HandleId, values: seq<UInt32>)
    | Done(id: HandleId, pick: Option<HandleId>) | Closed(id: HandleId, pick: Option<HandleId>)
    | Finished | Start | Stop | Timeout(resolved: string, loads: bool) | SelectProfile(profile: string) | Tick(ms: nat)

  // ---- What each step does -----------------------------------------------------------------------

  predicate IsPick(handles: Handles, pick: Option<HandleId>) {
    match pick
    case Some(id) => id in handles && handles[id].activated
    case None => forall id | id in handles :: !handles[id].activated
  }

  function Commit(handles: Handles, id: HandleId): Handles
    requires id in handles
  {
    handles[id := handles[id].(activated := handles[id].pendingActivated)]
  }

  /** What `recomputeFocus` submits: nothing without an activated handle or without an app id. */
  function FocusOf(handles: Handles, pick: Option<HandleId>): Option<Info> {
    if pick.None? || pick.value !in handles || handles[pick.value].appId == "" then None
    else Some(Info(handles[pick.value].appId, handles[pick.value].title))
  }

  function Submit(d: Debouncer, focus: Option<Info>, now: int): Debouncer {
    if focus.None? then d else d.(pending := focus, due := Some(now + DEBOUNCE_MS))
  }

  predicate Emits(d: Debouncer) {
    d.pending.Some? && d.last != Some(d.pending.value.appId)
  }

  function Fired(d: Debouncer): Debouncer {
    Debouncer(None, if d.pending.Some? then Some(d.pending.value.appId) else d.last, None, d.listening)
  }

  function Notices(was: string, app: string): seq<Notice> {
    if app == was then []
    else (if was != "" then [Terminate(was)] else []) + (if app != "" then [Launch(app)] else [])
  }

  /** The `onChange` callback. */
  function Changed(a: App, info: Info, resolved: string, loads: bool): App {
    var switching := resolved != "" && resolved != a.activeProfile;
    App(info.appId,
        if switching && loads then resolved else a.activeProfile,
        a.word + Notices(a.lastForeground, info.appId),
        if switching then a.switches + [Auto(resolved, loads)] else a.switches)
  }

  function Recompute(s: State, handles: Handles, pick: Option<HandleId>): State {
    var focus := FocusOf(handles, pick);
    s.(handles := handles,
       deb := Submit(s.deb, focus, s.now),
       foci := if focus.Some? then s.foci + [Submitted(s.now, focus.value)] else s.foci)
  }

  function Fire(s: State, resolved: string, loads: bool): State {
    if Emits(s.deb) && s.deb.listening then
      s.(deb := Fired(s.deb),
         app := Changed(s.app, s.deb.pending.value, resolved, loads),
         foci := s.foci + [Delivered(s.now, s.deb.pending.value)])
    else s.(deb := Fired(s.deb))
  }

  /** Events reach live handles only; timers fire within their slack. */
  ghost predicate Enabled(s: State, a: Step, slack: Slack) {
    match a
    case AppId(id, _) => id in s.handles
    case Title(id, _) => id in s.handles
    case StateEvent(id, _) => id in s.handles
    case Done(id, pick) => id in s.handles && IsPick(Commit(s.handles, id), pick)
    case Closed(id, pick) => id in s.handles && IsPick(s.handles - {id}, pick)
    case Timeout(_, _) => s.deb.due.Some? && s.deb.due.value <= s.now + slack.early
    case Tick(ms) => s.deb.due.Some? ==> s.now + ms <= s.deb.due.value + slack.late
    case _ => true
  }

  function HandleStep(handles: Handles, a: Step): Handles {
    match a
    case Toplevel(id) => if id in handles then handles else handles[id := NEW_HANDLE]
    case AppId(id, name) => if id in handles then handles[id := handles[id].(appId := name)] else handles
    case Title(id, name) => if id in handles then handles[id := handles[id].(title := name)] else handles
    case StateEvent(id, values) =>
      if id in handles then handles[id := handles[id].(pendingActivated := STATE_ACTIVATED in values)] else handles
    case Done(id, _) => if id in handles then Commit(handles, id) else handles
    case Closed(id, _) => handles - {id}
    case Finished => map[]
    case _ => handles
  }

  function Apply(s: State, a: Step): State {
    match a
    case Done(_, pick) => Recompute(s, HandleStep(s.handles, a), pick)
    case Closed(_, pick) => Recompute(s, HandleStep(s.handles, a), pick)
    case Start => s.(deb := s.deb.(listening := true))
    case Stop => s.(deb := s.deb.(listening := false))
    case Timeout(resolved, loads) => Fire(s, resolved, loads)
    case SelectProfile(p) => s.(app := s.app.(activeProfile := p, switches := s.app.switches + [ByHand(p)]))
    case Tick(ms) => s.(now := s.now + ms)
    case _ => s.(handles := HandleStep(s.handles, a))
  }

  ghost predicate ValidRun(s: State, steps: seq<Step>, slack: Slack)
    decreases steps
  {
    steps == [] || (Enabled(s, steps[0], slack) && ValidRun(Apply(s, steps[0]), steps[1..], slack))
  }

  function Run(s: State, steps: seq<Step>): State
    decreases steps
  {
    if steps == [] then s else Run(Apply(s, steps[0]), steps[1..])
  }

  // ---- The classes -----------------------------------------------------------------------------------

  class ActiveWindowDebouncer {
    var pending: Info
    var hasPending: bool
    var lastAppId: string
    var hasLast: bool
    var due: Option<int>
    var listening: bool

    ghost function Abs(): Debouncer
      reads this
    {
      Debouncer(if hasPending then Some(pending) else None, if hasLast then Some(lastAppId) else None, due, listening)
    }

    constructor ()
      ensures Abs() == Debouncer(None, None, None, false)
    {
      pending, hasPending, lastAppId, hasLast := Info("", ""), false, "", false;
      due, listening := None, false;
    }

    method SetCallback(listening: bool)
      modifies this
      ensures Abs() == old(Abs()).(listening := listening)
    {
      this.listening := listening;
    }

    method SubmitFocus(info: Info, now: int)
      modifies this
      ensures Abs() == Submit(old(Abs()), Some(info), now)
    {
      pending := info;
      hasPending := true;
      due := Some(now + DEBOUNCE_MS);
    }

    /** The timer's slot; `call` is what the callback, if there is one, is called with. */
    method OnTimeout() returns (call: Option<Info>)
      modifies this
      ensures Abs() == Fired(old(Abs()))
      ensures call == if Emits(old(Abs())) && old(listening) then old(Abs()).pending else None
    {
      due := None;
      if !hasPending {
        return None;
      }
      hasPending := false;
      if hasLast && pending.appId == lastAppId {
        return None;
      }
      hasLast := true;
      lastAppId := pending.appId;
      call := if listening then Some(pending) else None;
    }
  }

  class WlrToplevelManager {
    var handles: Handles
    const debounce: ActiveWindowDebouncer

    constructor (debounce: ActiveWindowDebouncer)
      ensures this.debounce == debounce && handles == map[]
    {
      this.debounce := debounce;
      handles := map[];
    }

    /** `recomputeFocus`; `pick` is the activated handle it finds. */
    method RecomputeFocus(now: int) returns (pick: Option<HandleId>)
      modifies debounce
      ensures IsPick(handles, pick)
      ensures debounce.Abs() == Submit(old(debounce.Abs()), FocusOf(handles, pick), now)
    {
      pick := None;
      if exists id :: id in handles && handles[id].activated {
        var focused :| focused in handles && handles[focused].activated;
        pick := Some(focused);
        var appId := handles[focused].appId;
        if appId == "" {
          return;
        }
        debounce.SubmitFocus(Info(appId, handles[focused].title), now);
      }
    }

    method OnToplevel(id: HandleId)
      modifies this`handles
      ensures handles == HandleStep(old(handles), Toplevel(id))
    {
      if id !in handles {
        handles := handles[id := NEW_HANDLE];
      }
    }

    method OnAppId(id: HandleId, name: string)
      requires id in handles
      modifies this`handles
      ensures handles == HandleStep(old(handles), AppId(id, name))
    {
      handles := handles[id := handles[id].(appId := name)];
    }

    method OnTitle(id: HandleId, name: string)
      requires id in handles
      modifies this`handles
      ensures handles == HandleStep(old(handles), Title(id, name))
    {
      handles := handles[id := handles[id].(title := name)];
    }

    /** The `state` event: looks for the activated value in the array. */
    method OnState(id: HandleId, values: seq<UInt32>)
      requires id in handles
      modifies this`handles
      ensures handles == HandleStep(old(handles), StateEvent(id, values))
    {
      var activated := false;
      for i := 0 to |values|
        invariant !activated && STATE_ACTIVATED !in values[..i]
      {
        if values[i] == STATE_ACTIVATED {
          activated := true;
          break;
        }
      }
      handles := handles[id := handles[id].(pendingActivated := activated)];
    }

    method OnDone(id: HandleId, now: int) returns (pick: Option<HandleId>)
      requires id in handles
      modifies this`handles, debounce
      ensures handles == HandleStep(old(handles), Done(id, pick)) && IsPick(handles, pick)
      ensures debounce.Abs() == Submit(old(debounce.Abs()), FocusOf(handles, pick), now)
    {
      handles := handles[id := handles[id].(activated := handles[id].pendingActivated)];
      pick := RecomputeFocus(now);
    }

    method OnClosed(id: HandleId, now: int) returns (pick: Option<HandleId>)
      requires id in handles
      modifies this`handles, debounce
      ensures handles == HandleStep(old(handles), Closed(id, pick)) && IsPick(handles, pick)
      ensures debounce.Abs() == Submit(old(debounce.Abs()), FocusOf(handles, pick), now)
    {
      handles := handles - {id};
      pick := RecomputeFocus(now);
    }

    method OnFinished()
      modifies this`handles
      ensures handles == HandleStep(old(handles), Finished)
    {
      handles := map[];
    }
  }

  class Application {
    var lastForegroundApp: string
    var activeProfile: string
    var word: seq<Notice>
    var switches: seq<Switch>

    ghost function Abs(): App
      reads this
    {
      App(lastForegroundApp, activeProfile, word, switches)
    }

    constructor (profile: string)
      ensures Abs() == App("", profile, [], [])
    {
      lastForegroundApp, activeProfile, word, switches := "", profile, [], [];
    }

    /** The `onChange` callback. */
    method OnChange(info: Info, resolved: string, loads: bool)
      modifies this
      ensures Abs() == Changed(old(Abs()), info, resolved, loads)
    {
      var appId := info.appId;
      if appId != lastForegroundApp {
        if lastForegroundApp != "" {
          word := word + [Terminate(lastForegroundApp)];
        }
        if appId != "" {
          word := word + [Launch(appId)];
        }
        lastForegroundApp := appId;
      }
      if resolved == "" || resolved == activeProfile {
        return;
      }
      switches := switches + [Auto(resolved, loads)];
      if loads {
        activeProfile := resolved;
      }
    }
  }

  // ---- The word of notifications ------------------------------------------------------------------------

  /** Even places launch an app other than the one before, odd places terminate the one before. */
  predicate InPlace(word: seq<Notice>, i: nat)
    requires i < |word|
  {
    && word[i].app != ""
    && if i % 2 == 1 then word[i] == Terminate(word[i - 1].app)
       else word[i].Launch? && (i > 0 ==> word[i].app != word[i - 1].app)
  }

  /** launch a, terminate a, launch b, terminate b, ... with neighbours a and b different,
      ending with the launch of the open app; no app is open after the empty word. */
  ghost predicate Alternates(word: seq<Notice>) {
    && (word != [] ==> |word| % 2 == 1)
    && forall i | 0 <= i < |word| :: InPlace(word, i)
  }

  function OpenApp(word: seq<Notice>): string {
    if word != [] && word[|word| - 1].Launch? then word[|word| - 1].app else ""
  }

  /** The profile the switches so far have made active. */
  function ActiveAfter(switches: seq<Switch>, profile: string): string {
    if switches == [] then profile
    else
      var before := ActiveAfter(switches[..|switches| - 1], profile);
      match switches[|switches| - 1]
      case ByHand(p) => p
      case Auto(p, loaded) => if loaded then p else before
  }

  /** Every automatic load is of a profile, and not of the active one. */
  ghost predicate NeverReloads(switches: seq<Switch>, profile: string)
    decreases |switches|
  {
    switches == [] ||
    (var front := switches[..|switches| - 1];
     var last := switches[|switches| - 1];
     && NeverReloads(front, profile)
     && (last.Auto? ==> last.profile != "" && last.profile != ActiveAfter(front, profile)))
  }

  ghost predicate AppInv(a: App, profile: string) {
    && Alternates(a.word)
    && a.lastForeground == OpenApp(a.word)
    && NeverReloads(a.switches, profile)
    && a.activeProfile == ActiveAfter(a.switches, profile)
  }

  lemma SwitchPush(switches: seq<Switch>, x: Switch, profile: string)
    requires NeverReloads(switches, profile)
    requires x.Auto? ==> x.profile != "" && x.profile != ActiveAfter(switches, profile)
    ensures NeverReloads(switches + [x], profile)
    ensures ActiveAfter(switches + [x], profile) ==
            if x.ByHand? || x.loaded then x.profile else ActiveAfter(switches, profile)
  {
    assert (switches + [x])[..|switches|] == switches;
  }

  lemma FirstLaunch(app: string)
    requires app != ""
    ensures Alternates([Launch(app)]) && OpenApp([Launch(app)]) == app
  {
  }

  lemma EndsWithLaunch(word: seq<Notice>)
    requires Alternates(word) && word != []
    ensures word[|word| - 1] == Launch(OpenApp(word)) && OpenApp(word) != ""
  {
    assert InPlace(word, |word| - 1);
  }

  lemma NextLaunch(word: seq<Notice>, app: string)
    requires Alternates(word) && word != [] && app != "" && app != OpenApp(word)
    ensures Alternates(word + [Terminate(OpenApp(word)), Launch(app)])
    ensures OpenApp(word + [Terminate(OpenApp(word)), Launch(app)]) == app
  {
    EndsWithLaunch(word);
    var n := |word|;
    var next := word + [Terminate(OpenApp(word)), Launch(app)];
    assert next[n - 1] == Launch(OpenApp(word)) && next[n] == Terminate(OpenApp(word)) && next[n + 1] == Launch(app);
    forall i | 0 <= i < |next|
      ensures InPlace(next, i)
    {
      if i < n {
        assert InPlace(word, i);
      }
    }
  }

  lemma NoticesKeepAlternating(a: App, app: string)
    requires app != "" && Alternates(a.word) && a.lastForeground == OpenApp(a.word)
    ensures Alternates(a.word + Notices(a.lastForeground, app))
    ensures OpenApp(a.word + Notices(a.lastForeground, app)) == app
  {
    if app == a.lastForeground {
      assert a.word + [] == a.word;
    } else if a.word == [] {
      FirstLaunch(app);
      assert a.word + Notices(a.lastForeground, app) == [Launch(app)];
    } else {
      EndsWithLaunch(a.word);
      NextLaunch(a.word, app);
      assert Notices(a.lastForeground, app) == [Terminate(OpenApp(a.word)), Launch(app)];
    }
  }

  lemma ChangeKeepsAppInv(a: App, info: Info, resolved: string, loads: bool, profile: string)
    requires AppInv(a, profile) && info.appId != ""
    ensures AppInv(Changed(a, info, resolved, loads), profile)
  {
    NoticesKeepAlternating(a, info.appId);
    if resolved != "" && resolved != a.activeProfile {
      SwitchPush(a.switches, Auto(resolved, loads), profile);
    }
  }

  // ---- The debounce -------------------------------------------------------------------------------------

  function LastSubmission(foci: seq<Focus>): Option<Focus> {
    if foci == [] then None
    else if foci[|foci| - 1].Submitted? then Some(foci[|foci| - 1])
    else LastSubmission(foci[..|foci| - 1])
  }

  function LastDelivery(foci: seq<Focus>): Option<Focus> {
    if foci == [] then None
    else if foci[|foci| - 1].Delivered? then Some(foci[|foci| - 1])
    else LastDelivery(foci[..|foci| - 1])
  }

  /** Each delivery is of the last submission, at least 180 ms after it, less the earliness. */
  ghost predicate Debounced(foci: seq<Focus>, slack: Slack)
    decreases |foci|
  {
    foci == [] ||
    (var front := foci[..|foci| - 1];
     var last := foci[|foci| - 1];
     && Debounced(front, slack)
     && (last.Delivered? ==>
           && LastSubmission(front).Some?
           && LastSubmission(front).value.info == last.info
           && LastSubmission(front).value.time + DEBOUNCE_MS <= last.time + slack.early))
  }

  /** A submission waits for its timer, which is due 180 ms after it; otherwise the last
      one has been handled. */
  ghost predicate DebInv(s: State, slack: Slack) {
    && Debounced(s.foci, slack)
    && (s.deb.pending.Some? <==> s.deb.due.Some?)
    && match s.deb.pending
       case Some(info) =>
         && info.appId != ""
         && s.now <= s.deb.due.value + slack.late
         && LastSubmission(s.foci) == Some(Submitted(s.deb.due.value - DEBOUNCE_MS, info))
       case None =>
         LastSubmission(s.foci).Some? ==> s.deb.last == Some(LastSubmission(s.foci).value.info.appId)
  }

  lemma FocusPush(foci: seq<Focus>, x: Focus)
    ensures (foci + [x])[..|foci|] == foci
    ensures LastSubmission(foci + [x]) == if x.Submitted? then Some(x) else LastSubmission(foci)
    ensures LastDelivery(foci + [x]) == if x.Delivered? then Some(x) else LastDelivery(foci)
  {
    assert (foci + [x])[..|foci|] == foci;
  }

  lemma SubmitKeepsDebInv(s: State, handles: Handles, pick: Option<HandleId>, slack: Slack)
    requires DebInv(s, slack)
    ensures DebInv(Recompute(s, handles, pick), slack)
  {
    var focus := FocusOf(handles, pick);
    if focus.Some? {
      FocusPush(s.foci, Submitted(s.now, focus.value));
    }
  }

  lemma FireKeepsDebInv(s: State, resolved: string, loads: bool, slack: Slack)
    requires DebInv(s, slack) && s.deb.due.Some? && s.deb.due.value <= s.now + slack.early
    ensures DebInv(Fire(s, resolved, loads), slack)
  {
    FocusPush(s.foci, Delivered(s.now, s.deb.pending.value));
  }

  lemma StepKeepsInv(s: State, a: Step, profile: string, slack: Slack)
    requires DebInv(s, slack) && AppInv(s.app, profile) && Enabled(s, a, slack)
    ensures DebInv(Apply(s, a), slack) && AppInv(Apply(s, a).app, profile)
  {
    match a
    case Done(_, pick) => SubmitKeepsDebInv(s, HandleStep(s.handles, a), pick, slack);
    case Closed(_, pick) => SubmitKeepsDebInv(s, HandleStep(s.handles, a), pick, slack);
    case Timeout(resolved, loads) =>
      FireKeepsDebInv(s, resolved, loads, slack);
      ChangeKeepsAppInv(s.app, s.deb.pending.value, resolved, loads, profile);
    case SelectProfile(p) => SwitchPush(s.app.switches, ByHand(p), profile);
    case _ =>
  }

  lemma {:induction false} RunKeepsInv(s: State, steps: seq<Step>, profile: string, slack: Slack)
    requires DebInv(s, slack) && AppInv(s.app, profile) && ValidRun(s, steps, slack)
    ensures DebInv(Run(s, steps), slack) && AppInv(Run(s, steps).app, profile)
    decreases steps
  {
    if steps != [] {
      StepKeepsInv(s, steps[0], profile, slack);
      RunKeepsInv(Apply(s, steps[0]), steps[1..], profile, slack);
    }
  }

  /** Main result: over any run of compositor events, timer firings, manual selections and
      restarts of the watcher, hosts are told an alternating word of launches and
      terminations, whose open app is `m_lastForegroundApp`; every delivery is of a focus
      that stood for 180 ms, less the earliness; and the auto-switch never loads the profile that is active. */
  lemma EveryRunAlternates(now: int, profile: string, steps: seq<Step>, slack: Slack)
    requires ValidRun(Init(now, profile), steps, slack)
    ensures var s := Run(Init(now, profile), steps);
            && Alternates(s.app.word) && s.app.lastForeground == OpenApp(s.app.word)
            && NeverReloads(s.app.switches, profile)
            && s.app.activeProfile == ActiveAfter(s.app.switches, profile)
            && Debounced(s.foci, slack)
  {
    RunKeepsInv(Init(now, profile), steps, profile, slack);
  }

  // ---- Focus changes only on committed state -------------------------------------------------------------

  /** Whether a handle is alive, what its last `state` event staged, and what its last
      `done` committed, read off the events. */
  predicate Alive(steps: seq<Step>, id: HandleId) {
    if steps == [] then false
    else
      match steps[|steps| - 1]
      case Toplevel(j) => j == id || Alive(steps[..|steps| - 1], id)
      case Closed(j, _) => j != id && Alive(steps[..|steps| - 1], id)
      case Finished => false
      case _ => Alive(steps[..|steps| - 1], id)
  }

  predicate Staged(steps: seq<Step>, id: HandleId) {
    if steps == [] then false
    else
      var before := steps[..|steps| - 1];
      match steps[|steps| - 1]
      case Toplevel(j) => Staged(before, id) && (j != id || Alive(before, id))
      case StateEvent(j, values) => if j == id then STATE_ACTIVATED in values else Staged(before, id)
      case _ => Staged(before, id)
  }

  predicate Committed(steps: seq<Step>, id: HandleId) {
    if steps == [] then false
    else
      var before := steps[..|steps| - 1];
      match steps[|steps| - 1]
      case Toplevel(j) => Committed(before, id) && (j != id || Alive(before, id))
      case Done(j, _) => if j == id then Staged(before, id) else Committed(before, id)
      case _ => Committed(before, id)
  }

  /** The app id and title a handle sent last, and those it had sent by its last `done`,
      read off the events. */
  function Sent(steps: seq<Step>, id: HandleId): Info {
    if steps == [] then Info("", "")
    else
      var before := steps[..|steps| - 1];
      match steps[|steps| - 1]
      case Toplevel(j) => if j == id && !Alive(before, id) then Info("", "") else Sent(before, id)
      case AppId(j, name) => if j == id then Sent(before, id).(appId := name) else Sent(before, id)
      case Title(j, name) => if j == id then Sent(before, id).(title := name) else Sent(before, id)
      case _ => Sent(before, id)
  }

  function CommittedInfo(steps: seq<Step>, id: HandleId): Info {
    if steps == [] then Info("", "")
    else
      var before := steps[..|steps| - 1];
      match steps[|steps| - 1]
      case Toplevel(j) => if j == id && !Alive(before, id) then Info("", "") else CommittedInfo(before, id)
      case Done(j, _) => if j == id then Sent(before, id) else CommittedInfo(before, id)
      case _ => CommittedInfo(before, id)
  }

  /** The last `app_id` event of a handle since its last `done`, and its last `title` event. */
  function NewAppId(steps: seq<Step>, id: HandleId): Option<string> {
    if steps == [] then None
    else
      var before := steps[..|steps| - 1];
      match steps[|steps| - 1]
      case Toplevel(j) => if j == id && !Alive(before, id) then None else NewAppId(before, id)
      case Done(j, _) => if j == id then None else NewAppId(before, id)
      case AppId(j, name) => if j == id then Some(name) else NewAppId(before, id)
      case _ => NewAppId(before, id)
  }

  function NewTitle(steps: seq<Step>, id: HandleId): Option<string> {
    if steps == [] then None
    else
      var before := steps[..|steps| - 1];
      match steps[|steps| - 1]
      case Toplevel(j) => if j == id && !Alive(before, id) then None else NewTitle(before, id)
      case Done(j, _) => if j == id then None else NewTitle(before, id)
      case Title(j, name) => if j == id then Some(name) else NewTitle(before, id)
      case _ => NewTitle(before, id)
  }

  predicate Repeats(news: Option<string>, committed: string) {
    news.None? || news.value == committed
  }

  lemma {:induction false} SentIsNewOrCommitted(steps: seq<Step>, id: HandleId)
    ensures Sent(steps, id).appId ==
            if NewAppId(steps, id).Some? then NewAppId(steps, id).value else CommittedInfo(steps, id).appId
    ensures Sent(steps, id).title ==
            if NewTitle(steps, id).Some? then NewTitle(steps, id).value else CommittedInfo(steps, id).title
    decreases |steps|
  {
    if steps != [] {
      SentIsNewOrCommitted(steps[..|steps| - 1], id);
    }
  }

  lemma {:induction false} RunPush(s: State, steps: seq<Step>, a: Step, slack: Slack)
    ensures Run(s, steps + [a]) == Apply(Run(s, steps), a)
    ensures ValidRun(s, steps + [a], slack) <==> ValidRun(s, steps, slack) && Enabled(Run(s, steps), a, slack)
    decreases steps
  {
    if steps == [] {
      assert [a][1..] == [] && [] + [a] == [a];
    } else {
      assert (steps + [a])[1..] == steps[1..] + [a];
      RunPush(Apply(s, steps[0]), steps[1..], a, slack);
    }
  }

  ghost predicate Tracks(handles: Handles, steps: seq<Step>, id: HandleId) {
    && (id in handles <==> Alive(steps, id))
    && (id in handles ==>
          && handles[id].pendingActivated == Staged(steps, id) && handles[id].activated == Committed(steps, id)
          && Info(handles[id].appId, handles[id].title) == Sent(steps, id))
  }

  lemma TrackPush(handles: Handles, steps: seq<Step>, a: Step, id: HandleId)
    requires Tracks(handles, steps, id)
    requires a.StateEvent? || a.Done? || a.AppId? || a.Title? ==> a.id in handles
    ensures Tracks(HandleStep(handles, a), steps + [a], id)
  {
    assert (steps + [a])[..|steps|] == steps;
  }

  /** The activated flag of a live handle is what its last `state` event before its last
      `done` said: staged states are invisible until then. Its app id and title are those it sent last. */
  lemma {:induction false} ActivationIsCommitted(now: int, profile: string, steps: seq<Step>, id: HandleId,
                                                 slack: Slack)
    requires ValidRun(Init(now, profile), steps, slack)
    ensures Tracks(Run(Init(now, profile), steps).handles, steps, id)
    decreases |steps|
  {
    if steps != [] {
      var before, a := steps[..|steps| - 1], steps[|steps| - 1];
      assert steps == before + [a];
      RunPush(Init(now, profile), before, a, slack);
      ActivationIsCommitted(now, profile, before, id, slack);
      TrackPush(Run(Init(now, profile), before).handles, before, a, id);
    }
  }

  /** A focus is submitted only by a `done` or a `closed`, and then it is the app and title
      of a live toplevel whose committed state is activated; there is one whenever such a toplevel
      is picked and has an app id, and none is picked only where there is none. A timer only delivers. */
  lemma FocusIsCommitted(now: int, profile: string, steps: seq<Step>, a: Step, slack: Slack)
    requires ValidRun(Init(now, profile), steps + [a], slack)
    ensures var s, t := Run(Init(now, profile), steps), Run(Init(now, profile), steps + [a]);
            && (a.Timeout? ==> LastSubmission(t.foci) == LastSubmission(s.foci))
            && (!a.Timeout? && t.foci != s.foci ==>
                  && (a.Done? || a.Closed?) && a.pick.Some? && a.pick.value in t.handles
                  && Committed(steps + [a], a.pick.value)
                  && var h := t.handles[a.pick.value];
                     h.appId != "" && t.foci == s.foci + [Submitted(s.now, Info(h.appId, h.title))])
            && ((a.Done? || a.Closed?) && a.pick.Some? ==>
                  a.pick.value in t.handles && (t.handles[a.pick.value].appId != "" ==> t.foci != s.foci))
            && ((a.Done? || a.Closed?) && a.pick.None? ==>
                  t.foci == s.foci && forall id | id in t.handles :: !Committed(steps + [a], id))
  {
    var s := Run(Init(now, profile), steps);
    RunPush(Init(now, profile), steps, a, slack);
    if (a.Done? || a.Closed?) && a.pick.Some? {
      ActivationIsCommitted(now, profile, steps + [a], a.pick.value, slack);
    } else if a.Done? || a.Closed? {
      forall id | id in Run(Init(now, profile), steps + [a]).handles
        ensures !Committed(steps + [a], id)
      {
        ActivationIsCommitted(now, profile, steps + [a], id, slack);
      }
    } else if a.Timeout? && Emits(s.deb) {
      FocusPush(s.foci, Delivered(s.now, s.deb.pending.value));
    }
  }

  /** The app id and title submitted are the ones of the picked toplevel's last `done` if
      and only if each `app_id` and `title` event it has sent since then, as far as the
      last of each goes, repeats what was committed. When the toplevel's own `done` is
      what submits it, there are no such events. */
  lemma SubmittedInfoIsCommittedWhen(now: int, profile: string, steps: seq<Step>, a: Step, slack: Slack)
    requires ValidRun(Init(now, profile), steps + [a], slack) && !a.Timeout?
    requires Run(Init(now, profile), steps + [a]).foci != Run(Init(now, profile), steps).foci
    ensures (a.Done? || a.Closed?) && a.pick.Some?
    ensures var all, id := steps + [a], a.pick.value;
            var s, t := Run(Init(now, profile), steps), Run(Init(now, profile), all);
            var committed := CommittedInfo(all, id);
            && t.foci == s.foci + [Submitted(s.now, Sent(all, id))]
            && (Sent(all, id) == committed <==>
                  Repeats(NewAppId(all, id), committed.appId) && Repeats(NewTitle(all, id), committed.title))
            && (a == Done(id, a.pick) ==> Sent(all, id) == committed)
  {
    FocusIsCommitted(now, profile, steps, a, slack);
    ActivationIsCommitted(now, profile, steps + [a], a.pick.value, slack);
    SentIsNewOrCommitted(steps + [a], a.pick.value);
    assert (steps + [a])[..|steps|] == steps;
  }

  lemma NamesPush(steps: seq<Step>, a: Step, id: HandleId)
    requires !a.Toplevel? && !a.Closed? && !a.Finished?
    ensures Alive(steps + [a], id) == Alive(steps, id)
    ensures CommittedInfo(steps + [a], id) ==
            if a.Done? && a.id == id then Sent(steps, id) else CommittedInfo(steps, id)
    ensures Sent(steps + [a], id) ==
            if a.AppId? && a.id == id then Sent(steps, id).(appId := a.name)
            else if a.Title? && a.id == id then Sent(steps, id).(title := a.name)
            else Sent(steps, id)
  {
    assert (steps + [a])[..|steps|] == steps;
  }

  lemma OneMoreStep(s: State, steps: seq<Step>, t: State, a: Step, slack: Slack)
    requires ValidRun(s, steps, slack) && Run(s, steps) == t && Enabled(t, a, slack)
    ensures ValidRun(s, steps + [a], slack) && Run(s, steps + [a]) == Apply(t, a)
  {
    RunPush(s, steps, a, slack);
  }

  /** One toplevel that is focused, with its app id committed. */
  const NAMED_RUN: seq<Step> := [Toplevel(1)] + [AppId(1, "a")]
  const FOCUSED_RUN: seq<Step> := NAMED_RUN + [StateEvent(1, [STATE_ACTIVATED])] + [Done(1, Some(1))]

  function NamedState(now: int, profile: string): State {
    Init(now, profile).(handles := map[1 := Handle("a", "", false, false)])
  }

  function FocusedState(now: int, profile: string): State {
    State(now, map[1 := Handle("a", "", true, true)],
          Debouncer(Some(Info("a", "")), None, Some(now + DEBOUNCE_MS), false),
          App("", profile, [], []), [Submitted(now, Info("a", ""))])
  }

  lemma OneToplevelIsNamed(now: int, profile: string, slack: Slack)
    ensures ValidRun(Init(now, profile), NAMED_RUN, slack)
    ensures Run(Init(now, profile), NAMED_RUN) == NamedState(now, profile)
    ensures Sent(NAMED_RUN, 1) == Info("a", "")
  {
    var s := Init(now, profile);
    var first: seq<Step> := [Toplevel(1)];
    assert [] + [Toplevel(1)] == first && first[..0] == [];
    OneMoreStep(s, [], s, Toplevel(1), slack);
    OneMoreStep(s, first, s.(handles := map[1 := NEW_HANDLE]), AppId(1, "a"), slack);
    assert Sent(first, 1) == Info("", "");
    NamesPush(first, AppId(1, "a"), 1);
  }

  lemma OneToplevelIsFocused(now: int, profile: string, slack: Slack)
    ensures ValidRun(Init(now, profile), FOCUSED_RUN, slack)
    ensures Run(Init(now, profile), FOCUSED_RUN) == FocusedState(now, profile)
    ensures CommittedInfo(FOCUSED_RUN, 1) == Info("a", "")
  {
    var s, named := Init(now, profile), NamedState(now, profile);
    var staging, commit := StateEvent(1, [STATE_ACTIVATED]), Done(1, Some(1));
    var staged := named.(handles := map[1 := Handle("a", "", false, true)]);
    OneToplevelIsNamed(now, profile, slack);
    OneMoreStep(s, NAMED_RUN, named, staging, slack);
    OneMoreStep(s, NAMED_RUN + [staging], staged, commit, slack);
    NamesPush(NAMED_RUN, staging, 1);
    NamesPush(NAMED_RUN + [staging], commit, 1);
  }

  /** The focused toplevel changes its app id, and before it commits that, another
      toplevel's `done` makes the manager submit it. */
  const UNCOMMITTED_RUN: seq<Step> := FOCUSED_RUN + [Toplevel(2)] + [AppId(1, "b")] + [Done(2, Some(1))]

  /** The two toplevels before the run's last step. */
  function TwoToplevels(now: int, profile: string, appId: string): State {
    FocusedState(now, profile).(handles := map[1 := Handle(appId, "", true, true), 2 := NEW_HANDLE])
  }

  lemma UncommittedRunSteps(now: int, profile: string, slack: Slack)
    ensures ValidRun(Init(now, profile), UNCOMMITTED_RUN, slack)
    ensures Run(Init(now, profile), UNCOMMITTED_RUN) == Apply(TwoToplevels(now, profile, "b"), Done(2, Some(1)))
  {
    var s, f := Init(now, profile), FOCUSED_RUN;
    OneToplevelIsFocused(now, profile, slack);
    OneMoreStep(s, f, FocusedState(now, profile), Toplevel(2), slack);
    OneMoreStep(s, f + [Toplevel(2)], TwoToplevels(now, profile, "a"), AppId(1, "b"), slack);
    OneMoreStep(s, f + [Toplevel(2)] + [AppId(1, "b")], TwoToplevels(now, profile, "b"), Done(2, Some(1)), slack);
  }

  lemma UncommittedRunNames(now: int, profile: string, slack: Slack)
    ensures CommittedInfo(UNCOMMITTED_RUN, 1) == Info("a", "")
  {
    var f := FOCUSED_RUN;
    OneToplevelIsFocused(now, profile, slack);
    FrontOfPush(f, Toplevel(2));
    NamesPush(f + [Toplevel(2)], AppId(1, "b"), 1);
    NamesPush(f + [Toplevel(2)] + [AppId(1, "b")], Done(2, Some(1)), 1);
  }

  /** The protocol's atomicity is not kept: this run submits an app id that was never committed. */
  lemma UncommittedAppIdIsSubmitted(now: int, profile: string, slack: Slack)
    ensures ValidRun(Init(now, profile), UNCOMMITTED_RUN, slack)
    ensures LastSubmission(Run(Init(now, profile), UNCOMMITTED_RUN).foci) == Some(Submitted(now, Info("b", "")))
    ensures CommittedInfo(UNCOMMITTED_RUN, 1) == Info("a", "")
  {
    UncommittedRunSteps(now, profile, slack);
    UncommittedRunNames(now, profile, slack);
    FocusPush([Submitted(now, Info("a", ""))], Submitted(now, Info("b", "")));
  }

  // ---- What a delivery makes the application do -----------------------------------------------------------

  /** Main result: over every run, a timer that delivers nothing leaves the application alone. One that
      delivers, delivers the last focus submitted: the open app, if another, is terminated and the new one
      launched; and the profile its app resolves to, if there is one and it is not the
      active one, is loaded, and becomes the active one if loading works. */
  lemma DeliverySwitches(now: int, profile: string, steps: seq<Step>, resolved: string, loads: bool, slack: Slack)
    requires ValidRun(Init(now, profile), steps + [Timeout(resolved, loads)], slack)
    ensures var s, t := Run(Init(now, profile), steps), Run(Init(now, profile), steps + [Timeout(resolved, loads)]);
            && LastSubmission(s.foci).Some?
            && (t.foci != s.foci <==>
                  Started(steps) && s.deb.last != Some(LastSubmission(s.foci).value.info.appId))
            && (t.foci == s.foci ==> t.app == s.app)
            && (t.foci != s.foci ==>
                  && t.foci == s.foci + [Delivered(s.now, LastSubmission(s.foci).value.info)]
                  && ActsOn(s.app, LastSubmission(s.foci).value.info.appId, resolved, loads, t.app))
  {
    var s := Run(Init(now, profile), steps);
    RunPush(Init(now, profile), steps, Timeout(resolved, loads), slack);
    RunKeepsInv(Init(now, profile), steps, profile, slack);
    ListeningIsStarted(now, profile, steps, slack);
    EmptyIsUnit(s.app.word);
    if Emits(s.deb) && s.deb.listening {
      OneLonger(s.foci, Delivered(s.now, s.deb.pending.value));
    }
  }

  lemma OneLonger<T>(s: seq<T>, x: T)
    ensures s + [x] != s
  {
    assert |s + [x]| == |s| + 1;
  }

  /** Whether the watcher is started, read off the events. */
  predicate Started(steps: seq<Step>) {
    if steps == [] then false
    else
      match steps[|steps| - 1]
      case Start => true
      case Stop => false
      case _ => Started(steps[..|steps| - 1])
  }

  lemma {:induction false} ListeningIsStarted(now: int, profile: string, steps: seq<Step>, slack: Slack)
    ensures Run(Init(now, profile), steps).deb.listening <==> Started(steps)
    decreases |steps|
  {
    if steps != [] {
      var before, a := steps[..|steps| - 1], steps[|steps| - 1];
      assert steps == before + [a];
      RunPush(Init(now, profile), before, a, slack);
      ListeningIsStarted(now, profile, before, slack);
    }
  }

  /** Time only goes on: what is submitted and delivered later bears a later time, or the same. */
  lemma {:induction false} TimesAscend(now: int, profile: string, steps: seq<Step>, slack: Slack)
    ensures var s := Run(Init(now, profile), steps);
            && (forall i, j | 0 <= i < j < |s.foci| :: s.foci[i].time <= s.foci[j].time)
            && (forall i | 0 <= i < |s.foci| :: s.foci[i].time <= s.now)
    decreases |steps|
  {
    if steps != [] {
      var before, a := steps[..|steps| - 1], steps[|steps| - 1];
      assert steps == before + [a];
      RunPush(Init(now, profile), before, a, slack);
      TimesAscend(now, profile, before, slack);
    }
  }

  /** What the application does when told that `appId` has the focus. */
  predicate ActsOn(a: App, appId: string, resolved: string, loads: bool, b: App) {
    && b.lastForeground == appId
    && b.word == a.word + (if appId == a.lastForeground then []
                           else if a.lastForeground == "" then [Launch(appId)]
                           else [Terminate(a.lastForeground), Launch(appId)])
    && (if resolved != "" && resolved != a.activeProfile
        then b.switches == a.switches + [Auto(resolved, loads)]
             && b.activeProfile == (if loads then resolved else a.activeProfile)
        else b.switches == a.switches && b.activeProfile == a.activeProfile)
  }

  /** Nothing else acts on the application, but for a selection by hand. */
  lemma OnlyDeliveriesAct(s: State, a: Step)
    requires !a.Timeout?
    ensures Apply(s, a).app ==
            if a.SelectProfile?
            then s.app.(activeProfile := a.profile, switches := s.app.switches + [ByHand(a.profile)])
            else s.app
  {
  }

  // ---- A watcher that is never stopped ---------------------------------------------------------------------

  predicate Watching(steps: seq<Step>)
    decreases steps
  {
    steps == [] || (!steps[0].Stop? && Watching(steps[1..]))
  }

  /** No app is delivered twice in a row. */
  ghost predicate NoRepeat(foci: seq<Focus>)
    decreases |foci|
  {
    foci == [] ||
    (var front := foci[..|foci| - 1];
     var last := foci[|foci| - 1];
     && NoRepeat(front)
     && (last.Delivered? && LastDelivery(front).Some? ==> LastDelivery(front).value.info.appId != last.info.appId))
  }

  /** With a callback set all along, the debouncer's last app is the last one delivered, and the open one. */
  ghost predicate InStep(s: State) {
    && s.deb.listening && NoRepeat(s.foci)
    && match s.deb.last
       case None => s.app.lastForeground == "" && LastDelivery(s.foci).None?
       case Some(app) =>
         s.app.lastForeground == app && LastDelivery(s.foci).Some? && LastDelivery(s.foci).value.info.appId == app
  }

  lemma StepStaysInStep(s: State, a: Step)
    requires InStep(s) && !a.Stop?
    ensures InStep(Apply(s, a))
  {
    match a
    case Done(_, pick) => SubmitStaysInStep(s, HandleStep(s.handles, a), pick);
    case Closed(_, pick) => SubmitStaysInStep(s, HandleStep(s.handles, a), pick);
    case Timeout(resolved, loads) => FireStaysInStep(s, resolved, loads);
    case _ =>
  }

  lemma FireStaysInStep(s: State, resolved: string, loads: bool)
    requires InStep(s)
    ensures InStep(Fire(s, resolved, loads))
  {
    if Emits(s.deb) {
      FocusPush(s.foci, Delivered(s.now, s.deb.pending.value));
    }
  }

  lemma SubmitStaysInStep(s: State, handles: Handles, pick: Option<HandleId>)
    requires InStep(s)
    ensures InStep(Recompute(s, handles, pick))
  {
    var focus := FocusOf(handles, pick);
    if focus.Some? {
      FocusPush(s.foci, Submitted(s.now, focus.value));
    }
  }

  lemma {:induction false} RunStaysInStep(s: State, steps: seq<Step>)
    requires InStep(s) && Watching(steps)
    ensures InStep(Run(s, steps))
    decreases steps
  {
    if steps != [] {
      StepStaysInStep(s, steps[0]);
      RunStaysInStep(Apply(s, steps[0]), steps[1..]);
    }
  }

  /** Once a watcher is started and not stopped, a focus that has stood for 180 ms and the
      timer's lateness is the open app, and no app is delivered twice in a row. */
  lemma SettledFocusIsOpen(now: int, profile: string, steps: seq<Step>, slack: Slack)
    requires ValidRun(Init(now, profile), [Start] + steps, slack) && Watching(steps)
    ensures var s := Run(Init(now, profile), [Start] + steps);
            && NoRepeat(s.foci)
            && (LastSubmission(s.foci).Some? && LastSubmission(s.foci).value.time + DEBOUNCE_MS + slack.late < s.now ==>
                  s.app.lastForeground == LastSubmission(s.foci).value.info.appId)
  {
    RunKeepsInv(Init(now, profile), [Start] + steps, profile, slack);
    assert ([Start] + steps)[1..] == steps;
    RunStaysInStep(Apply(Init(now, profile), Start), steps);
  }
}
