/** `HotplugDebouncer`: per-device trailing-edge coalescing of hot-plug events. */
module Hotplug {
  import opened Seqs
  import opened Timing
  import opened Wrappers

  /** `kDebounceMs`. */
  const DEBOUNCE_MS := 300

  type UInt16 = n: int | 0 <= n < 0x10000

  datatype Action = Arrived | Removed
  datatype Event = Event(action: Action, vid: UInt16, pid: UInt16, serial: string)
  datatype Key = Key(vid: UInt16, pid: UInt16, serial: string)

  function KeyOf(ev: Event): Key {
    Key(ev.vid, ev.pid, ev.serial)
  }

  /** One line of the history: an event handled on the owning thread, or a coalesced one emitted. */
  datatype Entry = Delivered(time: int, ev: Event) | Emitted(time: int, ev: Event)

  /** `queue` holds the calls posted by `observe` from any thread; a timer is the
      time it is due. `observed` and `history` record what went in and came out. */
  datatype State = State(
    now: int,
    queue: seq<Event>,
    pending: map<Key, Event>,
    timers: map<Key, int>,
    observed: seq<Event>,
    history: seq<Entry>)

  function Init(now: int): State {
    State(now, [], map[], map[], [], [])
  }

  datatype Step = Observe(ev: Event) | Deliver | Timeout(key: Key) | Tick(ms: nat)

  /** A timer may fire early by as much as the slack allows, and time may not pass it by
      more than the lateness it allows. */
  predicate Enabled(s: State, a: Step, slack: Slack) {
    match a
    case Observe(_) => true
    case Deliver => s.queue != []
    case Timeout(k) => k in s.timers && s.timers[k] <= s.now + slack.early
    case Tick(ms) => forall k | k in s.timers :: s.now + ms <= s.timers[k] + slack.late
  }

  function Apply(s: State, a: Step): State {
    match a
    case Observe(ev) => s.(queue := s.queue + [ev], observed := s.observed + [ev])
    case Deliver =>
      if s.queue == [] then s
      else
        var ev := s.queue[0];
        s.(queue := s.queue[1..],
           pending := s.pending[KeyOf(ev) := ev],
           timers := s.timers[KeyOf(ev) := s.now + DEBOUNCE_MS],
           history := s.history + [Delivered(s.now, ev)])
    case Timeout(k) =>
      if k !in s.pending then s
      else
        s.(pending := s.pending - {k},
           timers := s.timers - {k},
           history := s.history + [Emitted(s.now, s.pending[k])])
    case Tick(ms) => s.(now := s.now + ms)
  }

  predicate ValidRun(s: State, steps: seq<Step>, slack: Slack)
    decreases steps
  {
    steps == [] || (Enabled(s, steps[0], slack) && ValidRun(Apply(s, steps[0]), steps[1..], slack))
  }

  function Run(s: State, steps: seq<Step>): State
    decreases steps
  {
    if steps == [] then s else Run(Apply(s, steps[0]), steps[1..])
  }

  ghost predicate Consistent(s: State) {
    s.pending.Keys == s.timers.Keys && forall k | k in s.pending :: KeyOf(s.pending[k]) == k
  }

  // ---- The class ---------------------------------------------------------------

  class HotplugDebouncer {
    var m_queue: seq<Event>
    var m_pending: map<Key, Event>
    var m_timers: map<Key, int>
    var clock: int
    ghost var observed: seq<Event>
    ghost var history: seq<Entry>

    ghost function Abs(): State
      reads this
    {
      State(clock, m_queue, m_pending, m_timers, observed, history)
    }

    /** A timer for exactly the keys with a pending event, filed under its own key. */
    ghost predicate Valid()
      reads this
    {
      Consistent(Abs())
    }

    constructor (now: int)
      ensures Valid() && Abs() == Init(now)
    {
      m_queue, m_pending, m_timers, clock := [], map[], map[], now;
      observed, history := [], [];
    }

    /** Posts the event to the owning thread. */
    method OnObserve(ev: Event)
      requires Valid()
      modifies this
      ensures Valid() && Abs() == Apply(old(Abs()), Observe(ev))
    {
      m_queue := m_queue + [ev];
      observed := observed + [ev];
    }

    /** The posted call, run on the owning thread. */
    method RunPosted()
      requires Valid() && m_queue != []
      modifies this
      ensures Valid() && Abs() == Apply(old(Abs()), Deliver)
    {
      var ev := m_queue[0];
      m_queue := m_queue[1..];
      history := history + [Delivered(clock, ev)];
      var key := KeyOf(ev);
      m_pending := m_pending[key := ev];
      if key in m_timers {
        m_timers := m_timers[key := clock + DEBOUNCE_MS];
        return;
      }
      var due := clock + DEBOUNCE_MS;
      m_timers := m_timers[key := due];
    }

    /** The timer's timeout slot; `coalesced` is the emitted event. */
    method OnTimeout(key: Key) returns (coalesced: Event)
      requires Valid() && key in m_timers
      modifies this
      ensures Valid() && Abs() == Apply(old(Abs()), Timeout(key))
      ensures KeyOf(coalesced) == key && old(m_pending[key]) == coalesced
    {
      coalesced := m_pending[key];
      m_pending := m_pending - {key};
      if key in m_timers {
        m_timers := m_timers - {key};
      }
      history := history + [Emitted(clock, coalesced)];
    }

    method Wait(ms: nat)
      requires Valid()
      modifies this
      ensures Valid() && Abs() == Apply(old(Abs()), Tick(ms))
    {
      clock := clock + ms;
    }
  }

  // ---- One key on its own --------------------------------------------------------

  /** A debouncer that only ever sees one key: at most one event waits. */
  datatype One = One(
    now: int,
    queue: seq<Event>,
    waiting: Option<(Event, int)>,
    observed: seq<Event>,
    history: seq<Entry>)

  datatype OneStep = OneObserve(ev: Event) | OneDeliver | OneTimeout | OneTick(ms: nat) | Idle

  predicate OneEnabled(o: One, a: OneStep, slack: Slack) {
    match a
    case OneObserve(_) => true
    case OneDeliver => o.queue != []
    case OneTimeout => o.waiting.Some? && o.waiting.value.1 <= o.now + slack.early
    case OneTick(ms) => o.waiting.Some? ==> o.now + ms <= o.waiting.value.1 + slack.late
    case Idle => true
  }

  function OneApply(o: One, a: OneStep): One {
    match a
    case OneObserve(ev) => o.(queue := o.queue + [ev], observed := o.observed + [ev])
    case OneDeliver =>
      if o.queue == [] then o
      else
        o.(queue := o.queue[1..],
           waiting := Some((o.queue[0], o.now + DEBOUNCE_MS)),
           history := o.history + [Delivered(o.now, o.queue[0])])
    case OneTimeout =>
      if o.waiting.None? then o
      else o.(waiting := None, history := o.history + [Emitted(o.now, o.waiting.value.0)])
    case OneTick(ms) => o.(now := o.now + ms)
    case Idle => o
  }

  predicate OneValidRun(o: One, steps: seq<OneStep>, slack: Slack)
    decreases steps
  {
    steps == [] || (OneEnabled(o, steps[0], slack) && OneValidRun(OneApply(o, steps[0]), steps[1..], slack))
  }

  function OneRun(o: One, steps: seq<OneStep>): One
    decreases steps
  {
    if steps == [] then o else OneRun(OneApply(o, steps[0]), steps[1..])
  }

  // ---- Projection to a key ---------------------------------------------------------

  function EventsOf(events: seq<Event>, k: Key): seq<Event> {
    if events == [] then []
    else (if KeyOf(events[0]) == k then [events[0]] else []) + EventsOf(events[1..], k)
  }

  function HistoryOf(history: seq<Entry>, k: Key): seq<Entry> {
    if history == [] then []
    else (if KeyOf(history[0].ev) == k then [history[0]] else []) + HistoryOf(history[1..], k)
  }

  function Project(s: State, k: Key): One {
    One(s.now,
        EventsOf(s.queue, k),
        if k in s.pending && k in s.timers then Some((s.pending[k], s.timers[k])) else None,
        EventsOf(s.observed, k),
        HistoryOf(s.history, k))
  }

  function ProjectStep(s: State, a: Step, k: Key): OneStep {
    match a
    case Observe(ev) => if KeyOf(ev) == k then OneObserve(ev) else Idle
    case Deliver => if s.queue != [] && KeyOf(s.queue[0]) == k then OneDeliver else Idle
    case Timeout(k') => if k' == k then OneTimeout else Idle
    case Tick(ms) => OneTick(ms)
  }

  function ProjectRun(s: State, steps: seq<Step>, k: Key): seq<OneStep>
    decreases steps
  {
    if steps == [] then []
    else [ProjectStep(s, steps[0], k)] + ProjectRun(Apply(s, steps[0]), steps[1..], k)
  }

  lemma {:induction false} EventsOfAppend(events: seq<Event>, ev: Event, k: Key)
    ensures EventsOf(events + [ev], k) == EventsOf(events, k) + if KeyOf(ev) == k then [ev] else []
  {
    if events == [] {
      assert events + [ev] == [ev] && [ev][1..] == [];
    } else {
      assert (events + [ev])[1..] == events[1..] + [ev];
      EventsOfAppend(events[1..], ev, k);
    }
  }

  lemma {:induction false} HistoryOfAppend(history: seq<Entry>, e: Entry, k: Key)
    ensures HistoryOf(history + [e], k) == HistoryOf(history, k) + if KeyOf(e.ev) == k then [e] else []
  {
    if history == [] {
      assert history + [e] == [e] && [e][1..] == [];
    } else {
      assert (history + [e])[1..] == history[1..] + [e];
      HistoryOfAppend(history[1..], e, k);
    }
  }

  /** Two events are of one key, and coalesce, if and only if they are of one device: the same vendor, product
      and serial number. */
  lemma KeysTellDevicesApart(a: Event, b: Event)
    ensures KeyOf(a) == KeyOf(b) <==> a.vid == b.vid && a.pid == b.pid && a.serial == b.serial
  {
  }

  lemma ApplyKeepsConsistent(s: State, a: Step, slack: Slack)
    requires Consistent(s) && Enabled(s, a, slack)
    ensures Consistent(Apply(s, a))
  {
  }

  ghost predicate Projects(s: State, a: Step, k: Key, slack: Slack) {
    && OneEnabled(Project(s, k), ProjectStep(s, a, k), slack)
    && Project(Apply(s, a), k) == OneApply(Project(s, k), ProjectStep(s, a, k))
  }

  lemma ObserveProjects(s: State, ev: Event, k: Key, slack: Slack)
    ensures Projects(s, Observe(ev), k, slack)
  {
    EventsOfAppend(s.queue, ev, k);
    EventsOfAppend(s.observed, ev, k);
    EmptyIsUnit(EventsOf(s.queue, k));
    EmptyIsUnit(EventsOf(s.observed, k));
  }

  lemma EventsOfHead(events: seq<Event>, k: Key)
    requires events != []
    ensures if KeyOf(events[0]) == k
            then EventsOf(events, k) != [] && EventsOf(events, k)[0] == events[0]
                 && EventsOf(events, k)[1..] == EventsOf(events[1..], k)
            else EventsOf(events, k) == EventsOf(events[1..], k)
  {
    EmptyIsUnit(EventsOf(events[1..], k));
  }

  lemma DeliverWaits(s: State, k: Key)
    requires Consistent(s) && s.queue != []
    ensures var ev := s.queue[0];
            Project(Apply(s, Deliver), k).waiting ==
            if KeyOf(ev) == k then Some((ev, s.now + DEBOUNCE_MS)) else Project(s, k).waiting
  {
  }

  lemma DeliverProjects(s: State, k: Key, slack: Slack)
    requires Consistent(s) && s.queue != []
    ensures Projects(s, Deliver, k, slack)
  {
    DeliverWaits(s, k);
    if KeyOf(s.queue[0]) == k {
      OwnDeliveryProjects(s, k);
    } else {
      OtherDeliveryProjects(s, k);
    }
  }

  lemma OwnDeliveryProjects(s: State, k: Key)
    requires Consistent(s) && s.queue != [] && KeyOf(s.queue[0]) == k
    ensures var o, o' := Project(s, k), Project(Apply(s, Deliver), k);
            && o.queue != [] && o.queue[0] == s.queue[0] && o'.queue == o.queue[1..]
            && o'.now == o.now && o'.observed == o.observed
            && o'.history == o.history + [Delivered(s.now, s.queue[0])]
  {
    HistoryOfAppend(s.history, Delivered(s.now, s.queue[0]), k);
    EventsOfHead(s.queue, k);
  }

  lemma OtherDeliveryProjects(s: State, k: Key)
    requires Consistent(s) && s.queue != [] && KeyOf(s.queue[0]) != k
    ensures var o, o' := Project(s, k), Project(Apply(s, Deliver), k);
            o'.queue == o.queue && o'.now == o.now && o'.observed == o.observed && o'.history == o.history
  {
    HistoryOfAppend(s.history, Delivered(s.now, s.queue[0]), k);
    EmptyIsUnit(HistoryOf(s.history, k));
    EventsOfHead(s.queue, k);
  }

  lemma TimeoutProjects(s: State, own: Key, k: Key, slack: Slack)
    requires Consistent(s) && own in s.timers && s.timers[own] <= s.now + slack.early
    ensures Projects(s, Timeout(own), k, slack)
  {
    HistoryOfAppend(s.history, Emitted(s.now, s.pending[own]), k);
    EmptyIsUnit(HistoryOf(s.history, k));
  }

  /** Each step of the debouncer is a step of the one-key debouncer of its own
      key, and leaves the debouncer of every other key as it was. */
  lemma StepProjects(s: State, a: Step, k: Key, slack: Slack)
    requires Consistent(s) && Enabled(s, a, slack)
    ensures OneEnabled(Project(s, k), ProjectStep(s, a, k), slack)
    ensures Project(Apply(s, a), k) == OneApply(Project(s, k), ProjectStep(s, a, k))
  {
    match a
    case Observe(ev) => ObserveProjects(s, ev, k, slack);
    case Deliver => DeliverProjects(s, k, slack);
    case Timeout(own) => TimeoutProjects(s, own, k, slack);
    case Tick(ms) =>
  }

  /** Main result, refinement: every timed run, seen from one key, is a run of the
      one-key debouncer. */
  lemma {:induction false} RunProjects(s: State, steps: seq<Step>, k: Key, slack: Slack)
    requires Consistent(s) && ValidRun(s, steps, slack)
    ensures Consistent(Run(s, steps))
    ensures OneValidRun(Project(s, k), ProjectRun(s, steps, k), slack)
    ensures Project(Run(s, steps), k) == OneRun(Project(s, k), ProjectRun(s, steps, k))
    decreases steps
  {
    if steps != [] {
      ApplyKeepsConsistent(s, steps[0], slack);
      StepProjects(s, steps[0], k, slack);
      RunProjects(Apply(s, steps[0]), steps[1..], k, slack);
      assert ProjectRun(s, steps, k)[1..] == ProjectRun(Apply(s, steps[0]), steps[1..], k);
    }
  }

  // ---- What a one-key debouncer emits ------------------------------------------------

  function Deliveries(history: seq<Entry>): seq<Event> {
    if history == [] then []
    else Deliveries(history[..|history| - 1])
         + (match history[|history| - 1] case Delivered(_, ev) => [ev] case Emitted(_, _) => [])
  }

  /** An emission carries the delivery right before it, when its window closes. */
  predicate ClosesBurst(history: seq<Entry>, i: nat, slack: Slack)
    requires i < |history|
  {
    history[i].Emitted? ==>
      && i > 0
      && history[i - 1].Delivered?
      && history[i].ev == history[i - 1].ev
      && history[i - 1].time + DEBOUNCE_MS <= history[i].time + slack.early
      && history[i].time <= history[i - 1].time + DEBOUNCE_MS + slack.late
  }

  /** Two deliveries with no emission between them are no further apart than the window. */
  predicate WithinBurst(history: seq<Entry>, i: nat, slack: Slack)
    requires i < |history|
  {
    i > 0 && history[i].Delivered? && history[i - 1].Delivered? ==>
      history[i].time <= history[i - 1].time + DEBOUNCE_MS + slack.late
  }

  /** Emissions close bursts, deliveries between emissions are close, and time advances. */
  predicate GoodHistory(history: seq<Entry>, slack: Slack) {
    && (forall i | 0 <= i < |history| :: ClosesBurst(history, i, slack))
    && (forall i | 0 <= i < |history| :: WithinBurst(history, i, slack))
    && (forall i | 0 < i < |history| :: history[i - 1].time <= history[i].time)
  }

  /** The events of each maximal burst collapse to its last one, emitted when the
      window after it closes; the last burst may still be waiting. */
  predicate Debounced(o: One, slack: Slack) {
    && GoodHistory(o.history, slack)
    && (o.history != [] ==> o.history[|o.history| - 1].time <= o.now)
    && (if o.history != [] && o.history[|o.history| - 1].Delivered? then
          var last := o.history[|o.history| - 1];
          o.waiting == Some((last.ev, last.time + DEBOUNCE_MS)) && o.now <= last.time + DEBOUNCE_MS + slack.late
        else o.waiting == None)
    && o.observed == Deliveries(o.history) + o.queue
  }

  lemma GoodHistoryAppend(history: seq<Entry>, e: Entry, slack: Slack)
    requires GoodHistory(history, slack)
    requires history != [] ==> history[|history| - 1].time <= e.time
    requires ClosesBurst(history + [e], |history|, slack) && WithinBurst(history + [e], |history|, slack)
    ensures GoodHistory(history + [e], slack)
  {
    var h := history + [e];
    forall i | 0 <= i < |h|
      ensures ClosesBurst(h, i, slack) && WithinBurst(h, i, slack)
    {
      if i < |history| {
        assert ClosesBurst(history, i, slack) && WithinBurst(history, i, slack);
      }
    }
  }

  lemma DeliveriesAppend(history: seq<Entry>, e: Entry)
    ensures Deliveries(history + [e]) == Deliveries(history) + if e.Delivered? then [e.ev] else []
  {
    assert (history + [e])[..|history|] == history;
  }

  lemma DeliveryFits(o: One, ev: Event, slack: Slack)
    requires Debounced(o, slack)
    ensures var h := o.history + [Delivered(o.now, ev)];
            ClosesBurst(h, |o.history|, slack) && WithinBurst(h, |o.history|, slack)
  {
  }

  lemma DeliverKeepsDebounced(o: One, slack: Slack)
    requires Debounced(o, slack) && o.queue != []
    ensures Debounced(OneApply(o, OneDeliver), slack)
  {
    var e := Delivered(o.now, o.queue[0]);
    DeliveriesAppend(o.history, e);
    DeliveryFits(o, o.queue[0], slack);
    GoodHistoryAppend(o.history, e, slack);
    ConsOfTail(o.queue);
    Associates(Deliveries(o.history), [o.queue[0]], o.queue[1..]);
  }

  lemma TimeoutKeepsDebounced(o: One, slack: Slack)
    requires Debounced(o, slack) && OneEnabled(o, OneTimeout, slack)
    ensures Debounced(OneApply(o, OneTimeout), slack)
  {
    var e := Emitted(o.now, o.waiting.value.0);
    DeliveriesAppend(o.history, e);
    assert ClosesBurst(o.history + [e], |o.history|, slack);
    assert WithinBurst(o.history + [e], |o.history|, slack);
    GoodHistoryAppend(o.history, e, slack);
  }

  lemma OneApplyKeepsDebounced(o: One, a: OneStep, slack: Slack)
    requires Debounced(o, slack) && OneEnabled(o, a, slack)
    ensures Debounced(OneApply(o, a), slack)
  {
    match a
    case OneDeliver => DeliverKeepsDebounced(o, slack);
    case OneTimeout => TimeoutKeepsDebounced(o, slack);
    case _ =>
  }

  lemma {:induction false} OneRunDebounced(o: One, steps: seq<OneStep>, slack: Slack)
    requires Debounced(o, slack) && OneValidRun(o, steps, slack)
    ensures Debounced(OneRun(o, steps), slack)
    decreases steps
  {
    if steps != [] {
      OneApplyKeepsDebounced(o, steps[0], slack);
      OneRunDebounced(OneApply(o, steps[0]), steps[1..], slack);
    }
  }

  /** Main result, whole runs: for every key, the history is debounced, and every
      observed event is delivered (hence emitted, superseded or waiting) or still
      queued, in order; timers and pending events have the same keys. */
  lemma EveryRunIsDebounced(now: int, steps: seq<Step>, k: Key, slack: Slack)
    requires ValidRun(Init(now), steps, slack)
    ensures var s := Run(Init(now), steps);
            && s.pending.Keys == s.timers.Keys
            && Debounced(Project(s, k), slack)
            && EventsOf(s.observed, k) == Deliveries(HistoryOf(s.history, k)) + EventsOf(s.queue, k)
  {
    RunProjects(Init(now), steps, k, slack);
    OneRunDebounced(Project(Init(now), k), ProjectRun(Init(now), steps, k), slack);
  }

  /** The gap to the next delivery decides: closer than 300 ms less the earliness and
      the earlier event is superseded; further than 300 ms and the lateness, and it was emitted. */
  lemma GapDecides(o: One, i: nat, j: nat, slack: Slack)
    requires Debounced(o, slack) && i < j < |o.history|
    requires o.history[i].Delivered? && o.history[j].Delivered?
    requires forall m | i < m < j :: o.history[m].Emitted?
    ensures o.history[j].time + slack.early < o.history[i].time + DEBOUNCE_MS ==> j == i + 1
    ensures o.history[i].time + DEBOUNCE_MS + slack.late < o.history[j].time ==>
              j == i + 2 && o.history[i + 1].ev == o.history[i].ev
  {
    assert WithinBurst(o.history, j, slack);
    assert j > i + 1 ==> ClosesBurst(o.history, i + 1, slack);
    assert j > i + 2 ==> ClosesBurst(o.history, i + 2, slack);
  }
}
