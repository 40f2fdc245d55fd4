/** The LunBo carousel of `BuiltinActionsService`: each press of a key runs the next action of its list. */
module LunBo {
  import opened Wrappers
  import Json
  import JsonRoundTrip
  import opened Division

  datatype Action = Action(kind: int, id: string, settingsJson: string, caption: string, delayMs: int)

  /** The members the handler reads from the settings object; `None` where a member is
      missing or of another type. */
  datatype Settings = Settings(bindingId: string, page: Option<string>, key: Option<int>, actions: seq<Action>)

  // ---- The cursor key -----------------------------------------------------------------

  function Page(obj: Settings): string { if obj.page.Some? then obj.page.value else "root" }

  function KeyIndex(obj: Settings): int { if obj.key.Some? then obj.key.value else -1 }

  /** `makeLunBoBindingId`. */
  function CursorKey(obj: Settings): string {
    if obj.bindingId != "" then obj.bindingId else Page(obj) + ":" + Json.NumberTo(KeyIndex(obj), "")
  }

  lemma {:induction false} NatHasNoColon(n: nat, rest: string)
    requires ':' !in rest
    ensures ':' !in Json.NatTo(n, rest)
  {
    var next := ['0' + (n % 10) as char] + rest;
    if n >= 10 {
      NatHasNoColon(n / 10, next);
    }
  }

  lemma NumberHasNoColon(n: int)
    ensures ':' !in Json.NumberTo(n, "")
  {
    NatHasNoColon(if n < 0 then -n else n, "");
  }

  lemma ColonIsLast(p: string, d: string)
    requires ':' !in d
    ensures var s := p + ":" + d;
            s[|p|] == ':' && s[..|p|] == p && s[|p| + 1..] == d && forall i | |p| < i < |s| :: s[i] != ':'
  {
    var s := p + ":" + d;
    forall i | |p| < i < |s|
      ensures s[i] != ':'
    {
      assert s[i] == d[i - |p| - 1];
    }
  }

  lemma LastColonSplits(p: string, d: string, p': string, d': string)
    requires p + ":" + d == p' + ":" + d' && ':' !in d && ':' !in d'
    ensures p == p' && d == d'
  {
    ColonIsLast(p, d);
    ColonIsLast(p', d');
  }

  /** Without a binding id, two keys share a cursor exactly if they are the same key of the same page. A
      missing page is the page `root`, and a missing key is the key -1. */
  lemma FallbackKeysAreDistinct(a: Settings, b: Settings)
    requires a.bindingId == "" && b.bindingId == ""
    ensures CursorKey(a) == CursorKey(b) <==>
            && (a.page == b.page || {a.page, b.page} == {None, Some("root")})
            && (a.key == b.key || {a.key, b.key} == {None, Some(-1)})
  {
    if CursorKey(a) == CursorKey(b) {
      NumberHasNoColon(KeyIndex(a));
      NumberHasNoColon(KeyIndex(b));
      LastColonSplits(Page(a), Json.NumberTo(KeyIndex(a), ""), Page(b), Json.NumberTo(KeyIndex(b), ""));
      JsonRoundTrip.NumberReads(KeyIndex(a), "");
      JsonRoundTrip.NumberReads(KeyIndex(b), "");
    }
  }

  /** The position of the last colon. */
  function LastColon(s: string): (r: Option<nat>)
    ensures r.Some? ==> r.value < |s| && s[r.value] == ':'
  {
    if s == "" then None
    else if s[|s| - 1] == ':' then Some(|s| - 1)
    else LastColon(s[..|s| - 1])
  }

  lemma {:induction false} LastColonIsThere(p: string, d: string)
    requires ':' !in d
    ensures LastColon(p + ":" + d) == Some(|p|)
    decreases |d|
  {
    var s := p + ":" + d;
    if d == "" {
      assert s[|s| - 1] == ':';
    } else {
      LastColonIsThere(p, d[..|d| - 1]);
      assert s[..|s| - 1] == p + ":" + d[..|d| - 1];
      assert s[|s| - 1] == d[|d| - 1];
    }
  }

  /** An explicit binding id shares its cursor with a key that has none if and only if it is that key's page and its
      index in decimal, cut at the last colon; with another explicit id, if and only if they are equal. */
  lemma ExplicitIdSharesACursorWhen(a: Settings, b: Settings)
    requires a.bindingId != ""
    ensures b.bindingId != "" ==> (CursorKey(a) == CursorKey(b) <==> a.bindingId == b.bindingId)
    ensures b.bindingId == "" ==>
              (CursorKey(a) == CursorKey(b) <==>
                 && LastColon(a.bindingId).Some?
                 && var i := LastColon(a.bindingId).value;
                    && (if b.page.None? then a.bindingId[..i] == "root" else a.bindingId[..i] == b.page.value)
                    && a.bindingId[i + 1..] == Json.NumberTo(if b.key.None? then -1 else b.key.value, ""))
  {
    if b.bindingId == "" {
      var page, index := Page(b), Json.NumberTo(KeyIndex(b), "");
      NumberHasNoColon(KeyIndex(b));
      LastColonIsThere(page, index);
      ColonIsLast(page, index);
      if LastColon(a.bindingId).Some? {
        var i := LastColon(a.bindingId).value;
        assert a.bindingId == a.bindingId[..i] + ":" + a.bindingId[i + 1..];
      }
    }
  }

  // ---- Presses and resets --------------------------------------------------------------------

  datatype Entry = Ran(key: string, index: nat, action: Action) | WasReset

  /** `log` records the actions run and the resets. */
  datatype State = State(cursors: map<string, nat>, log: seq<Entry>)

  const INIT := State(map[], [])

  datatype Step = Press(obj: Settings) | Reset

  function CursorOf(s: State, k: string): nat {
    if k in s.cursors then s.cursors[k] else 0
  }

  function Apply(s: State, a: Step): State {
    match a
    case Reset => State(map[], s.log + [WasReset])
    case Press(obj) =>
      if obj.actions == [] then s
      else
        var k, n := CursorKey(obj), |obj.actions|;
        var i := CursorOf(s, k) % n;
        State(s.cursors[k := (i + 1) % n], s.log + [Ran(k, i, obj.actions[i])])
  }

  function Run(s: State, steps: seq<Step>): State
    decreases steps
  {
    if steps == [] then s else Run(Apply(s, steps[0]), steps[1..])
  }

  class BuiltinActionsService {
    var m_lunboCursors: map<string, nat>
    const hasEngine: bool
    ghost var log: seq<Entry>

    ghost function Abs(): State
      reads this
    {
      State(m_lunboCursors, log)
    }

    constructor (hasEngine: bool)
      ensures Abs() == INIT && this.hasEngine == hasEngine
    {
      this.hasEngine := hasEngine;
      m_lunboCursors := map[];
      log := [];
    }

    /** The LunBo handler; `ran` is what the engine, if there is one, is given to run. */
    method OnLunBo(obj: Settings) returns (ran: seq<Action>)
      modifies this
      ensures Abs() == Apply(old(Abs()), Press(obj))
      ensures obj.actions == [] || !hasEngine ==> ran == []
      ensures obj.actions != [] && hasEngine ==>
                ran == [obj.actions[CursorOf(old(Abs()), CursorKey(obj)) % |obj.actions|]]
    {
      ran := [];
      if obj.actions == [] {
        return;
      }
      var bindingId := CursorKey(obj);
      if bindingId !in m_lunboCursors {
        m_lunboCursors := m_lunboCursors[bindingId := 0];
      }
      var chainSize := |obj.actions|;
      m_lunboCursors := m_lunboCursors[bindingId := m_lunboCursors[bindingId] % chainSize];
      var cursor := m_lunboCursors[bindingId];
      if hasEngine {
        ran := [obj.actions[cursor]];
      }
      log := log + [Ran(bindingId, cursor, obj.actions[cursor])];
      m_lunboCursors := m_lunboCursors[bindingId := (cursor + 1) % chainSize];
    }

    method ResetLunBoCursors()
      modifies this
      ensures Abs() == Apply(old(Abs()), Reset)
    {
      m_lunboCursors := map[];
      log := log + [WasReset];
    }
  }

  // ---- Round robin ------------------------------------------------------------------------------

  function WithEntry(runs: seq<nat>, e: Entry, k: string): seq<nat> {
    match e
    case WasReset => []
    case Ran(j, i, _) => if j == k then runs + [i] else runs
  }

  /** The indices a key has run since the last reset. */
  function RunsOf(log: seq<Entry>, k: string): seq<nat> {
    if log == [] then [] else WithEntry(RunsOf(log[..|log| - 1], k), log[|log| - 1], k)
  }

  predicate Presses(a: Step, k: string) {
    a.Press? && CursorKey(a.obj) == k && a.obj.actions != []
  }

  /** How often the key was pressed since the last reset. */
  function PressCount(steps: seq<Step>, k: string, soFar: nat): nat
    decreases steps
  {
    if steps == [] then soFar
    else PressCount(steps[1..], k, if steps[0].Reset? then 0 else if Presses(steps[0], k) then soFar + 1 else soFar)
  }

  /** Every press of the key finds a list of `n` actions. */
  predicate FixedLength(steps: seq<Step>, k: string, n: nat)
    decreases steps
  {
    steps == [] || ((Presses(steps[0], k) ==> |steps[0].obj.actions| == n) && FixedLength(steps[1..], k, n))
  }

  ghost predicate Cycles(runs: seq<nat>, n: nat)
    requires n > 0
  {
    forall j | 0 <= j < |runs| :: runs[j] == j % n
  }

  ghost predicate InTurn(s: State, k: string, n: nat)
    requires n > 0
  {
    && CursorOf(s, k) == |RunsOf(s.log, k)| % n
    && Cycles(RunsOf(s.log, k), n)
  }

  lemma RunsPush(log: seq<Entry>, e: Entry, k: string)
    ensures RunsOf(log + [e], k) == WithEntry(RunsOf(log, k), e, k)
  {
    assert (log + [e])[..|log|] == log;
  }

  lemma NextTurn(m: nat, n: nat)
    requires n > 0
    ensures (m % n) % n == m % n && (m % n + 1) % n == (m + 1) % n
  {
    TurnAfter(m, m / n, m % n, n);
  }

  lemma TurnAfter(m: nat, q: nat, r: nat, n: nat)
    requires r < n && m == n * q + r
    ensures r % n == r && (r + 1) % n == (m + 1) % n
  {
    RemainderIs(r, 0, r, n);
    if r + 1 < n {
      RemainderIs(r + 1, 0, r + 1, n);
      RemainderIs(m + 1, q, r + 1, n);
    } else {
      RemainderIs(r + 1, 1, 0, n);
      assert n * (q + 1) == n * q + n;
      RemainderIs(m + 1, q + 1, 0, n);
    }
  }

  ghost predicate Agree(s: State, t: State, k: string) {
    CursorOf(s, k) == CursorOf(t, k) && RunsOf(s.log, k) == RunsOf(t.log, k)
  }

  lemma OtherPress(s: State, t: State, obj: Settings, k: string)
    requires Agree(s, t, k) && CursorKey(obj) != k
    ensures Agree(Apply(s, Press(obj)), t, k)
  {
    if obj.actions != [] {
      var i := CursorOf(s, CursorKey(obj)) % |obj.actions|;
      RunsPush(s.log, Ran(CursorKey(obj), i, obj.actions[i]), k);
    }
  }

  lemma PressKeepsTurns(s: State, obj: Settings, n: nat)
    requires n > 0 && InTurn(s, CursorKey(obj), n) && |obj.actions| == n
    ensures InTurn(Apply(s, Press(obj)), CursorKey(obj), n)
    ensures |RunsOf(Apply(s, Press(obj)).log, CursorKey(obj))| == |RunsOf(s.log, CursorKey(obj))| + 1
  {
    var k := CursorKey(obj);
    var i := CursorOf(s, k) % n;
    RunsPush(s.log, Ran(k, i, obj.actions[i]), k);
    NextTurn(|RunsOf(s.log, k)|, n);
  }

  lemma StepKeepsTurns(s: State, a: Step, k: string, n: nat)
    requires n > 0 && InTurn(s, k, n) && (Presses(a, k) ==> |a.obj.actions| == n)
    ensures InTurn(Apply(s, a), k, n)
    ensures |RunsOf(Apply(s, a).log, k)| == PressCount([a], k, |RunsOf(s.log, k)|)
  {
    assert [a][1..] == [];
    match a
    case Reset => RunsPush(s.log, WasReset, k);
    case Press(obj) =>
      if CursorKey(obj) != k {
        OtherPress(s, s, obj, k);
      } else if obj.actions != [] {
        PressKeepsTurns(s, obj, n);
      }
  }

  lemma {:induction false} RunKeepsTurns(s: State, steps: seq<Step>, k: string, n: nat)
    requires n > 0 && InTurn(s, k, n) && FixedLength(steps, k, n)
    ensures InTurn(Run(s, steps), k, n)
    ensures |RunsOf(Run(s, steps).log, k)| == PressCount(steps, k, |RunsOf(s.log, k)|)
    decreases steps
  {
    if steps != [] {
      StepKeepsTurns(s, steps[0], k, n);
      assert [steps[0]][1..] == [];
      RunKeepsTurns(Apply(s, steps[0]), steps[1..], k, n);
    }
  }

  /** Main result: whatever the other keys do, the j-th press of a key since the last
      reset, counted from 0, runs its action j mod n. */
  lemma EveryPressRunsTheNext(steps: seq<Step>, k: string, n: nat)
    requires n > 0 && FixedLength(steps, k, n)
    ensures var runs := RunsOf(Run(INIT, steps).log, k);
            |runs| == PressCount(steps, k, 0) && Cycles(runs, n)
  {
    RunKeepsTurns(INIT, steps, k, n);
  }

  function Times(runs: seq<nat>, i: nat): nat {
    if runs == [] then 0
    else Times(runs[..|runs| - 1], i) + if runs[|runs| - 1] == i then 1 else 0
  }

  lemma {:induction false} TimesInACycle(runs: seq<nat>, i: nat, n: nat)
    requires i < n && Cycles(runs, n)
    ensures n * Times(runs, i) <= |runs| + n - 1 - i < n * Times(runs, i) + n
  {
    if runs != [] {
      var front := runs[..|runs| - 1];
      TimesInACycle(front, i, n);
      OneMoreTurn(|front|, Times(front, i), i, n);
    }
  }

  lemma OneMoreTurn(m: nat, c: nat, i: nat, n: nat)
    requires i < n && n * c <= m + n - 1 - i < n * c + n
    ensures m % n == i ==> n * (c + 1) <= m + n - i < n * (c + 1) + n
    ensures m % n != i ==> n * c <= m + n - i < n * c + n
  {
    var q, r := m / n, m % n;
    assert m == n * q + r;
    var over := m + n - 1 - i - n * c;
    if r <= i {
      DivisionIsUnique(q, r - i + n - 1, c, over, n);
    } else {
      assert n * (q + 1) == n * q + n;
      DivisionIsUnique(q + 1, r - i - 1, c, over, n);
    }
  }

  /** The actions of a key take turns: their run counts never differ by more than one. */
  lemma RunsAreFair(steps: seq<Step>, k: string, n: nat, i: nat, j: nat)
    requires i < n && j < n && FixedLength(steps, k, n)
    ensures var runs := RunsOf(Run(INIT, steps).log, k);
            -1 <= Times(runs, i) - Times(runs, j) <= 1
  {
    EveryPressRunsTheNext(steps, k, n);
    var runs := RunsOf(Run(INIT, steps).log, k);
    TimesInACycle(runs, i, n);
    TimesInACycle(runs, j, n);
    WithinOne(n, Times(runs, i), Times(runs, j));
    WithinOne(n, Times(runs, j), Times(runs, i));
  }

  lemma WithinOne(n: nat, c: nat, d: nat)
    ensures n * c < n * d + 2 * n ==> c <= d + 1
  {
    if c >= d + 2 {
      assert n * c >= n * (d + 2);
    }
  }

  // ---- Other keys ---------------------------------------------------------------------------------

  /** The steps that concern one key: its own presses, and the resets. */
  function OwnSteps(steps: seq<Step>, k: string): seq<Step> {
    if steps == [] then []
    else (if steps[0].Reset? || CursorKey(steps[0].obj) == k then [steps[0]] else []) + OwnSteps(steps[1..], k)
  }

  lemma OwnPress(s: State, t: State, obj: Settings)
    requires Agree(s, t, CursorKey(obj))
    ensures Agree(Apply(s, Press(obj)), Apply(t, Press(obj)), CursorKey(obj))
  {
    if obj.actions != [] {
      var k := CursorKey(obj);
      var i := CursorOf(s, k) % |obj.actions|;
      RunsPush(s.log, Ran(k, i, obj.actions[i]), k);
      RunsPush(t.log, Ran(k, i, obj.actions[i]), k);
    }
  }

  lemma StepsAgree(s: State, t: State, a: Step, k: string)
    requires Agree(s, t, k)
    ensures Agree(Apply(s, a), if a.Reset? || CursorKey(a.obj) == k then Apply(t, a) else t, k)
  {
    match a
    case Reset =>
      RunsPush(s.log, WasReset, k);
      RunsPush(t.log, WasReset, k);
    case Press(obj) =>
      if CursorKey(obj) == k {
        OwnPress(s, t, obj);
      } else {
        OtherPress(s, t, obj, k);
      }
  }

  /** Presses of other keys have no effect on a key, whatever the lengths of their lists:
      its cursor and its runs are those of the run in which only it was pressed. */
  lemma {:induction false} OtherKeysHaveNoEffect(s: State, t: State, steps: seq<Step>, k: string)
    requires Agree(s, t, k)
    ensures Agree(Run(s, steps), Run(t, OwnSteps(steps, k)), k)
    decreases steps
  {
    if steps != [] {
      StepsAgree(s, t, steps[0], k);
      var own := steps[0].Reset? || CursorKey(steps[0].obj) == k;
      OtherKeysHaveNoEffect(Apply(s, steps[0]), if own then Apply(t, steps[0]) else t, steps[1..], k);
      if own {
        assert ([steps[0]] + OwnSteps(steps[1..], k))[1..] == OwnSteps(steps[1..], k);
      } else {
        assert [] + OwnSteps(steps[1..], k) == OwnSteps(steps[1..], k);
      }
    }
  }
}
