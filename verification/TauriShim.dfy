/** The request/response bridge of `tauri-shim.js`. */
module TauriShim {
  import opened Seqs
  import opened Wrappers
  import Json
  import JsonRoundTrip

  datatype Call = Call(id: string, command: string, argsJson: string)
  datatype Outcome = Resolved(json: string) | Rejected(json: string)

  /** A settled promise, and the request id of the response that settled it. */
  datatype Settlement = Settlement(promise: nat, responseTo: string, outcome: Outcome)

  /** `issued` are the invocations meant for the bridge, `bridgeCalls` those the
      bridge received; a promise is the number of its invocation. */
  datatype State = State(
    counter: nat,
    ready: bool,
    pending: map<string, nat>,
    preQueue: seq<Call>,
    issued: seq<Call>,
    bridgeCalls: seq<Call>,
    settled: seq<Settlement>)

  const INIT := State(0, false, map[], [], [], [], [])

  /** `"r" + n`. */
  function RequestId(n: nat): string {
    "r" + Json.NatTo(n, "")
  }

  /** How invocations are named; the shim uses `RequestId`. */
  type Naming = nat -> string

  ghost predicate Injective(rid: Naming) {
    forall m, n :: rid(m) == rid(n) ==> m == n
  }

  /** Commands the shim answers itself: the event plugin and the window plugin. */
  predicate IsLocal(command: string) {
    || command in {"plugin:event|listen", "plugin:event|unlisten", "plugin:event|emit", "plugin:event|emit_to"}
    || "plugin:window|" <= command
  }

  function OutcomeOf(resultJson: string, errorJson: string): Outcome {
    if errorJson != "" && errorJson != "null" then Rejected(errorJson) else Resolved(resultJson)
  }

  /** `argsJson` is what `JSON.stringify` made of the arguments, if it did not throw. */
  datatype Step =
    | Invoke(command: string, argsJson: Option<string>)
    | ChannelReady(hasObject: bool)
    | Response(requestId: string, resultJson: string, errorJson: string)

  /** The channel calls back once; responses come only through it. */
  predicate Enabled(s: State, a: Step) {
    (a.ChannelReady? ==> !s.ready) && (a.Response? ==> s.ready)
  }

  function Apply(s: State, a: Step, rid: Naming): State {
    match a
    case Invoke(command, argsJson) =>
      if IsLocal(command) then s
      else
        var n := s.counter + 1;
        var call := Call(rid(n), command, if argsJson.Some? then argsJson.value else "{}");
        var s1 := s.(counter := n, pending := s.pending[rid(n) := n], issued := s.issued + [call]);
        if s.ready then s1.(bridgeCalls := s.bridgeCalls + [call]) else s1.(preQueue := s.preQueue + [call])
    case ChannelReady(hasObject) =>
      if !hasObject then s else s.(ready := true, bridgeCalls := s.bridgeCalls + s.preQueue, preQueue := [])
    case Response(id, result, error) =>
      if id !in s.pending then s
      else s.(pending := s.pending - {id},
              settled := s.settled + [Settlement(s.pending[id], id, OutcomeOf(result, error))])
  }

  predicate ValidRun(s: State, steps: seq<Step>, rid: Naming)
    decreases steps
  {
    steps == [] || (Enabled(s, steps[0]) && ValidRun(Apply(s, steps[0], rid), steps[1..], rid))
  }

  function Run(s: State, steps: seq<Step>, rid: Naming): State
    decreases steps
  {
    if steps == [] then s else Run(Apply(s, steps[0], rid), steps[1..], rid)
  }

  // ---- The closures, with their captured variables as fields ---------------------------------

  class Shim {
    var ready: bool
    var counter: nat
    var pending: map<string, nat>
    var preQueue: seq<Call>
    var bridgeCalls: seq<Call>
    ghost var issued: seq<Call>
    ghost var settled: seq<Settlement>

    ghost function Abs(): State
      reads this
    {
      State(counter, ready, pending, preQueue, issued, bridgeCalls, settled)
    }

    constructor ()
      ensures Abs() == INIT
    {
      ready, counter, pending, preQueue, bridgeCalls := false, 0, map[], [], [];
      issued, settled := [], [];
    }

    method DoInvoke(call: Call)
      modifies this
      ensures Abs() == old(Abs()).(bridgeCalls := old(bridgeCalls) + [call])
    {
      bridgeCalls := bridgeCalls + [call];
    }

    /** `__TAURI_INTERNALS__.invoke`; a local command resolves at once, without a promise number. */
    method OnInvoke(command: string, argsJson: Option<string>) returns (promise: Option<nat>)
      modifies this
      ensures Abs() == Apply(old(Abs()), Invoke(command, argsJson), RequestId)
      ensures promise == if IsLocal(command) then None else Some(old(counter) + 1)
    {
      if IsLocal(command) {
        return None;
      }
      counter := counter + 1;
      var id := RequestId(counter);
      pending := pending[id := counter];
      var json := if argsJson.Some? then argsJson.value else "{}";
      var call := Call(id, command, json);
      issued := issued + [call];
      if ready {
        DoInvoke(call);
      } else {
        preQueue := preQueue + [call];
      }
      return Some(counter);
    }

    method OnChannelReady(hasObject: bool)
      modifies this
      ensures Abs() == Apply(old(Abs()), ChannelReady(hasObject), RequestId)
    {
      if !hasObject {
        return;
      }
      ready := true;
      var queued := preQueue;
      preQueue := [];
      var i := 0;
      while i < |queued|
        invariant 0 <= i <= |queued|
        invariant Abs() == old(Abs()).(ready := true, preQueue := [], bridgeCalls := old(bridgeCalls) + queued[..i])
      {
        DoInvoke(queued[i]);
        assert queued[..i + 1] == queued[..i] + [queued[i]];
        i := i + 1;
      }
      assert queued[..i] == queued;
    }

    method OnResponse(requestId: string, resultJson: string, errorJson: string)
      modifies this
      ensures Abs() == Apply(old(Abs()), Response(requestId, resultJson, errorJson), RequestId)
    {
      if requestId !in pending {
        return;
      }
      var p := pending[requestId];
      pending := pending - {requestId};
      if errorJson != "" && errorJson != "null" {
        settled := settled + [Settlement(p, requestId, Rejected(errorJson))];
      } else {
        settled := settled + [Settlement(p, requestId, Resolved(resultJson))];
      }
    }
  }

  // ---- Whole runs ---------------------------------------------------------------------------------

  lemma RequestIdsAreDistinct(m: nat, n: nat)
    requires RequestId(m) == RequestId(n)
    ensures m == n
  {
    assert RequestId(m)[1..] == Json.NatTo(m, "") && RequestId(n)[1..] == Json.NatTo(n, "");
    JsonRoundTrip.NatReads(m, "");
    JsonRoundTrip.NatReads(n, "");
  }

  lemma RequestIdsAreInjective()
    ensures Injective(RequestId)
  {
    forall m, n | RequestId(m) == RequestId(n)
      ensures m == n
    {
      RequestIdsAreDistinct(m, n);
    }
  }

  /** The bridge has received, or the pre-queue holds, each issued call once, in order. */
  ghost predicate CallsInOrder(s: State) {
    && s.counter == |s.issued|
    && s.bridgeCalls == (if s.ready then s.issued else [])
    && s.preQueue == (if s.ready then [] else s.issued)
  }

  function Promises(settled: seq<Settlement>): set<nat> {
    set x | x in settled :: x.promise
  }

  /** A promise settles at most once, by the response to its own request. */
  ghost predicate SettledOnce(s: State, rid: Naming) {
    && (forall x | x in s.settled :: 1 <= x.promise <= s.counter && x.responseTo == rid(x.promise))
    && (forall i, j | 0 <= i < j < |s.settled| :: s.settled[i].promise != s.settled[j].promise)
  }

  /** The pending promises are the issued ones not yet settled, each under its own id. */
  ghost predicate PendingIsIssuedMinusSettled(s: State, rid: Naming) {
    && (forall id | id in s.pending :: 1 <= s.pending[id] <= s.counter && id == rid(s.pending[id]))
    && (forall n: nat | 1 <= n <= s.counter :: rid(n) in s.pending <==> n !in Promises(s.settled))
  }

  ghost predicate Inv(s: State, rid: Naming) {
    CallsInOrder(s) && SettledOnce(s, rid) && PendingIsIssuedMinusSettled(s, rid)
  }

  lemma InvokeKeepsInv(s: State, command: string, argsJson: Option<string>, rid: Naming)
    requires Injective(rid) && Inv(s, rid) && !IsLocal(command)
    ensures Inv(Apply(s, Invoke(command, argsJson), rid), rid)
  {
    var s' := Apply(s, Invoke(command, argsJson), rid);
    assert s'.counter !in Promises(s'.settled);
  }

  lemma PromisesPush(settled: seq<Settlement>, x: Settlement)
    ensures Promises(settled + [x]) == Promises(settled) + {x.promise}
  {
    assert (settled + [x])[|settled|] == x;
  }

  lemma SettledPush(s: State, x: Settlement, rid: Naming)
    requires SettledOnce(s, rid) && x.promise !in Promises(s.settled)
    requires 1 <= x.promise <= s.counter && x.responseTo == rid(x.promise)
    ensures SettledOnce(s.(settled := s.settled + [x]), rid)
  {
    var next := s.settled + [x];
    forall i, j | 0 <= i < j < |next|
      ensures next[i].promise != next[j].promise
    {
      assert next[i] == s.settled[i] && s.settled[i] in s.settled;
    }
  }

  lemma ResponseKeepsInv(s: State, id: string, result: string, error: string, rid: Naming)
    requires Injective(rid) && Inv(s, rid) && id in s.pending
    ensures Inv(Apply(s, Response(id, result, error), rid), rid)
  {
    var s' := Apply(s, Response(id, result, error), rid);
    var x := Settlement(s.pending[id], id, OutcomeOf(result, error));
    PromisesPush(s.settled, x);
    SettledPush(s, x, rid);
    forall n: nat | 1 <= n <= s'.counter
      ensures rid(n) in s'.pending <==> n !in Promises(s'.settled)
    {
    }
  }

  lemma StepKeepsInv(s: State, a: Step, rid: Naming)
    requires Injective(rid) && Inv(s, rid) && Enabled(s, a)
    ensures Inv(Apply(s, a, rid), rid)
  {
    match a
    case Invoke(command, argsJson) =>
      if !IsLocal(command) {
        InvokeKeepsInv(s, command, argsJson, rid);
      }
    case ChannelReady(hasObject) =>
    case Response(id, result, error) =>
      if id in s.pending {
        ResponseKeepsInv(s, id, result, error, rid);
      }
  }

  /** The call a step owes the bridge after `n` others: that of a non-local invocation. */
  function OwedFor(a: Step, n: nat, rid: Naming): seq<Call> {
    match a
    case Invoke(command, argsJson) =>
      if IsLocal(command) then []
      else [Call(rid(n + 1), command, if argsJson.Some? then argsJson.value else "{}")]
    case _ => []
  }

  /** The calls a run owes the bridge: its non-local invocations, numbered on from `n`. */
  function Owed(steps: seq<Step>, n: nat, rid: Naming): seq<Call>
    decreases steps
  {
    if steps == [] then []
    else
      var own := OwedFor(steps[0], n, rid);
      own + Owed(steps[1..], n + |own|, rid)
  }

  lemma {:induction false} RunKeepsInv(s: State, steps: seq<Step>, rid: Naming)
    requires Injective(rid) && Inv(s, rid) && ValidRun(s, steps, rid)
    ensures Inv(Run(s, steps, rid), rid)
    decreases steps
  {
    if steps != [] {
      StepKeepsInv(s, steps[0], rid);
      RunKeepsInv(Apply(s, steps[0], rid), steps[1..], rid);
    }
  }

  lemma StepIssuesWhatItOwes(s: State, a: Step, rid: Naming)
    ensures var own := OwedFor(a, s.counter, rid);
            && Apply(s, a, rid).issued == s.issued + own
            && Apply(s, a, rid).counter == s.counter + |own|
  {
    EmptyIsUnit(s.issued);
  }

  lemma {:induction false} RunIssuesWhatItOwes(s: State, steps: seq<Step>, rid: Naming)
    ensures Run(s, steps, rid).issued == s.issued + Owed(steps, s.counter, rid)
    decreases steps
  {
    if steps == [] {
      EmptyIsUnit(s.issued);
    } else {
      var s' := Apply(s, steps[0], rid);
      StepIssuesWhatItOwes(s, steps[0], rid);
      RunIssuesWhatItOwes(s', steps[1..], rid);
      Associates(s.issued, OwedFor(steps[0], s.counter, rid), Owed(steps[1..], s'.counter, rid));
    }
  }

  /** Main result: in every run, the bridge calls made or queued are exactly the
      non-local invocations, once each and in issue order across the connect
      boundary; each promise settles at most once and only by its own response; and
      the pending set is what was issued minus what was settled. */
  lemma EveryRunIsExact(steps: seq<Step>)
    requires ValidRun(INIT, steps, RequestId)
    ensures var s := Run(INIT, steps, RequestId);
            && s.bridgeCalls + s.preQueue == Owed(steps, 0, RequestId)
            && (s.ready ==> s.preQueue == [])
            && SettledOnce(s, RequestId)
            && PendingIsIssuedMinusSettled(s, RequestId)
  {
    RequestIdsAreInjective();
    RunKeepsInv(INIT, steps, RequestId);
    RunIssuesWhatItOwes(INIT, steps, RequestId);
    EmptyIsUnit(Owed(steps, 0, RequestId));
  }

  /** Every command that is no plugin's goes to the bridge, and so do plugins' other than the event and
      the window plugin's. */
  lemma AppCommandsGoToTheBridge(s: State, command: string, argsJson: Option<string>)
    requires !("plugin:event|" <= command) && !("plugin:window|" <= command)
    ensures var s' := Apply(s, Invoke(command, argsJson), RequestId);
            && s'.counter == s.counter + 1
            && s'.issued == s.issued + [Call("r" + Json.NatTo(s.counter + 1, ""), command,
                                             if argsJson.Some? then argsJson.value else "{}")]
  {
    var event := "plugin:event|";
    assert forall rest: string | rest in {"listen", "unlisten", "emit", "emit_to"} :: event <= event + rest;
  }

  /** In every run, a response settles the one unsettled promise whose request it names;
      a duplicate or unknown response names none and changes nothing. The promise is resolved with
      the result if the error is empty or `null`, and rejected with the error otherwise. */
  lemma ResponsesSettleTheirOwnPromise(steps: seq<Step>, id: string, result: string, error: string, n: nat)
    requires ValidRun(INIT, steps, RequestId)
    ensures var s := Run(INIT, steps, RequestId);
            var s' := Apply(s, Response(id, result, error), RequestId);
            && (1 <= n <= s.counter && id == RequestId(n) && n !in Promises(s.settled) ==>
                  var outcome := if error == "" || error == "null" then Resolved(result) else Rejected(error);
                  s'.settled == s.settled + [Settlement(n, id, outcome)])
            && (s' != s ==> id in s.pending && id == RequestId(s.pending[id]) && s.pending[id] !in Promises(s.settled))
  {
    RequestIdsAreInjective();
    RunKeepsInv(INIT, steps, RequestId);
  }

  /** The shim is connected exactly after the channel came with its object. */
  lemma {:induction false} ReadyOnceConnected(s: State, steps: seq<Step>, rid: Naming)
    ensures Run(s, steps, rid).ready <==> s.ready || ChannelReady(true) in steps
    decreases steps
  {
    if steps != [] {
      ReadyOnceConnected(Apply(s, steps[0], rid), steps[1..], rid);
      ConsOfTail(steps);
    }
  }
}
