// Calls that share one abort signal: `withAbort` in lib/client.js and the native race against the abort
// promise in src/client/mod.rs.
module Abort {
  import opened Prelude

  // The abort promise of one call. JavaScript builds it with a reject function only, but the native side
  // accepts any promise.
  datatype Promise = Pending | Rejects | Resolves

  datatype CallResult = Completed | OperationError | AbortError

  // The first branch of the race that is ready, or None. When both are ready either may win.
  function Race(abort: Promise, operation: Option<CallResult>, abortWins: bool, resolved: CallResult)
    : Option<CallResult>
  {
    if !abort.Pending? && (abortWins || operation.None?) then
      Some(if abort.Rejects? then AbortError else resolved)
    else operation
  }

  // `send` and `excise` answer a resolved abort promise with success.
  function SendRace(abort: Promise, operation: Option<CallResult>, abortWins: bool): Option<CallResult> {
    Race(abort, operation, abortWins, Completed)
  }

  // `request` answers it with an error.
  function RequestRace(abort: Promise, operation: Option<CallResult>, abortWins: bool): Option<CallResult> {
    Race(abort, operation, abortWins, OperationError)
  }

  // A request succeeds only when its operation does. A send succeeds without its operation exactly when a
  // resolved abort promise wins the race.
  lemma RaceSuccess(abort: Promise, operation: Option<CallResult>, abortWins: bool)
    requires operation != Some(Completed)
    ensures RequestRace(abort, operation, abortWins) != Some(Completed)
    ensures SendRace(abort, operation, abortWins) == Some(Completed)
       <==> abort.Resolves? && (abortWins || operation.None?)
  {
  }

  // The race takes the branch that is ready, and either one when both are. An abort promise that rejects gives the
  // abort error. One that resolves is a success for a send and an error for a request.
  lemma RaceIsDecided(abort: Promise, operation: Option<CallResult>, abortWins: bool)
    ensures abort == Pending ==>
      SendRace(abort, operation, abortWins) == operation && RequestRace(abort, operation, abortWins) == operation
    ensures operation.Some? && !abortWins ==>
      SendRace(abort, operation, abortWins) == operation && RequestRace(abort, operation, abortWins) == operation
    ensures abort == Rejects && (abortWins || operation.None?) ==>
      && SendRace(abort, operation, abortWins) == Some(AbortError)
      && RequestRace(abort, operation, abortWins) == Some(AbortError)
    ensures abort == Resolves && (abortWins || operation.None?) ==>
      && SendRace(abort, operation, abortWins) == Some(Completed)
      && RequestRace(abort, operation, abortWins) == Some(OperationError)
  {
  }

  // `Running` calls await the native race. `Leaving` ones have its result and have not run their `finally`
  // block. `Finished` ones have settled.
  datatype Progress = Running | Leaving(result: CallResult) | Finished(result: CallResult)

  datatype Call = Call(abort: Promise, operation: Option<CallResult>, progress: Progress, sawAbort: bool)

  // The signal, its listeners by call, and the calls.
  datatype View = View(aborted: bool, listeners: set<nat>, calls: map<nat, Call>)

  datatype Event =
    | Begin(id: nat)
    | AbortFires
    | OperationEnds(id: nat, success: bool)
    | RaceEnds(id: nat, abortWins: bool)
    | Leave(id: nat)

  predicate Enabled(v: View, event: Event) {
    match event
    case Begin(id) => id !in v.calls
    case AbortFires => true
    case OperationEnds(id, _) => id in v.calls && v.calls[id].progress.Running? && v.calls[id].operation.None?
    case RaceEnds(id, abortWins) =>
      && id in v.calls && v.calls[id].progress.Running?
      && SendRace(v.calls[id].abort, v.calls[id].operation, abortWins).Some?
    case Leave(id) => id in v.calls && v.calls[id].progress.Leaving?
  }

  function Step(v: View, event: Event): View
    requires Enabled(v, event)
  {
    match event
    case Begin(id) =>
      var call := Call(if v.aborted then Rejects else Pending, None, Running, v.aborted);
      View(v.aborted, if v.aborted then v.listeners else v.listeners + {id}, v.calls[id := call])
    case AbortFires =>
      // Every listener runs once and is then removed.
      if v.aborted then v
      else View(true, {}, map id | id in v.calls ::
        if id in v.listeners then v.calls[id].(abort := Rejects, sawAbort := true) else v.calls[id])
    case OperationEnds(id, success) =>
      v.(calls := v.calls[id := v.calls[id].(operation := Some(if success then Completed else OperationError))])
    case RaceEnds(id, abortWins) =>
      var call := v.calls[id];
      v.(calls := v.calls[id := call.(progress := Leaving(SendRace(call.abort, call.operation, abortWins).value))])
    case Leave(id) =>
      v.(listeners := v.listeners - {id},
         calls := v.calls[id := v.calls[id].(progress := Finished(v.calls[id].progress.result))])
  }

  function Run(events: seq<Event>): Option<View> {
    if events == [] then Some(View(false, {}, map[]))
    else
      match Run(events[..|events| - 1])
      case None => None
      case Some(v) => if Enabled(v, events[|events| - 1]) then Some(Step(v, events[|events| - 1])) else None
  }

  // A call began, has not settled, and its abort promise has not been told of the abort.
  predicate Watching(v: View, id: nat) {
    id in v.calls && !v.calls[id].progress.Finished? && !v.calls[id].sawAbort
  }

  ghost predicate Sound(v: View) {
    && (forall id :: id in v.listeners <==> Watching(v, id))
    && (forall id :: id in v.calls ==> CallIsSound(v, v.calls[id]))
  }

  ghost predicate CallIsSound(v: View, call: Call) {
    && !call.abort.Resolves?
    && (call.abort.Rejects? <==> call.sawAbort)
    && (call.sawAbort ==> v.aborted)
    && (v.aborted && !call.sawAbort ==> call.progress.Finished?)
    && call.operation != Some(AbortError)
    && (!call.progress.Running? && call.progress.result == AbortError ==> call.sawAbort)
    && (!call.progress.Running? && call.progress.result != AbortError ==> call.operation == Some(call.progress.result))
  }

  lemma StepIsSound(v: View, event: Event)
    requires Sound(v) && Enabled(v, event)
    ensures Sound(Step(v, event))
  {
  }

  // What a view says happened is what did happen.
  ghost predicate Recorded(v: View, events: seq<Event>) {
    && (v.aborted <==> AbortFires in events)
    && (forall id :: id in v.calls <==> Begin(id) in events)
    && (forall id :: id in v.calls ==> OperationRecorded(v.calls[id].operation, id, events))
    && (forall id :: id !in v.calls ==> OperationRecorded(None, id, events))
  }

  ghost predicate OperationRecorded(operation: Option<CallResult>, id: nat, events: seq<Event>) {
    && (operation == Some(Completed) <==> OperationEnds(id, true) in events)
    && (operation == Some(OperationError) <==> OperationEnds(id, false) in events)
  }

  // An event of another kind, or of another call, changes no operation.
  lemma OperationStays(operation: Option<CallResult>, id: nat, before: seq<Event>, event: Event)
    requires OperationRecorded(operation, id, before) && !(event.OperationEnds? && event.id == id)
    ensures OperationRecorded(operation, id, before + [event])
  {
  }

  lemma StepIsRecorded(v: View, before: seq<Event>, event: Event)
    requires Recorded(v, before) && Enabled(v, event)
    ensures Recorded(Step(v, event), before + [event])
  {
    var after := Step(v, event);
    forall id
      ensures id in after.calls <==> Begin(id) in before + [event]
      ensures OperationRecorded(if id in after.calls then after.calls[id].operation else None, id, before + [event])
    {
      if !(event.OperationEnds? && event.id == id) {
        OperationStays(if id in v.calls then v.calls[id].operation else None, id, before, event);
      }
    }
  }

  lemma {:induction false} RunsAreRecorded(events: seq<Event>)
    requires Run(events).Some?
    ensures Recorded(Run(events).value, events)
  {
    if events != [] {
      var before, last := events[..|events| - 1], events[|events| - 1];
      RunsAreRecorded(before);
      StepIsRecorded(Run(before).value, before, last);
      assert before + [last] == events;
    }
  }

  // An abort ends every call in flight: each one that awaits its operation can settle at once, with the abort
  // error.
  lemma AbortEndsCalls(events: seq<Event>, id: nat)
    requires Run(events).Some? && AbortFires in events && id in Run(events).value.calls
    requires Run(events).value.calls[id].progress.Running?
    ensures var settled := Run(events + [RaceEnds(id, true), Leave(id)]);
      settled.Some? && settled.value.calls[id].progress == Finished(AbortError) && id !in settled.value.listeners
  {
    RunsAreRecorded(events);
    ListenersAreWatchingCalls(events);
    RunGrows(events, RaceEnds(id, true));
    RunGrows(events + [RaceEnds(id, true)], Leave(id));
    assert events + [RaceEnds(id, true)] + [Leave(id)] == events + [RaceEnds(id, true), Leave(id)];
  }

  lemma RunGrows(events: seq<Event>, event: Event)
    requires Run(events).Some? && Enabled(Run(events).value, event)
    ensures Run(events + [event]) == Some(Step(Run(events).value, event))
  {
    assert (events + [event])[..|events|] == events;
  }

  // A call whose operation ends can settle with the result of its operation, whatever the signal did.
  lemma OperationSettlesCall(events: seq<Event>, id: nat, success: bool)
    requires Run(events).Some? && id in Run(events).value.calls
    requires Run(events).value.calls[id].progress.Running? && Run(events).value.calls[id].operation.None?
    ensures var settled := Run(events + [OperationEnds(id, success), RaceEnds(id, false), Leave(id)]);
      && settled.Some? && id !in settled.value.listeners
      && settled.value.calls[id].progress == Finished(if success then Completed else OperationError)
  {
    var ends, race, leave := OperationEnds(id, success), RaceEnds(id, false), Leave(id);
    RunGrows(events, ends);
    RunGrows(events + [ends], race);
    RunGrows(events + [ends] + [race], leave);
    assert events + [ends] + [race] + [leave] == events + [ends, race, leave];
  }

  // For every run of calls on one signal: the attached listeners are exactly those of the calls that have
  // not settled and have not seen the abort, so none remains once every call settled. A call succeeds only
  // with its own operation, and it fails with the abort error only after the abort. Without an abort it settles
  // exactly as its operation did.
  lemma {:induction false} ListenersAreWatchingCalls(events: seq<Event>)
    requires Run(events).Some?
    ensures var v := Run(events).value;
      && Sound(v)
      && ((forall id :: id in v.calls ==> v.calls[id].progress.Finished?) ==> v.listeners == {})
      && (v.aborted ==> v.listeners == {})
      && (forall id :: id in v.calls && v.calls[id].progress == Finished(Completed) ==>
            OperationEnds(id, true) in events)
      && (forall id :: id in v.calls && v.calls[id].progress == Finished(OperationError) ==>
            OperationEnds(id, false) in events)
      && (forall id :: id in v.calls && v.calls[id].progress == Finished(AbortError) ==> AbortFires in events)
  {
    RunsAreRecorded(events);
    if events != [] {
      ListenersAreWatchingCalls(events[..|events| - 1]);
      StepIsSound(Run(events[..|events| - 1]).value, events[|events| - 1]);
    }
  }

  // The signal and its calls as they change in place.
  class SharedSignal {
    var aborted: bool
    var listeners: set<nat>
    var calls: map<nat, Call>

    ghost function Abstract(): View
      reads this
    {
      View(aborted, listeners, calls)
    }

    constructor ()
      ensures Abstract() == View(false, {}, map[])
    {
      aborted, listeners, calls := false, {}, map[];
    }

    // withAbort up to its `await`.
    method BeginCall(id: nat)
      requires id !in calls
      modifies this
      ensures Abstract() == Step(old(Abstract()), Begin(id))
    {
      var promise := Pending;
      if aborted {
        promise := Rejects;
      } else {
        listeners := listeners + {id};
      }
      calls := calls[id := Call(promise, None, Running, aborted)];
    }

    // The abort event. Each listener rejects the promise of its call and is removed.
    method Fire()
      modifies this
      ensures Abstract() == Step(old(Abstract()), AbortFires)
    {
      if aborted {
        return;
      }
      aborted := true;
      var waiting := listeners * calls.Keys;
      ghost var before, all := calls, waiting;
      while waiting != {}
        invariant aborted && listeners == old(listeners)
        invariant waiting <= all == listeners * before.Keys
        invariant calls == map id | id in before ::
          if id in all - waiting then before[id].(abort := Rejects, sawAbort := true) else before[id]
        decreases waiting
      {
        var id :| id in waiting;
        calls := calls[id := calls[id].(abort := Rejects, sawAbort := true)];
        waiting := waiting - {id};
      }
      listeners := {};
    }

    // The `finally` block of withAbort.
    method LeaveCall(id: nat)
      requires id in calls && calls[id].progress.Leaving?
      modifies this
      ensures Abstract() == Step(old(Abstract()), Leave(id))
    {
      listeners := listeners - {id};
      calls := calls[id := calls[id].(progress := Finished(calls[id].progress.result))];
    }
  }
}
