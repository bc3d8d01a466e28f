// Runs of the windowing handlers under Prosody's retry model: staged state commits when an attempt
// succeeds and is dropped when it throws, while timers and notifications stay. A message, an excise, and a
// fired timer are tried until they succeed.
module WindowRuns {
  import opened Prelude
  import opened Attempts
  import opened Windowing
  import opened WindowOperations

  datatype Event<+M> = Message(message: M) | Timer | Excise

  // `done` lists the events whose handler succeeded. `exciseWaits` says that an excise failed and awaits
  // its retry.
  datatype System<M> = System(
    window: bool,
    pending: seq<M>,
    scheduled: nat,
    owed: nat,
    sent: seq<seq<M>>,
    exciseWaits: bool,
    done: seq<Event<M>>)

  datatype Move<M> = TimerFires | Try(event: Event<M>, fates: seq<Fate>)

  function Initial<M>(): System<M> {
    System(false, [], 0, 0, [], false, [])
  }

  function Handle<M>(event: Event<M>, w: World<M>): Attempt<World<M>> {
    match event
    case Message(message) => OnMessage(w, message)
    case Timer => OnTimer(w)
    case Excise => OnExcise(w)
  }

  function Begin<M>(s: System<M>, fates: seq<Fate>): World<M> {
    World(s.window, s.pending, s.scheduled, s.owed, s.sent, fates)
  }

  predicate Enabled<M(==)>(s: System<M>, move: Move<M>) {
    match move
    case TimerFires => s.scheduled > 0
    case Try(Message(m), _) => Message(m) !in s.done
    case Try(Timer, _) => s.owed > 0
    case Try(Excise, _) => true
  }

  // One firing or one attempt. An attempt that succeeds commits its staged state.
  function Next<M>(s: System<M>, move: Move<M>): System<M> {
    match move
    case TimerFires =>
      if s.scheduled > 0 then s.(scheduled := s.scheduled - 1, owed := s.owed + 1) else s
    case Try(event, fates) =>
      var r := Handle(event, Begin(s, fates));
      var kept := s.(scheduled := r.world.scheduled, owed := r.world.owed, sent := r.world.sent);
      if r.Threw? then kept.(exciseWaits := s.exciseWaits || event.Excise?)
      else
        kept.(window := r.world.window,
              pending := r.world.pending,
              owed := if event.Timer? && r.world.owed > 0 then r.world.owed - 1 else r.world.owed,
              exciseWaits := s.exciseWaits && !event.Excise?,
              done := s.done + [event])
  }

  function Run<M(==)>(moves: seq<Move<M>>): Option<System<M>> {
    if moves == [] then Some(Initial())
    else
      match Run(moves[..|moves| - 1])
      case None => None
      case Some(s) => if Enabled(s, moves[|moves| - 1]) then Some(Next(s, moves[|moves| - 1])) else None
  }

  // ----- Descriptions that know nothing of attempts, timers, or failures -----

  // The messages since the last timer or excise.
  function OpenSince<M>(done: seq<Event<M>>): seq<M> {
    if done == [] then []
    else match done[|done| - 1]
      case Message(m) => OpenSince(done[..|done| - 1]) + [m]
      case _ => []
  }

  // The state that a list of handled events leaves: the first message opens the window and is sent at once,
  // and the newest ones of the rest are saved.
  function Saved<M>(open: seq<M>): seq<M> {
    if open == [] then [] else Last(open[1..], CAPACITY)
  }

  // The first timer or excise at or after an index, or the end of the list.
  function NextReset<M>(done: seq<Event<M>>, i: nat): (r: nat)
    requires i <= |done|
    ensures i <= r <= |done|
    decreases |done| - i
  {
    if i == |done| || !done[i].Message? then i else NextReset(done, i + 1)
  }

  ghost predicate Notified<M>(message: M, sent: seq<seq<M>>) {
    exists k :: 0 <= k < |sent| && message in sent[k]
  }

  // What became of a handled message: it was notified, it is saved, at least 100 later messages of its
  // window pushed it out, or an excise removed it.
  ghost predicate Accounted<M>(s: System<M>, i: nat)
    requires i < |s.done| && s.done[i].Message?
  {
    var m, r := s.done[i].message, NextReset(s.done, i);
    || Notified(m, s.sent)
    || (r == |s.done| && m in s.pending)
    || r - i - 1 >= 100
    || (r < |s.done| && s.done[r].Excise?)
  }

  // ----- One attempt -----

  // A successful operation has its effect, and no operation changes the staged state otherwise.
  lemma OperationChanges<M>(w: World<M>, effect: Effect<M>)
    ensures var r := Perform(w, effect);
      && (r.Ok? ==>
          && r.world.window == (if effect.Stage? then effect.open else w.window)
          && r.world.pending == Apply(w, effect).pending
          && r.world.sent == Apply(w, effect).sent)
      && (r.Ok? && effect.Reschedule? ==> r.world.scheduled == 1)
      && (w.scheduled <= 1 ==> r.world.scheduled <= 1)
      && w.owed <= r.world.owed
      && w.sent <= r.world.sent
      && (!effect.Reschedule? && !effect.Unschedule? ==> r.world.scheduled + r.world.owed == w.scheduled + w.owed)
  {
  }

  // The facts about the operations of an open-window or first message.
  lemma MessageOperations<M>(w: World<M>, m: M)
    requires w.scheduled <= 1
    ensures var r := OnMessage(w, m);
      && r.world.scheduled <= 1 && r.world.owed >= w.owed && w.sent <= r.world.sent
      && (w.window ==> r.world.scheduled + r.world.owed == w.scheduled + w.owed)
      && (r.Ok? ==>
          && r.world.window
          && r.world.pending == (if w.window then Last(w.pending + [m], CAPACITY) else w.pending)
          && r.world.sent == (if w.window then w.sent else w.sent + [[m]])
          && (!w.window ==> r.world.scheduled == 1))
  {
    OperationChanges(w, Nothing);
    var read := Perform(w, Nothing).world;
    OperationChanges(read, Append(m));
    OperationChanges(read, Send([m]));
    var notified := Perform(read, Send([m])).world;
    OperationChanges(notified, Stage(true));
    OperationChanges(Perform(notified, Stage(true)).world, Reschedule);
  }

  lemma {:induction false} ScanChanges<M>(w: World<M>, left: nat)
    requires w.scheduled <= 1
    ensures var after := ScanRest(w, left).world;
      && after.window == w.window && after.pending == w.pending && after.sent == w.sent
      && after.scheduled <= 1 && after.owed >= w.owed && after.scheduled + after.owed == w.scheduled + w.owed
    decreases left
  {
    if left > 0 && Perform(w, Nothing).Ok? {
      ScanChanges(Perform(w, Nothing).world, left - 1);
    }
  }

  // A timer attempt that succeeds has notified exactly the batch it clears.
  lemma TimerOperations<M>(w: World<M>)
    requires w.scheduled <= 1
    ensures var r := OnTimer(w);
      && r.world.scheduled <= 1 && r.world.owed >= w.owed && w.sent <= r.world.sent
      && r.world.scheduled + r.world.owed == w.scheduled + w.owed
      && (r.Ok? ==>
          && !r.world.window && r.world.pending == []
          && r.world.sent == (if w.pending == [] then w.sent else w.sent + [w.pending]))
  {
    ScanChanges(w, |w.pending|);
    var scanned := ScanRest(w, |w.pending|).world;
    OperationChanges(scanned, Send(w.pending));
    var notified := if |w.pending| > 0 then Perform(scanned, Send(w.pending)).world else scanned;
    OperationChanges(notified, Empty);
    OperationChanges(Perform(notified, Empty).world, Stage(false));
  }

  lemma ExciseOperations<M>(w: World<M>)
    requires w.scheduled <= 1
    ensures var r := OnExcise(w);
      && r.world.scheduled <= 1 && r.world.owed >= w.owed && w.sent == r.world.sent
      && (r.Ok? ==> !r.world.window && r.world.pending == [] && r.world.scheduled == 0)
  {
    OperationChanges(w, Empty);
    var emptied := Perform(w, Empty).world;
    OperationChanges(emptied, Stage(false));
    OperationChanges(Perform(emptied, Stage(false)).world, Unschedule);
  }

  // ----- Every run -----

  // At most one timer is scheduled. An open window has a timer scheduled or owed a retry, unless an excise
  // awaits its retry.
  ghost predicate NotStuck<M>(s: System<M>) {
    && s.scheduled <= 1
    && (s.window ==> s.scheduled + s.owed >= 1 || s.exciseWaits)
  }

  // The committed state is the one the handled events leave.
  ghost predicate Committed<M>(s: System<M>) {
    && s.window == (OpenSince(s.done) != [])
    && s.pending == Saved(OpenSince(s.done))
  }

  lemma StepIsNotStuck<M>(s: System<M>, move: Move<M>)
    requires NotStuck(s) && Enabled(s, move)
    ensures NotStuck(Next(s, move))
  {
    if move.Try? {
      var w := Begin(s, move.fates);
      match move.event
      case Message(m) => MessageOperations(w, m);
      case Timer => TimerOperations(w);
      case Excise => ExciseOperations(w);
    }
  }

  lemma StepCommits<M>(s: System<M>, move: Move<M>)
    requires NotStuck(s) && Committed(s) && Enabled(s, move)
    ensures Committed(Next(s, move))
  {
    if move.Try? {
      var w := Begin(s, move.fates);
      match move.event
      case Message(m) =>
        MessageOperations(w, m);
        MessageCommits(s, m);
      case Timer => TimerOperations(w);
      case Excise => ExciseOperations(w);
    }
  }

  lemma OpenSinceGrows<M>(done: seq<Event<M>>, event: Event<M>)
    ensures OpenSince(done + [event]) == if event.Message? then OpenSince(done) + [event.message] else []
  {
    assert (done + [event])[..|done|] == done;
  }

  // A message opens the window, or it is saved.
  lemma MessageCommits<M>(s: System<M>, m: M)
    requires Committed(s)
    ensures var open := OpenSince(s.done + [Message(m)]);
      open != [] && Saved(open) == if s.window then Last(s.pending + [m], CAPACITY) else s.pending
  {
    var open := OpenSince(s.done);
    OpenSinceGrows(s.done, Message(m));
    if open != [] {
      assert (open + [m])[1..] == open[1..] + [m];
      LastAbsorbs(open[1..], m, CAPACITY);
    }
  }

  // Keeping the newest before and after an append keeps the newest.
  lemma LastAbsorbs<T>(s: seq<T>, x: T, n: nat)
    requires n > 0
    ensures Last(Last(s, n) + [x], n) == Last(s + [x], n)
  {
  }

  // In every reachable state no window is stuck, timers are not stacked, and failed attempts are
  // invisible: the committed state depends only on the events that succeeded, in order.
  lemma {:induction false} EveryRunCommits<M>(moves: seq<Move<M>>)
    requires Run(moves).Some?
    ensures NotStuck(Run(moves).value) && Committed(Run(moves).value)
  {
    if moves != [] {
      EveryRunCommits(moves[..|moves| - 1]);
      StepIsNotStuck(Run(moves[..|moves| - 1]).value, moves[|moves| - 1]);
      StepCommits(Run(moves[..|moves| - 1]).value, moves[|moves| - 1]);
    }
  }

  // ----- No repeats -----

  lemma {:induction false} DoneIsDistinct<M>(moves: seq<Move<M>>)
    requires Run(moves).Some?
    ensures var done := Run(moves).value.done;
      forall i, j :: 0 <= i < j < |done| && done[i].Message? ==> done[i] != done[j]
  {
    if moves != [] {
      DoneIsDistinct(moves[..|moves| - 1]);
    }
  }

  // Entry `k` of the messages since the last reset, seen in the list of events.
  lemma {:induction false} OpenSinceIsSuffix<M>(done: seq<Event<M>>, k: nat)
    requires k < |OpenSince(done)|
    ensures |OpenSince(done)| <= |done|
    ensures done[|done| - |OpenSince(done)| + k] == Message(OpenSince(done)[k])
  {
    if k < |OpenSince(done)| - 1 {
      OpenSinceIsSuffix(done[..|done| - 1], k);
    } else if |OpenSince(done)| > 1 {
      OpenSinceIsSuffix(done[..|done| - 1], 0);
    }
  }

  // The saved messages are the newest of those that followed the opening one, in order, without repeats,
  // and none when the window is closed.
  lemma SavedHasNoRepeats<M>(moves: seq<Move<M>>)
    requires Run(moves).Some?
    ensures Distinct(Run(moves).value.pending)
    ensures !Run(moves).value.window ==> Run(moves).value.pending == []
  {
    EveryRunCommits(moves);
    DoneIsDistinct(moves);
    var done := Run(moves).value.done;
    var open := OpenSince(done);
    forall i, j | 0 <= i < j < |open|
      ensures open[i] != open[j]
    {
      OpenSinceIsSuffix(done, i);
      OpenSinceIsSuffix(done, j);
    }
  }

  // ----- At least once -----

  // While the window is open, its first message has been notified, and every message of an earlier window
  // is accounted for.
  ghost predicate AllAccounted<M>(s: System<M>) {
    && (OpenSince(s.done) != [] ==> Notified(OpenSince(s.done)[0], s.sent))
    && forall i :: 0 <= i < |s.done| && s.done[i].Message? && NextReset(s.done, i) < |s.done| ==> Accounted(s, i)
  }

  lemma {:induction false} NextResetInPrefix<M>(done: seq<Event<M>>, event: Event<M>, i: nat)
    requires i <= |done|
    ensures NextReset(done, i) < |done| ==> NextReset(done + [event], i) == NextReset(done, i)
    ensures NextReset(done, i) == |done| ==>
      NextReset(done + [event], i) == (if event.Message? then |done| + 1 else |done|)
    decreases |done| - i
  {
    if i < |done| && done[i].Message? {
      NextResetInPrefix(done, event, i + 1);
    }
  }

  // A message with no later reset is one of the messages since the last reset.
  lemma {:induction false} InOpenBlock<M>(done: seq<Event<M>>, i: nat)
    requires i < |done| && done[i].Message? && NextReset(done, i) == |done|
    ensures |done| - i <= |OpenSince(done)|
    ensures OpenSince(done)[|OpenSince(done)| - (|done| - i)] == done[i].message
    decreases |done| - i
  {
    var before := done[..|done| - 1];
    assert done == before + [done[|done| - 1]];
    NextResetInPrefix(before, done[|done| - 1], i);
    if i < |done| - 1 {
      InOpenBlock(before, i);
    }
  }

  // A message of the current window is accounted for by the closed form of the committed state.
  lemma CurrentIsAccounted<M>(s: System<M>, i: nat)
    requires Committed(s) && i < |s.done| && s.done[i].Message? && NextReset(s.done, i) == |s.done|
    requires OpenSince(s.done) != [] && Notified(OpenSince(s.done)[0], s.sent)
    ensures Accounted(s, i)
  {
    InOpenBlock(s.done, i);
    var open := OpenSince(s.done);
    var p := |open| - (|s.done| - i);
    if p > 0 && |s.done| - i - 1 < CAPACITY {
      var tail := open[1..];
      assert tail[p - 1] == s.done[i].message;
      if |tail| > CAPACITY {
        assert s.pending[p - 1 - (|tail| - CAPACITY)] == s.done[i].message;
      }
    }
  }

  lemma NotifiedGrows<M>(message: M, a: seq<seq<M>>, b: seq<seq<M>>)
    requires Notified(message, a) && a <= b
    ensures Notified(message, b)
  {
  }

  // A reset settles the accounts of the window it closes.
  lemma OldStaysAccounted<M>(s: System<M>, after: System<M>, event: Event<M>, i: nat)
    requires Committed(s) && AllAccounted(s)
    requires i < |s.done| && s.done[i].Message? && after.done == s.done + [event] && s.sent <= after.sent
    requires event.Timer? && s.pending != [] ==> s.pending in after.sent
    requires NextReset(after.done, i) < |after.done|
    ensures Accounted(after, i)
  {
    var m := s.done[i].message;
    NextResetInPrefix(s.done, event, i);
    if NextReset(s.done, i) == |s.done| {
      InOpenBlock(s.done, i);
      CurrentIsAccounted(s, i);
      if m in s.pending && event.Timer? {
        var k :| 0 <= k < |after.sent| && after.sent[k] == s.pending;
        assert Notified(m, after.sent);
      }
    }
    if Notified(m, s.sent) {
      NotifiedGrows(m, s.sent, after.sent);
    }
  }

  // Notifications alone cost no message its account.
  lemma SendingKeepsAccounts<M>(s: System<M>, after: System<M>)
    requires AllAccounted(s) && after.done == s.done && after.pending == s.pending && s.sent <= after.sent
    ensures AllAccounted(after)
  {
    if OpenSince(s.done) != [] {
      NotifiedGrows(OpenSince(s.done)[0], s.sent, after.sent);
    }
    forall i | 0 <= i < |s.done| && s.done[i].Message? && NextReset(s.done, i) < |s.done|
      ensures Accounted(after, i)
    {
      if Notified(s.done[i].message, s.sent) {
        NotifiedGrows(s.done[i].message, s.sent, after.sent);
      }
    }
  }

  // A handled event keeps the accounts: an opening message was sent at once, and a timer sent the batch.
  lemma HandlingKeepsAccounts<M>(s: System<M>, after: System<M>, event: Event<M>)
    requires Committed(s) && AllAccounted(s) && after.done == s.done + [event] && s.sent <= after.sent
    requires event.Message? && !s.window ==> after.sent == s.sent + [[event.message]]
    requires event.Timer? && s.pending != [] ==> after.sent == s.sent + [s.pending]
    ensures AllAccounted(after)
  {
    assert after.done[..|s.done|] == s.done;
    if OpenSince(s.done) != [] {
      NotifiedGrows(OpenSince(s.done)[0], s.sent, after.sent);
    } else if event.Message? {
      assert event.message in after.sent[|s.sent|];
    }
    if event.Timer? && s.pending != [] {
      assert after.sent[|s.sent|] == s.pending;
    }
    forall i | 0 <= i < |after.done| && after.done[i].Message? && NextReset(after.done, i) < |after.done|
      ensures Accounted(after, i)
    {
      OldStaysAccounted(s, after, event, i);
    }
  }

  lemma StepAccounts<M>(s: System<M>, move: Move<M>)
    requires NotStuck(s) && Committed(s) && AllAccounted(s) && Enabled(s, move)
    ensures AllAccounted(Next(s, move))
  {
    var after := Next(s, move);
    if move.Try? {
      var w := Begin(s, move.fates);
      match move.event {
        case Message(m) => MessageOperations(w, m);
        case Timer => TimerOperations(w);
        case Excise => ExciseOperations(w);
      }
      if Handle(move.event, w).Ok? {
        HandlingKeepsAccounts(s, after, move.event);
      } else {
        SendingKeepsAccounts(s, after);
      }
    } else {
      SendingKeepsAccounts(s, after);
    }
  }

  lemma {:induction false} EveryRunAccounts<M>(moves: seq<Move<M>>)
    requires Run(moves).Some?
    ensures AllAccounted(Run(moves).value)
  {
    if moves != [] {
      var before := moves[..|moves| - 1];
      EveryRunCommits(before);
      EveryRunAccounts(before);
      StepAccounts(Run(before).value, moves[|moves| - 1]);
    }
  }

  // At-least-once delivery: in every reachable state every message whose handler succeeded was notified, is
  // saved, was pushed out by at least as many later messages as the capacity, or was excised.
  lemma NothingIsLost<M>(moves: seq<Move<M>>, i: nat)
    requires Run(moves).Some? && i < |Run(moves).value.done| && Run(moves).value.done[i].Message?
    ensures Accounted(Run(moves).value, i)
  {
    EveryRunCommits(moves);
    EveryRunAccounts(moves);
    var s := Run(moves).value;
    if NextReset(s.done, i) == |s.done| {
      InOpenBlock(s.done, i);
      CurrentIsAccounted(s, i);
    }
  }

  // A timer attempt either leaves the committed state alone, or it clears the batch after notifying exactly
  // that batch, as its last notification.
  lemma ClearedBatchWasNotified<M>(moves: seq<Move<M>>, fates: seq<Fate>)
    requires Run(moves).Some?
    ensures var s := Run(moves).value;
      var after := Next(s, Try(Timer, fates));
      if after.done == s.done then after.pending == s.pending && after.window == s.window
      else after.pending == [] && after.sent == (if s.pending == [] then s.sent else s.sent + [s.pending])
  {
    EveryRunCommits(moves);
    TimerOperations(Begin(Run(moves).value, fates));
  }

  // A successful excise leaves nothing saved, the window closed, and no timer scheduled.
  lemma ExciseForgets<M>(moves: seq<Move<M>>, fates: seq<Fate>)
    requires Run(moves).Some?
    ensures var s := Run(moves).value;
      var after := Next(s, Try(Excise, fates));
      if after.done == s.done then after.pending == s.pending && after.window == s.window && after.exciseWaits
      else after.pending == [] && !after.window && after.scheduled == 0 && !after.exciseWaits
  {
    EveryRunCommits(moves);
    ExciseOperations(Begin(Run(moves).value, fates));
  }

  // Two runs whose attempts succeeded on the same events, in the same order, committed the same state,
  // whatever failed, fired, or was retried in between.
  lemma FailedAttemptsAreInvisible<M>(a: seq<Move<M>>, b: seq<Move<M>>)
    requires Run(a).Some? && Run(b).Some? && Run(a).value.done == Run(b).value.done
    ensures Run(a).value.window == Run(b).value.window && Run(a).value.pending == Run(b).value.pending
  {
    EveryRunCommits(a);
    EveryRunCommits(b);
  }

  // No fired timer is owed, and none fires before the next operations.
  ghost predicate NoStaleTimer<M>(w: World<M>, operations: nat) {
    w.owed == 0 && !(w.scheduled > 0 && TimerIsDue(w.fates, operations))
  }

  // One operation uses up one fate.
  lemma OperationFates<M>(w: World<M>, effect: Effect<M>, operations: nat)
    requires operations > 0 && !effect.Unschedule?
    ensures var r := Perform(w, effect);
      && (AllWork(w.fates, operations) <==> r.Ok? && AllWork(r.world.fates, operations - 1))
      && (NoStaleTimer(w, operations) <==>
          NoStaleTimer(if effect.Reschedule? then Arrived(w) else r.world, operations - 1))
  {
    if w.fates != [] {
      FirstFate(w.fates, operations);
    }
  }

  // An attempt to open a window succeeds when its four operations work. It then leaves exactly one outstanding
  // timer if and only if no fired timer was owed and no timer of a rolled-back attempt fires on the way.
  lemma OpeningTimers<M>(s: System<M>, m: M, fates: seq<Fate>)
    requires !s.window
    ensures Handle(Message(m), Begin(s, fates)).Ok? <==> AllWork(fates, 4)
    ensures AllWork(fates, 4) ==>
      var after := Next(s, Try(Message(m), fates));
      after.scheduled + after.owed == 1 <==> s.owed == 0 && !(s.scheduled > 0 && TimerIsDue(fates, 4))
  {
    var w := Begin(s, fates);
    OperationFates(w, Nothing, 4);
    var read := Perform(w, Nothing).world;
    OperationFates(read, Send([m]), 3);
    var notified := Perform(read, Send([m])).world;
    OperationFates(notified, Stage(true), 2);
    OperationFates(Perform(notified, Stage(true)).world, Reschedule, 1);
  }

  lemma StaleTimerCanOverlap<M>(m: M)
    ensures var works := Fate(false, Works);
      var moves := [Try(Message(m), [works, works, works, Fate(false, ThrowsAfter)]), TimerFires, Try(Message(m), [])];
      Run(moves).Some? && Run(moves).value.window && Run(moves).value.scheduled == 1 && Run(moves).value.owed == 1
  {
    var works := Fate(false, Works);
    var first: Move<M> := Try(Message(m), [works, works, works, Fate(false, ThrowsAfter)]);
    var second: Move<M> := Try(Message(m), []);
    assert [first, TimerFires, second][..2] == [first, TimerFires];
    assert [first, TimerFires][..1] == [first];
    assert [first][..0] == [];
    var late := Fate(false, ThrowsAfter);
    var w := Begin(Initial<M>(), [works, works, works, late]);
    assert w.fates[1..] == [works, works, late] && w.fates[1..][1..] == [works, late] && [works, late][1..] == [late];
    var read := w.(fates := [works, works, late]);
    assert Perform(w, Nothing) == Ok(read);
    var notified := w.(fates := [works, late], sent := [[m]]);
    assert read.fates[1..] == [works, late] && Arrived(read) == read.(fates := [works, late]);
    assert NextFate(read) == works && read.sent + [[m]] == [[m]];
    assert Perform(read, Send([m])) == Ok(notified);
    assert Perform(notified, Stage(true)) == Ok(notified.(fates := [late], window := true));
    assert Run([first]) == Some(Initial<M>().(scheduled := 1, sent := [[m]]));
    assert Run([first, TimerFires]) == Some(Initial<M>().(owed := 1, sent := [[m]]));
  }
}
