// What one more attempt does to a reachable state of the windowing example, decided by the state and the fates of its
// operations.
module WindowOutcomes {
  import opened Prelude
  import opened Attempts
  import opened Windowing
  import opened WindowOperations
  import opened WindowRuns

  // The awaited operations of an attempt that succeeds.
  function OperationCount<M>(s: System<M>, event: Event<M>): nat {
    match event
    case Message(_) => if s.window then 2 else 4
    case Timer => if s.pending == [] then 3 else |s.pending| + 4
    case Excise => 3
  }

  // The state that a successful attempt leaves when `fired` of the scheduled timers fired during it.
  function Succeeded<M>(s: System<M>, event: Event<M>, fired: nat): System<M>
    requires fired <= s.scheduled && (event.Timer? ==> s.owed > 0)
  {
    match event
    case Message(m) =>
      if s.window then
        s.(pending := if |s.pending| < 100 then s.pending + [m] else s.pending[1..] + [m],
           scheduled := s.scheduled - fired, owed := s.owed + fired, done := s.done + [event])
      else
        s.(window := true, scheduled := 1, owed := s.owed + fired, sent := s.sent + [[m]], done := s.done + [event])
    case Timer =>
      s.(window := false, pending := [], scheduled := s.scheduled - fired, owed := s.owed + fired - 1,
         sent := if s.pending == [] then s.sent else s.sent + [s.pending], done := s.done + [event])
    case Excise =>
      s.(window := false, pending := [], scheduled := 0, owed := s.owed + fired, exciseWaits := false,
         done := s.done + [event])
  }

  ghost predicate Possible<M>(s: System<M>, event: Event<M>) {
    (event.Message? ==> event !in s.done) && (event.Timer? ==> s.owed > 0)
  }

  // In every reachable state an attempt succeeds exactly when each of its operations works, and then it leaves
  // exactly the state above. One that fails commits nothing.
  lemma AttemptIsDecided<M>(moves: seq<Move<M>>, event: Event<M>, fates: seq<Fate>)
    requires Run(moves).Some? && Possible(Run(moves).value, event)
    ensures var s := Run(moves).value;
      var n, after := OperationCount(s, event), Run(moves + [Try(event, fates)]);
      && s.scheduled <= 1 && after.Some?
      && if AllWork(fates, n) then
           after.value == Succeeded(s, event, if s.scheduled > 0 && TimerIsDue(fates, n) then 1 else 0)
         else
           && after.value.done == s.done && after.value.window == s.window && after.value.pending == s.pending
           && after.value.exciseWaits == (s.exciseWaits || event.Excise?)
  {
    EveryRunCommits(moves);
    assert (moves + [Try(event, fates)])[..|moves|] == moves;
    var s := Run(moves).value;
    match event
    case Message(m) => MessageIsDecided(s, m, fates);
    case Timer => TimerIsDecided(s, fates);
    case Excise => ExciseIsDecided(s, fates);
  }

  lemma MessageIsDecided<M>(s: System<M>, m: M, fates: seq<Fate>)
    requires NotStuck(s) && |s.pending| <= 100
    ensures var n := OperationCount(s, Message(m));
      && (Handle(Message(m), Begin(s, fates)).Ok? <==> AllWork(fates, n))
      && (AllWork(fates, n) ==> Next(s, Try(Message(m), fates)) == Succeeded(s, Message(m), Fires(Begin(s, fates), n)))
  {
    var w := Begin(s, fates);
    var opening := [Nothing, Send([m]), Stage(true)];
    var effects := if s.window then [Nothing, Append(m)] else opening + [Reschedule];
    assert opening + [Reschedule] == [Nothing, Send([m]), Stage(true), Reschedule];
    MessagePerforms(w, m);
    SucceedsWhenAllWork(w, effects);
    MessageOperations(w, m);
    if AllWork(fates, |effects|) {
      if s.window {
        TimersDrift(w, effects);
      } else {
        TimersReplaced(w, opening, Reschedule);
      }
    }
  }

  // A timer attempt succeeds when its operations work, and moves only the timers that fire.
  lemma TimerSucceeds<M>(w: World<M>, n: nat)
    requires w.scheduled <= 1 && n == if w.pending == [] then 3 else |w.pending| + 4
    ensures OnTimer(w).Ok? <==> AllWork(w.fates, n)
    ensures OnTimer(w).Ok? ==>
      OnTimer(w).world.scheduled == w.scheduled - Fires(w, n) && OnTimer(w).world.owed == w.owed + Fires(w, n)
  {
    var effects := Pulls(|w.pending| + 1)
      + (if w.pending == [] then [Empty, Stage(false)] else [Send(w.pending), Empty, Stage(false)]);
    TimerPerforms(w);
    SucceedsWhenAllWork(w, effects);
    if OnTimer(w).Ok? {
      TimersDrift(w, effects);
    }
  }

  lemma TimerIsDecided<M>(s: System<M>, fates: seq<Fate>)
    requires NotStuck(s) && s.owed > 0
    ensures var n := OperationCount(s, Timer);
      && (Handle(Timer, Begin(s, fates)).Ok? <==> AllWork(fates, n))
      && (AllWork(fates, n) ==> Next(s, Try(Timer, fates)) == Succeeded(s, Timer, Fires(Begin(s, fates), n)))
  {
    TimerSucceeds(Begin(s, fates), OperationCount(s, Timer));
    TimerOperations(Begin(s, fates));
  }

  lemma ExciseIsDecided<M>(s: System<M>, fates: seq<Fate>)
    requires NotStuck(s)
    ensures Handle(Excise, Begin(s, fates)).Ok? <==> AllWork(fates, 3)
    ensures AllWork(fates, 3) ==> Next(s, Try(Excise, fates)) == Succeeded(s, Excise, Fires(Begin(s, fates), 3))
  {
    var w := Begin(s, fates);
    var clearing: seq<Effect<M>> := [Empty, Stage(false)];
    assert clearing + [Unschedule] == [Empty, Stage(false), Unschedule];
    ExcisePerforms(w);
    SucceedsWhenAllWork(w, clearing + [Unschedule]);
    ExciseOperations(w);
    if AllWork(fates, 3) {
      TimersReplaced(w, clearing, Unschedule);
    }
  }

  lemma MessageNotifies<M>(w: World<M>, m: M)
    ensures OnMessage(w, m).world.sent == if !w.window && TakesEffect(w.fates, 1) then w.sent + [[m]] else w.sent
  {
    MessagePerforms(w, m);
    if w.window {
      NoNotification(w, [Nothing, Append(m)]);
    } else {
      assert [Nothing, Send([m]), Stage(true), Reschedule] == [Nothing] + ([Send([m])] + [Stage(true), Reschedule]);
      NotifiesOnce(w, [Nothing], [m], [Stage(true), Reschedule]);
    }
  }

  lemma TimerNotifies<M>(w: World<M>)
    ensures OnTimer(w).world.sent
         == if w.pending != [] && TakesEffect(w.fates, |w.pending| + 1) then w.sent + [w.pending] else w.sent
  {
    TimerPerforms(w);
    var pulls: seq<Effect<M>> := Pulls(|w.pending| + 1);
    if w.pending == [] {
      NoNotification(w, pulls + [Empty, Stage(false)]);
    } else {
      assert [Send(w.pending), Empty, Stage(false)] == [Send(w.pending)] + [Empty, Stage(false)];
      NotifiesOnce(w, pulls, w.pending, [Empty, Stage(false)]);
    }
  }

  // The notification of an attempt: the first message of a window, or a batch that is not empty. It goes out exactly
  // when its operation takes effect, also from an attempt that then fails.
  lemma NotificationIsDecided<M>(s: System<M>, event: Event<M>, fates: seq<Fate>)
    ensures Next(s, Try(event, fates)).sent == match event
      case Message(m) => if !s.window && TakesEffect(fates, 1) then s.sent + [[m]] else s.sent
      case Timer => if s.pending != [] && TakesEffect(fates, |s.pending| + 1) then s.sent + [s.pending] else s.sent
      case Excise => s.sent
  {
    match event
    case Message(m) => MessageNotifies(Begin(s, fates), m);
    case Timer => TimerNotifies(Begin(s, fates));
    case Excise =>
      ExcisePerforms(Begin(s, fates));
      NoNotification(Begin(s, fates), [Empty, Stage(false), Unschedule]);
  }

  // Every open window can be closed, unless an excise awaits its retry: its timer fires or is owed, and an attempt
  // whose operations work sends the batch and closes the window.
  lemma WindowCanClose<M>(moves: seq<Move<M>>)
    requires Run(moves).Some? && Run(moves).value.window && !Run(moves).value.exciseWaits
    ensures var s := Run(moves).value;
      var closed := Run(moves + (if s.owed > 0 then [] else [TimerFires]) + [Try(Timer, [])]);
      && closed.Some? && !closed.value.window && closed.value.pending == []
      && closed.value.sent == if s.pending == [] then s.sent else s.sent + [s.pending]
  {
    EveryRunCommits(moves);
    var s := Run(moves).value;
    var fired := moves + if s.owed > 0 then [] else [TimerFires];
    assert (moves + [TimerFires])[..|moves|] == moves;
    assert moves + [] == moves;
    AttemptIsDecided(fired, Timer, []);
  }
}
