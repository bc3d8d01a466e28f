// The windowing handlers as lists of awaited operations: which operations an attempt performs, in which order, and
// what decides that it succeeds.
module WindowOperations {
  import opened Prelude
  import opened Attempts
  import opened Windowing

  // Performs operations in order. The first one that throws ends the attempt.
  function PerformAll<M>(w: World<M>, effects: seq<Effect<M>>): Attempt<World<M>>
    decreases |effects|
  {
    if effects == [] then Ok(w)
    else
      var next :- Perform(w, effects[0]);
      PerformAll(next, effects[1..])
  }

  function Pulls<M>(n: nat): seq<Effect<M>> {
    seq(n, i => Nothing)
  }

  lemma PerformFirst<M>(w: World<M>, first: Effect<M>, rest: seq<Effect<M>>)
    ensures PerformAll(w, [first] + rest)
         == if Perform(w, first).Threw? then Perform(w, first) else PerformAll(Perform(w, first).world, rest)
  {
    assert ([first] + rest)[1..] == rest;
  }

  lemma {:induction false} PerformInTurn<M>(w: World<M>, before: seq<Effect<M>>, rest: seq<Effect<M>>)
    ensures PerformAll(w, before + rest)
         == if PerformAll(w, before).Threw? then PerformAll(w, before)
            else PerformAll(PerformAll(w, before).world, rest)
    decreases |before|
  {
    if before == [] {
      assert before + rest == rest;
    } else {
      assert (before + rest)[1..] == before[1..] + rest;
      if Perform(w, before[0]).Ok? {
        PerformInTurn(Perform(w, before[0]).world, before[1..], rest);
      }
    }
  }

  lemma OneFateUsed<M>(w: World<M>, effect: Effect<M>)
    ensures Perform(w, effect).world.fates == if w.fates == [] then [] else w.fates[1..]
  {
  }

  // Each operation uses up one fate.
  lemma {:induction false} FatesUsed<M>(w: World<M>, effects: seq<Effect<M>>)
    requires PerformAll(w, effects).Ok?
    ensures PerformAll(w, effects).world.fates == if |w.fates| <= |effects| then [] else w.fates[|effects|..]
    decreases |effects|
  {
    if effects != [] {
      FatesUsed(Perform(w, effects[0]).world, effects[1..]);
      OneFateUsed(w, effects[0]);
      if |w.fates| > |effects| {
        assert w.fates[1..][|effects| - 1..] == w.fates[|effects|..];
      }
    }
  }

  lemma PerformTwo<M>(w: World<M>, a: Effect<M>, b: Effect<M>)
    ensures PerformAll(w, [a, b]) == if Perform(w, a).Threw? then Perform(w, a) else Perform(Perform(w, a).world, b)
  {
    assert [a, b] == [a] + [b] && [b] == [b] + [];
    PerformFirst(w, a, [b]);
    PerformFirst(Perform(w, a).world, b, []);
  }

  // ----- What each handler performs -----

  // A message reads the window. The first one notifies, opens the window, and replaces the timer, in this order.
  // A later one is only saved.
  lemma MessagePerforms<M>(w: World<M>, m: M)
    ensures OnMessage(w, m)
         == PerformAll(w, if w.window then [Nothing, Append(m)] else [Nothing, Send([m]), Stage(true), Reschedule])
  {
    var read := Perform(w, Nothing).world;
    if w.window {
      PerformTwo(w, Nothing, Append(m));
    } else {
      assert [Nothing, Send([m]), Stage(true), Reschedule] == [Nothing] + ([Send([m])] + [Stage(true), Reschedule]);
      PerformFirst(w, Nothing, [Send([m])] + [Stage(true), Reschedule]);
      PerformFirst(read, Send([m]), [Stage(true), Reschedule]);
      PerformTwo(Perform(read, Send([m])).world, Stage(true), Reschedule);
    }
  }

  // A timer pulls every saved message and the end of the scan. It notifies a batch that is not empty, then
  // empties the batch, then closes the window.
  lemma TimerPerforms<M>(w: World<M>)
    ensures OnTimer(w) == PerformAll(w, Pulls(|w.pending| + 1)
      + (if w.pending == [] then [Empty, Stage(false)] else [Send(w.pending), Empty, Stage(false)]))
  {
    ScanPerforms(w, |w.pending|,
                 if w.pending == [] then [Empty, Stage(false)] else [Send(w.pending), Empty, Stage(false)]);
    var scanned := ScanRest(w, |w.pending|).world;
    if w.pending == [] {
      PerformTwo(scanned, Empty, Stage(false));
    } else {
      assert [Send(w.pending), Empty, Stage(false)] == [Send(w.pending)] + [Empty, Stage(false)];
      PerformFirst(scanned, Send(w.pending), [Empty, Stage(false)]);
      PerformTwo(Perform(scanned, Send(w.pending)).world, Empty, Stage(false));
    }
  }

  // An excise empties the batch, closes the window, and clears the timer.
  lemma ExcisePerforms<M>(w: World<M>)
    ensures OnExcise(w) == PerformAll(w, [Empty, Stage(false), Unschedule])
  {
    assert [Empty, Stage(false), Unschedule] == [Effect<M>.Empty] + [Stage(false), Unschedule];
    PerformFirst(w, Empty, [Stage(false), Unschedule]);
    PerformTwo(Perform(w, Empty).world, Stage(false), Unschedule);
  }

  lemma {:induction false} ScanPerforms<M>(w: World<M>, left: nat, rest: seq<Effect<M>>)
    ensures var scanned := ScanRest(w, left);
      PerformAll(w, Pulls(left + 1) + rest)
         == if scanned.Threw? then scanned else PerformAll(scanned.world, rest)
    decreases left
  {
    var effects := Pulls(left + 1) + rest;
    assert effects[0] == Nothing;
    assert effects[1..] == Pulls(left) + rest;
    if left == 0 {
      assert effects[1..] == rest;
    } else if Perform(w, Nothing).Ok? {
      ScanPerforms(Perform(w, Nothing).world, left - 1, rest);
    }
  }

  // ----- What decides success -----

  // All of the first operations of an attempt work.
  ghost predicate AllWork(fates: seq<Fate>, operations: nat) {
    forall i :: 0 <= i < operations && i < |fates| ==> fates[i].outcome.Works?
  }

  // A timer is due just before one of the first operations of an attempt.
  ghost predicate TimerIsDue(fates: seq<Fate>, operations: nat) {
    exists i :: 0 <= i < operations && i < |fates| && fates[i].timerFires
  }

  lemma FirstFate(fates: seq<Fate>, operations: nat)
    requires operations > 0 && fates != []
    ensures AllWork(fates, operations) <==> fates[0].outcome.Works? && AllWork(fates[1..], operations - 1)
    ensures TimerIsDue(fates, operations) <==> fates[0].timerFires || TimerIsDue(fates[1..], operations - 1)
  {
    assert forall i :: 0 < i < |fates| ==> fates[i] == fates[1..][i - 1];
  }

  // An attempt succeeds exactly when each of its operations works.
  lemma {:induction false} SucceedsWhenAllWork<M>(w: World<M>, effects: seq<Effect<M>>)
    ensures PerformAll(w, effects).Ok? <==> AllWork(w.fates, |effects|)
    decreases |effects|
  {
    if effects != [] {
      if w.fates != [] {
        FirstFate(w.fates, |effects|);
      }
      if Perform(w, effects[0]).Ok? {
        SucceedsWhenAllWork(Perform(w, effects[0]).world, effects[1..]);
      }
    }
  }

  // ----- Timers -----

  // The timers that fire during the first operations, when at most one is scheduled.
  ghost function Fires<M>(w: World<M>, operations: nat): nat {
    if w.scheduled > 0 && TimerIsDue(w.fates, operations) then 1 else 0
  }

  lemma FiresFirst<M>(w: World<M>, operations: nat)
    requires operations > 0 && w.scheduled <= 1
    ensures Arrived(w).scheduled <= 1
    ensures Arrived(w).scheduled - Fires(Arrived(w), operations - 1) == w.scheduled - Fires(w, operations)
    ensures Arrived(w).owed + Fires(Arrived(w), operations - 1) == w.owed + Fires(w, operations)
  {
    if w.fates != [] {
      FirstFate(w.fates, operations);
    }
  }

  ghost predicate KeepsTimers<M>(effects: seq<Effect<M>>) {
    forall i :: 0 <= i < |effects| ==> !effects[i].Reschedule? && !effects[i].Unschedule?
  }

  // Operations that leave the timers alone: only the ones that fire move, from scheduled to owed.
  lemma {:induction false} TimersDrift<M>(w: World<M>, effects: seq<Effect<M>>)
    requires w.scheduled <= 1 && PerformAll(w, effects).Ok?
    requires KeepsTimers(effects)
    ensures var after := PerformAll(w, effects).world;
      after.scheduled == w.scheduled - Fires(w, |effects|) && after.owed == w.owed + Fires(w, |effects|)
    decreases |effects|
  {
    if effects != [] {
      FiresFirst(w, |effects|);
      TimersDrift(Perform(w, effects[0]).world, effects[1..]);
    }
  }

  // A last operation that replaces or clears the timer decides what is scheduled.
  lemma {:induction false} TimersReplaced<M>(w: World<M>, effects: seq<Effect<M>>, last: Effect<M>)
    requires w.scheduled <= 1 && PerformAll(w, effects + [last]).Ok? && (last.Reschedule? || last.Unschedule?)
    requires KeepsTimers(effects)
    ensures var after := PerformAll(w, effects + [last]).world;
      && after.scheduled == (if last.Reschedule? then 1 else 0)
      && after.owed == w.owed + Fires(w, |effects| + 1)
    decreases |effects|
  {
    FiresFirst(w, |effects| + 1);
    if effects == [] {
      assert ([] + [last])[1..] == [];
    } else {
      assert (effects + [last])[0] == effects[0] && (effects + [last])[1..] == effects[1..] + [last];
      TimersReplaced(Perform(w, effects[0]).world, effects[1..], last);
    }
  }

  // ----- Notifications -----

  // The operation at an index is reached and takes effect, whether or not it then throws.
  ghost predicate TakesEffect(fates: seq<Fate>, index: nat) {
    AllWork(fates, index) && (index < |fates| ==> fates[index].outcome.Works? || fates[index].outcome.ThrowsAfter?)
  }

  ghost predicate IsSilent<M>(effects: seq<Effect<M>>) {
    forall i :: 0 <= i < |effects| ==> !effects[i].Send?
  }

  lemma {:induction false} NoNotification<M>(w: World<M>, effects: seq<Effect<M>>)
    requires IsSilent(effects)
    ensures PerformAll(w, effects).world.sent == w.sent
    decreases |effects|
  {
    if effects != [] {
      if Perform(w, effects[0]).Ok? {
        NoNotification(Perform(w, effects[0]).world, effects[1..]);
      }
    }
  }

  lemma NotifiesFirst<M>(w: World<M>, batch: seq<M>, rest: seq<Effect<M>>)
    requires IsSilent(rest)
    ensures PerformAll(w, [Send(batch)] + rest).world.sent
         == if TakesEffect(w.fates, 0) then w.sent + [batch] else w.sent
  {
    PerformFirst(w, Send(batch), rest);
    if Perform(w, Send(batch)).Ok? {
      NoNotification(Perform(w, Send(batch)).world, rest);
    }
  }

  // The one notification of an attempt goes out exactly when its operation takes effect, even if the attempt fails.
  lemma NotifiesOnce<M>(w: World<M>, before: seq<Effect<M>>, batch: seq<M>, rest: seq<Effect<M>>)
    requires IsSilent(before) && IsSilent(rest)
    ensures PerformAll(w, before + ([Send(batch)] + rest)).world.sent
         == if TakesEffect(w.fates, |before|) then w.sent + [batch] else w.sent
  {
    PerformInTurn(w, before, [Send(batch)] + rest);
    NoNotification(w, before);
    SucceedsWhenAllWork(w, before);
    if PerformAll(w, before).Ok? {
      FatesUsed(w, before);
      NotifiesFirst(PerformAll(w, before).world, batch, rest);
    }
  }

  // An operation that throws may have taken effect, in whole or in part, or not at all, and a scheduled timer may
  // fire just before it.
  lemma ThrowingMayTakeEffect<M>(w: World<M>, batch: seq<M>)
    requires w.scheduled == 1
    ensures Perform(w.(fates := [Fate(false, ThrowsBefore)]), Send(batch)) == Threw(w.(fates := []))
    ensures Perform(w.(fates := [Fate(false, ThrowsAfter)]), Send(batch))
         == Threw(w.(fates := [], sent := w.sent + [batch]))
    ensures Perform(w.(fates := [Fate(false, ThrowsMidway)]), Reschedule) == Threw(w.(fates := [], scheduled := 0))
    ensures Perform(w.(fates := [Fate(true, ThrowsAfter)]), Reschedule)
         == Threw(w.(fates := [], scheduled := 1, owed := w.owed + 1))
    ensures Perform(w.(fates := [Fate(true, ThrowsAfter)]), Unschedule)
         == Threw(w.(fates := [], scheduled := 0, owed := w.owed + 1))
  {
    assert forall fate: Fate :: [fate][1..] == [];
  }
}
