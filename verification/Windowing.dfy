// examples/windowing.ts: the handlers of the windowing example, run by one attempt for one key.
module Windowing {
  import opened Prelude
  import opened Attempts

  // How an operation goes, and whether a scheduled timer fires just before it.
  datatype Fate = Fate(timerFires: bool, outcome: Outcome)

  // What an attempt sees and changes. `window` and `pending` are the staged view of the keyed state. The
  // timers and the notifications are outside the state transaction. `owed` counts the timers that fired
  // and whose handler has not succeeded yet. `fates` decides the next operations. When it runs out they work.
  datatype World<M> = World(
    window: bool,
    pending: seq<M>,
    scheduled: nat,
    owed: nat,
    sent: seq<seq<M>>,
    fates: seq<Fate>)

  // ----- Operations -----

  function Fired<M>(w: World<M>): World<M> {
    if w.scheduled > 0 then w.(scheduled := w.scheduled - 1, owed := w.owed + 1) else w
  }

  function NextFate<M>(w: World<M>): Fate {
    if w.fates == [] then Fate(false, Works) else w.fates[0]
  }

  // The world an operation finds: the next fate is used up, and its timer may have fired.
  function Arrived<M>(w: World<M>): World<M> {
    var next := w.(fates := if w.fates == [] then [] else w.fates[1..]);
    if NextFate(w).timerFires then Fired(next) else next
  }

  datatype Effect<M> =
    | Nothing
    | Send(batch: seq<M>)
    | Stage(open: bool)
    | Append(message: M)
    | Empty
    | Reschedule
    | Unschedule

  // The effect of an operation. A push past the capacity drops the front.
  function Apply<M>(w: World<M>, effect: Effect<M>): World<M> {
    match effect
    case Nothing => w
    case Send(batch) => w.(sent := w.sent + [batch])
    case Stage(open) => w.(window := open)
    case Append(message) => w.(pending := Last(w.pending + [message], CAPACITY))
    case Empty => w.(pending := [])
    case Reschedule => w.(scheduled := 1)
    case Unschedule => w.(scheduled := 0)
  }

  // Clearing and scheduling has two parts. Any other operation has one.
  function ApplyPart<M>(w: World<M>, effect: Effect<M>): World<M> {
    if effect.Reschedule? then w.(scheduled := 0) else w
  }

  function Perform<M>(w: World<M>, effect: Effect<M>): Attempt<World<M>> {
    var before := Arrived(w);
    match NextFate(w).outcome
    case Works => Ok(Apply(before, effect))
    case ThrowsBefore => Threw(before)
    case ThrowsMidway => Threw(ApplyPart(before, effect))
    case ThrowsAfter => Threw(Apply(before, effect))
  }

  // Pulls the rest of a scan. Every item and the end of the scan are one pull each.
  function ScanRest<M>(w: World<M>, left: nat): Attempt<World<M>>
    decreases left
  {
    var pulled :- Perform(w, Nothing);
    if left == 0 then Ok(pulled) else ScanRest(pulled, left - 1)
  }

  // ----- Handlers -----

  function OnMessage<M>(w: World<M>, message: M): Attempt<World<M>> {
    var read :- Perform(w, Nothing);
    if !read.window then
      var notified :- Perform(read, Send([message]));
      var staged :- Perform(notified, Stage(true));
      Perform(staged, Reschedule)
    else
      Perform(read, Append(message))
  }

  function OnTimer<M>(w: World<M>): Attempt<World<M>> {
    var scanned :- ScanRest(w, |w.pending|);
    var notified :- if |w.pending| > 0 then Perform(scanned, Send(w.pending)) else Ok(scanned);
    var emptied :- Perform(notified, Empty);
    Perform(emptied, Stage(false))
  }

  function OnExcise<M>(w: World<M>): Attempt<World<M>> {
    var emptied :- Perform(w, Empty);
    var closed :- Perform(emptied, Stage(false));
    Perform(closed, Unschedule)
  }

  // ----- The handlers as they run -----

  // The context of one attempt. Every method awaits one operation and reports whether it threw.
  class Context<M> {
    var window: bool
    var pending: seq<M>
    var scheduled: nat
    var owed: nat
    var sent: seq<seq<M>>
    var fates: seq<Fate>

    ghost function View(): World<M>
      reads this
    {
      World(window, pending, scheduled, owed, sent, fates)
    }

    constructor (world: World<M>)
      ensures View() == world
    {
      window, pending, scheduled, owed := world.window, world.pending, world.scheduled, world.owed;
      sent, fates := world.sent, world.fates;
    }

    // Uses up the next fate.
    method Arrive() returns (outcome: Outcome)
      modifies this
      ensures View() == Arrived(old(View())) && outcome == NextFate(old(View())).outcome
    {
      var fate := Fate(false, Works);
      if fates != [] {
        fate := fates[0];
        fates := fates[1..];
      }
      if fate.timerFires && scheduled > 0 {
        scheduled, owed := scheduled - 1, owed + 1;
      }
      return fate.outcome;
    }

    method GetWindow() returns (ok: bool, open: bool)
      modifies this
      ensures View() == Perform(old(View()), Nothing).world && ok == Perform(old(View()), Nothing).Ok? && open == window
    {
      var outcome := Arrive();
      return outcome.Works?, window;
    }

    // One step of `for await (… of pending.values())`: the item at a position, or None at the end.
    method PullPending(position: nat) returns (ok: bool, item: Option<M>)
      modifies this
      ensures View() == Perform(old(View()), Nothing).world && ok == Perform(old(View()), Nothing).Ok?
      ensures item == if position < |pending| then Some(pending[position]) else None
    {
      var outcome := Arrive();
      return outcome.Works?, if position < |pending| then Some(pending[position]) else None;
    }

    method SendNotification(batch: seq<M>) returns (ok: bool)
      modifies this
      ensures View() == Perform(old(View()), Send(batch)).world && ok == Perform(old(View()), Send(batch)).Ok?
    {
      var outcome := Arrive();
      if outcome.Works? || outcome.ThrowsAfter? {
        sent := sent + [batch];
      }
      return outcome.Works?;
    }

    method StageWindow(open: bool) returns (ok: bool)
      modifies this
      ensures View() == Perform(old(View()), Stage(open)).world && ok == Perform(old(View()), Stage(open)).Ok?
    {
      var outcome := Arrive();
      if outcome.Works? || outcome.ThrowsAfter? {
        window := open;
      }
      return outcome.Works?;
    }

    // Appends a message. A push past the capacity drops the front.
    method StagePush(message: M) returns (ok: bool)
      modifies this
      ensures View() == Perform(old(View()), Append(message)).world && ok == Perform(old(View()), Append(message)).Ok?
    {
      var outcome := Arrive();
      if outcome.Works? || outcome.ThrowsAfter? {
        pending := Last(pending + [message], CAPACITY);
      }
      return outcome.Works?;
    }

    method StageClear() returns (ok: bool)
      modifies this
      ensures View() == Perform(old(View()), Empty).world && ok == Perform(old(View()), Empty).Ok?
    {
      var outcome := Arrive();
      if outcome.Works? || outcome.ThrowsAfter? {
        pending := [];
      }
      return outcome.Works?;
    }

    // Clears the timers of the key, then schedules a new one.
    method ClearAndSchedule() returns (ok: bool)
      modifies this
      ensures View() == Perform(old(View()), Reschedule).world && ok == Perform(old(View()), Reschedule).Ok?
    {
      var outcome := Arrive();
      if !outcome.ThrowsBefore? {
        scheduled := 0;
      }
      if outcome.Works? || outcome.ThrowsAfter? {
        scheduled := 1;
      }
      return outcome.Works?;
    }

    method ClearScheduled() returns (ok: bool)
      modifies this
      ensures View() == Perform(old(View()), Unschedule).world && ok == Perform(old(View()), Unschedule).Ok?
    {
      var outcome := Arrive();
      if outcome.Works? || outcome.ThrowsAfter? {
        scheduled := 0;
      }
      return outcome.Works?;
    }
  }

  method HandleMessage<M>(context: Context<M>, message: M) returns (ok: bool)
    modifies context
    ensures context.View() == OnMessage(old(context.View()), message).world
    ensures ok == OnMessage(old(context.View()), message).Ok?
  {
    var open: bool;
    ok, open := context.GetWindow();
    if !ok {
      return;
    }
    if !open {
      ok := context.SendNotification([message]);
      if !ok {
        return;
      }
      ok := context.StageWindow(true);
      if !ok {
        return;
      }
      ok := context.ClearAndSchedule();
    } else {
      ok := context.StagePush(message);
    }
  }

  // The loop over the pending messages.
  method ReadBatch<M>(context: Context<M>) returns (ok: bool, batch: seq<M>)
    modifies context
    ensures context.View() == ScanRest(old(context.View()), |old(context.pending)|).world
    ensures ok == ScanRest(old(context.View()), |old(context.pending)|).Ok?
    ensures ok ==> batch == context.pending == old(context.pending)
  {
    batch := [];
    var item: Option<M>;
    ok, item := context.PullPending(0);
    while ok && item.Some?
      invariant context.pending == old(context.pending)
      invariant |batch| <= |context.pending| && batch == context.pending[..|batch|]
      invariant item == if |batch| < |context.pending| then Some(context.pending[|batch|]) else None
      invariant ok ==> (if item.None? then Ok(context.View())
                        else ScanRest(context.View(), |context.pending| - |batch| - 1))
                       == old(ScanRest(context.View(), |context.pending|))
      invariant !ok ==> Threw(context.View()) == old(ScanRest(context.View(), |context.pending|))
      decreases |context.pending| - |batch|, ok
    {
      batch := batch + [item.value];
      ok, item := context.PullPending(|batch|);
    }
  }

  method HandleTimer<M>(context: Context<M>) returns (ok: bool)
    modifies context
    ensures context.View() == OnTimer(old(context.View())).world
    ensures ok == OnTimer(old(context.View())).Ok?
  {
    var batch: seq<M>;
    ok, batch := ReadBatch(context);
    if !ok {
      return;
    }
    if |batch| > 0 {
      ok := context.SendNotification(batch);
      if !ok {
        return;
      }
    }
    ok := context.StageClear();
    if !ok {
      return;
    }
    ok := context.StageWindow(false);
  }

  method HandleExcise<M>(context: Context<M>) returns (ok: bool)
    modifies context
    ensures context.View() == OnExcise(old(context.View())).world
    ensures ok == OnExcise(old(context.View())).Ok?
  {
    ok := context.StageClear();
    if !ok {
      return;
    }
    ok := context.StageWindow(false);
    if !ok {
      return;
    }
    ok := context.ClearScheduled();
  }
}
