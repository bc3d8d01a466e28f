// examples/keyed-state.ts: four collections that one handler updates together, under the retry model. The
// state of one key, with time to live left aside.
module KeyedState {
  import opened Prelude
  import opened Attempts

  const SCAN_LIMIT: nat := 10

  datatype Order = Order(orderId: string, total: real)

  // The staged view of an attempt. `fates` decides the next operations. When it runs out they work.
  datatype World = World(
    seen: set<string>,
    cart: Option<seq<string>>,
    totals: map<string, real>,
    backlog: seq<Order>,
    fates: seq<Outcome>)

  datatype Effect =
    | Nothing
    | AddSeen(id: string)
    | SetCart(items: seq<string>)
    | SetTotal(key: string, total: real)
    | Push(order: Order)
    | ClearSeen
    | ClearCart
    | ClearTotals
    | ClearBacklog

  function Apply(w: World, effect: Effect): World {
    match effect
    case Nothing => w
    case AddSeen(id) => w.(seen := w.seen + {id})
    case SetCart(items) => w.(cart := Some(items))
    case SetTotal(key, total) => w.(totals := w.totals[key := total])
    case Push(order) => w.(backlog := Last(w.backlog + [order], CAPACITY))
    case ClearSeen => w.(seen := {})
    case ClearCart => w.(cart := None)
    case ClearTotals => w.(totals := map[])
    case ClearBacklog => w.(backlog := [])
  }

  function NextOutcome(w: World): Outcome {
    if w.fates == [] then Works else w.fates[0]
  }

  function Arrived(w: World): World {
    w.(fates := if w.fates == [] then [] else w.fates[1..])
  }

  // Every operation here has one part, so one that throws midway took no effect.
  function Perform(w: World, effect: Effect): Attempt<World> {
    match NextOutcome(w)
    case Works => Ok(Apply(Arrived(w), effect))
    case ThrowsBefore => Threw(Arrived(w))
    case ThrowsMidway => Threw(Arrived(w))
    case ThrowsAfter => Threw(Apply(Arrived(w), effect))
  }

  // Pulls the rest of a scan: its items, then its end.
  function ScanRest(w: World, left: nat): Attempt<World>
    decreases left
  {
    var pulled :- Perform(w, Nothing);
    if left == 0 then Ok(pulled) else ScanRest(pulled, left - 1)
  }

  function Items(cart: Option<seq<string>>): seq<string> {
    match cart case None => [] case Some(items) => items
  }

  function ScanLength(w: World): nat {
    if |w.totals| < SCAN_LIMIT then |w.totals| else SCAN_LIMIT
  }

  function OnMessage(w: World, key: string, order: Order): Attempt<World> {
    var tested :- Perform(w, Nothing);
    if order.orderId in tested.seen then Ok(tested)
    else
      var added :- Perform(tested, AddSeen(order.orderId));
      var got :- Perform(added, Nothing);
      var carted :- Perform(got, SetCart(Items(got.cart) + [order.orderId]));
      var totalled :- Perform(carted, SetTotal(key, order.total));
      var scanned :- ScanRest(totalled, ScanLength(totalled));
      var pushed :- Perform(scanned, Push(order));
      Perform(pushed, Nothing)
  }

  function OnExcise(w: World): Attempt<World> {
    var a :- Perform(w, ClearCart);
    var b :- Perform(a, ClearTotals);
    var c :- Perform(b, ClearBacklog);
    Perform(c, ClearSeen)
  }

  // ----- The handlers as they run -----

  class Context {
    var seen: set<string>
    var cart: Option<seq<string>>
    var totals: map<string, real>
    var backlog: seq<Order>
    var fates: seq<Outcome>

    ghost function View(): World
      reads this
    {
      World(seen, cart, totals, backlog, fates)
    }

    constructor (world: World)
      ensures View() == world
    {
      seen, cart, totals, backlog, fates := world.seen, world.cart, world.totals, world.backlog, world.fates;
    }

    // Awaits one operation and stages its effect.
    method Await(effect: Effect) returns (ok: bool)
      modifies this
      ensures View() == Perform(old(View()), effect).world && ok == Perform(old(View()), effect).Ok?
    {
      var outcome := Works;
      if fates != [] {
        outcome := fates[0];
        fates := fates[1..];
      }
      if outcome.Works? || outcome.ThrowsAfter? {
        match effect {
          case Nothing =>
          case AddSeen(id) => seen := seen + {id};
          case SetCart(items) => cart := Some(items);
          case SetTotal(key, total) => totals := totals[key := total];
          case Push(order) => backlog := Last(backlog + [order], CAPACITY);
          case ClearSeen => seen := {};
          case ClearCart => cart := None;
          case ClearTotals => totals := map[];
          case ClearBacklog => backlog := [];
        }
      }
      return outcome.Works?;
    }
  }

  method HandleMessage(context: Context, key: string, order: Order) returns (ok: bool)
    modifies context
    ensures context.View() == OnMessage(old(context.View()), key, order).world
    ensures ok == OnMessage(old(context.View()), key, order).Ok?
  {
    ok := context.Await(Nothing);
    if !ok || order.orderId in context.seen {
      return;
    }
    ok := context.Await(AddSeen(order.orderId));
    if !ok {
      return;
    }
    ok := context.Await(Nothing);
    if !ok {
      return;
    }
    var current := Items(context.cart);
    ok := context.Await(SetCart(current + [order.orderId]));
    if !ok {
      return;
    }
    ok := context.Await(SetTotal(key, order.total));
    if !ok {
      return;
    }
    ok := ScanTotals(context);
    if !ok {
      return;
    }
    ok := context.Await(Push(order));
    if !ok {
      return;
    }
    ok := context.Await(Nothing);
  }

  // The loop over at most ten totals.
  method ScanTotals(context: Context) returns (ok: bool)
    modifies context
    ensures context.View() == ScanRest(old(context.View()), ScanLength(old(context.View()))).world
    ensures ok == ScanRest(old(context.View()), ScanLength(old(context.View()))).Ok?
  {
    var left: nat := if |context.totals| < SCAN_LIMIT then |context.totals| else SCAN_LIMIT;
    ok := context.Await(Nothing);
    while ok && left > 0
      invariant ok ==> (if left == 0 then Ok(context.View()) else ScanRest(context.View(), left - 1))
                       == ScanRest(old(context.View()), ScanLength(old(context.View())))
      invariant !ok ==> Threw(context.View()) == ScanRest(old(context.View()), ScanLength(old(context.View())))
      decreases left, ok
    {
      left := left - 1;
      ok := context.Await(Nothing);
    }
  }

  method HandleExcise(context: Context) returns (ok: bool)
    modifies context
    ensures context.View() == OnExcise(old(context.View())).world
    ensures ok == OnExcise(old(context.View())).Ok?
  {
    ok := context.Await(ClearCart);
    if !ok {
      return;
    }
    ok := context.Await(ClearTotals);
    if !ok {
      return;
    }
    ok := context.Await(ClearBacklog);
    if !ok {
      return;
    }
    ok := context.Await(ClearSeen);
  }

  // ----- Runs -----

  datatype Event = Message(order: Order) | Excise

  // The committed state of a key, and the events whose handler succeeded.
  datatype System = System(
    seen: set<string>,
    cart: Option<seq<string>>,
    totals: map<string, real>,
    backlog: seq<Order>,
    done: seq<Event>)

  datatype Move = Try(event: Event, fates: seq<Outcome>)

  function Handle(event: Event, key: string, w: World): Attempt<World> {
    match event
    case Message(order) => OnMessage(w, key, order)
    case Excise => OnExcise(w)
  }

  function Next(s: System, key: string, move: Move): System {
    match Handle(move.event, key, World(s.seen, s.cart, s.totals, s.backlog, move.fates))
    case Threw(_) => s
    case Ok(w) => System(w.seen, w.cart, w.totals, w.backlog, s.done + [move.event])
  }

  function Run(key: string, moves: seq<Move>): System {
    if moves == [] then System({}, None, map[], [], [])
    else Next(Run(key, moves[..|moves| - 1]), key, moves[|moves| - 1])
  }

  // ----- A description that knows nothing of attempts or failures -----

  function Ids(orders: seq<Order>): seq<string> {
    seq(|orders|, i requires 0 <= i < |orders| => orders[i].orderId)
  }

  // The orders since the last excise, without those whose id came before.
  function Firsts(done: seq<Event>): seq<Order> {
    if done == [] then []
    else
      var before := Firsts(done[..|done| - 1]);
      match done[|done| - 1]
      case Message(order) => if order.orderId in Ids(before) then before else before + [order]
      case Excise => []
  }

  ghost predicate Coupled(s: System, key: string) {
    var firsts := Firsts(s.done);
    && Items(s.cart) == Ids(firsts)
    && Distinct(Items(s.cart))
    && s.seen == (set id | id in Items(s.cart))
    && s.backlog == Last(firsts, 100)
    && Ids(s.backlog) == Last(Items(s.cart), 100)
    && s.totals == (if firsts == [] then map[] else map[key := firsts[|firsts| - 1].total])
  }

  lemma {:induction false} ScanChangesNothing(w: World, left: nat)
    requires ScanRest(w, left).Ok?
    ensures ScanRest(w, left).world.(fates := w.fates) == w
    decreases left
  {
    if left > 0 {
      ScanChangesNothing(Perform(w, Nothing).world, left - 1);
    }
  }

  // A successful message attempt adds a new order to all four collections, or changes nothing.
  lemma MessageCommits(w: World, key: string, order: Order)
    requires OnMessage(w, key, order).Ok?
    ensures var after := OnMessage(w, key, order).world;
      after.(fates := w.fates) ==
        if order.orderId in w.seen then w
        else w.(seen := w.seen + {order.orderId},
                cart := Some(Items(w.cart) + [order.orderId]),
                totals := w.totals[key := order.total],
                backlog := Last(w.backlog + [order], CAPACITY))
  {
    var tested := Perform(w, Nothing).world;
    if order.orderId !in w.seen {
      var got := Perform(Perform(tested, AddSeen(order.orderId)).world, Nothing).world;
      var carted := Perform(got, SetCart(Items(got.cart) + [order.orderId])).world;
      var totalled := Perform(carted, SetTotal(key, order.total)).world;
      assert totalled.(fates := w.fates)
          == w.(seen := w.seen + {order.orderId}, cart := Some(Items(w.cart) + [order.orderId]),
                totals := w.totals[key := order.total]);
      ScanChangesNothing(totalled, ScanLength(totalled));
    }
  }

  // A new order keeps the collections coupled.
  lemma NewOrderKeepsCoupled(s: System, key: string, order: Order)
    requires Coupled(s, key) && order.orderId !in s.seen
    ensures Coupled(System(s.seen + {order.orderId}, Some(Items(s.cart) + [order.orderId]),
                           s.totals[key := order.total], Last(s.backlog + [order], CAPACITY),
                           s.done + [Message(order)]), key)
  {
  }

  // An order that was seen changes nothing but the list of handled events.
  lemma SeenOrderKeepsCoupled(s: System, key: string, order: Order)
    requires Coupled(s, key) && order.orderId in s.seen
    ensures Coupled(s.(done := s.done + [Message(order)]), key)
  {
    assert (s.done + [Message(order)])[..|s.done|] == s.done;
  }

  lemma StepKeepsCoupled(s: System, key: string, move: Move)
    requires Coupled(s, key)
    ensures Coupled(Next(s, key, move), key)
  {
    var w := World(s.seen, s.cart, s.totals, s.backlog, move.fates);
    if Handle(move.event, key, w).Ok? {
      match move.event
      case Message(order) =>
        MessageCommits(w, key, order);
        if order.orderId in s.seen {
          SeenOrderKeepsCoupled(s, key, order);
        } else {
          NewOrderKeepsCoupled(s, key, order);
        }
      case Excise => ExciseCommits(w);
    }
  }

  lemma ExciseCommits(w: World)
    requires OnExcise(w).Ok?
    ensures OnExcise(w).world.(fates := w.fates) == World({}, None, map[], [], w.fates)
  {
  }

  // Over every run the four collections agree: the cart lists each order once, the seen set holds exactly
  // the cart's orders, the backlog holds the newest of them in order, and the total is the newest order's.
  // All are determined by the events that succeeded, so failed attempts and duplicates are invisible.
  lemma {:induction false} CollectionsStayCoupled(key: string, moves: seq<Move>)
    ensures Coupled(Run(key, moves), key)
  {
    if moves != [] {
      CollectionsStayCoupled(key, moves[..|moves| - 1]);
      StepKeepsCoupled(Run(key, moves[..|moves| - 1]), key, moves[|moves| - 1]);
    }
  }

  // Event `i` is a message that no excise follows.
  ghost predicate Live(done: seq<Event>, i: nat) {
    && i < |done| && done[i].Message?
    && forall j :: i < j < |done| ==> !done[j].Excise?
  }

  // The cart holds exactly the ids of the messages handled since the last excise.
  lemma {:induction false} FirstsCoverMessages(done: seq<Event>, id: string)
    ensures id in Ids(Firsts(done)) <==> exists i: nat :: Live(done, i) && done[i].order.orderId == id
  {
    if done != [] {
      var before, last := done[..|done| - 1], |done| - 1;
      FirstsCoverMessages(before, id);
      match done[last]
      case Message(order) =>
        forall i: nat | i < last
          ensures Live(done, i) <==> Live(before, i)
        {
        }
        assert Live(done, last);
        if order.orderId !in Ids(Firsts(before)) {
          assert Ids(Firsts(before) + [order]) == Ids(Firsts(before)) + [order.orderId];
        }
        if exists i: nat :: Live(before, i) && before[i].order.orderId == id {
          var i: nat :| Live(before, i) && before[i].order.orderId == id;
          assert Live(done, i);
        }
      case Excise =>
        assert forall i: nat :: i < last ==> !Live(done, i);
    }
  }

  // ----- The handlers as lists of awaited operations -----

  // Performs operations in order. The first one that throws ends the attempt.
  function PerformAll(w: World, effects: seq<Effect>): Attempt<World>
    decreases |effects|
  {
    if effects == [] then Ok(w)
    else
      var next :- Perform(w, effects[0]);
      PerformAll(next, effects[1..])
  }

  function Pulls(n: nat): seq<Effect> {
    seq(n, i => Nothing)
  }

  lemma {:induction false} PerformInTurn(w: World, before: seq<Effect>, rest: seq<Effect>)
    ensures PerformAll(w, before + rest)
         == if PerformAll(w, before).Threw? then PerformAll(w, before)
            else PerformAll(PerformAll(w, before).world, rest)
    decreases |before|
  {
    if before == [] {
      assert before + rest == rest;
    } else {
      assert (before + rest)[1..] == before[1..] + rest;
      if Perform(w, before[0]).Ok? {
        PerformInTurn(Perform(w, before[0]).world, before[1..], rest);
      }
    }
  }

  lemma {:induction false} ScanPerforms(w: World, left: nat)
    ensures ScanRest(w, left) == PerformAll(w, Pulls(left + 1))
    decreases left
  {
    assert Pulls(left + 1)[1..] == Pulls(left);
    if left > 0 && Perform(w, Nothing).Ok? {
      ScanPerforms(Perform(w, Nothing).world, left - 1);
    }
  }

  lemma PerformTwo(w: World, a: Effect, b: Effect)
    ensures PerformAll(w, [a, b]) == if Perform(w, a).Threw? then Perform(w, a) else Perform(Perform(w, a).world, b)
  {
    assert [a, b] == [a] + [b];
    PerformInTurn(w, [a], [b]);
    PerformOne(w, a);
    PerformOne(Perform(w, a).world, b);
  }

  lemma PerformOne(w: World, effect: Effect)
    ensures PerformAll(w, [effect]) == Perform(w, effect)
  {
    assert [effect][1..] == [];
  }

  // The writes of a new order, up to its total.
  function Recording(w: World, key: string, order: Order): seq<Effect> {
    [Nothing, AddSeen(order.orderId), Nothing, SetCart(Items(w.cart) + [order.orderId]), SetTotal(key, order.total)]
  }

  // A message tests the seen set, which ends the attempt for an order it holds. A new order is added to the set,
  // the cart is read and written, the total is set, at most ten totals and the end of the scan are pulled, the
  // order is pushed, and the front of the backlog is read.
  lemma MessagePerforms(w: World, key: string, order: Order)
    ensures OnMessage(w, key, order) == PerformAll(w,
      if order.orderId in w.seen then [Nothing]
      else Recording(w, key, order)
           + Pulls((if |w.totals.Keys + {key}| < 10 then |w.totals.Keys + {key}| else 10) + 1)
           + [Push(order), Nothing])
  {
    if order.orderId in w.seen {
      PerformOne(w, Nothing);
    } else {
      RecordingPerforms(w, key, order);
      MessageRecords(w, key, order);
      var recorded := Recorded(w, key, order);
      var n: nat := if |w.totals.Keys + {key}| < 10 then |w.totals.Keys + {key}| else 10;
      if recorded.Ok? {
        TotalsGrow(w.totals, key, order.total);
        FinishingPerforms(recorded.world, n, order);
      }
      PerformInTurn(w, Recording(w, key, order), Pulls(n + 1) + [Push(order), Nothing]);
      assert Recording(w, key, order) + (Pulls(n + 1) + [Push(order), Nothing])
          == Recording(w, key, order) + Pulls(n + 1) + [Push(order), Nothing];
    }
  }

  lemma TotalsGrow(totals: map<string, real>, key: string, total: real)
    ensures |totals[key := total]| == |totals.Keys + {key}|
  {
    assert totals[key := total].Keys == totals.Keys + {key};
    assert |totals[key := total]| == |totals[key := total].Keys|;
  }

  lemma FinishingPerforms(w: World, n: nat, order: Order)
    requires n == ScanLength(w)
    ensures Finishing(w, order) == PerformAll(w, Pulls(n + 1) + [Push(order), Nothing])
  {
    PerformInTurn(w, Pulls(n + 1), [Push(order), Nothing]);
    ScanPerforms(w, n);
    PerformTwo(ScanRest(w, n).world, Push(order), Nothing);
  }

  // A message attempt up to its total, step by step.
  function Recorded(w: World, key: string, order: Order): Attempt<World> {
    var tested :- Perform(w, Nothing);
    var added :- Perform(tested, AddSeen(order.orderId));
    var got :- Perform(added, Nothing);
    var carted :- Perform(got, SetCart(Items(got.cart) + [order.orderId]));
    Perform(carted, SetTotal(key, order.total))
  }

  lemma RecordingPerforms(w: World, key: string, order: Order)
    ensures Recorded(w, key, order) == PerformAll(w, Recording(w, key, order))
  {
    var id := order.orderId;
    var added := Perform(Perform(w, Nothing).world, AddSeen(id)).world;
    assert Recording(w, key, order)
        == [Nothing, AddSeen(id)] + [Nothing, SetCart(Items(w.cart) + [id])] + [SetTotal(key, order.total)];
    PerformInTurn(w, [Nothing, AddSeen(id)] + [Nothing, SetCart(Items(w.cart) + [id])], [SetTotal(key, order.total)]);
    PerformInTurn(w, [Nothing, AddSeen(id)], [Nothing, SetCart(Items(w.cart) + [id])]);
    PerformTwo(w, Nothing, AddSeen(id));
    PerformTwo(added, Nothing, SetCart(Items(w.cart) + [id]));
    PerformOne(Perform(Perform(added, Nothing).world, SetCart(Items(w.cart) + [id])).world, SetTotal(key, order.total));
  }

  lemma MessageRecords(w: World, key: string, order: Order)
    requires order.orderId !in w.seen
    ensures var recorded := Recorded(w, key, order);
      && (recorded.Ok? ==> recorded.world.totals == w.totals[key := order.total])
      && OnMessage(w, key, order) == if recorded.Threw? then recorded else Finishing(recorded.world, order)
  {
  }

  // The rest of a message attempt after its total is set.
  function Finishing(w: World, order: Order): Attempt<World> {
    var scanned :- ScanRest(w, ScanLength(w));
    var pushed :- Perform(scanned, Push(order));
    Perform(pushed, Nothing)
  }

  // An excise clears the cart, the totals, the backlog, and the seen set.
  lemma ExcisePerforms(w: World)
    ensures OnExcise(w) == PerformAll(w, [ClearCart, ClearTotals, ClearBacklog, ClearSeen])
  {
    assert [ClearCart, ClearTotals, ClearBacklog, ClearSeen] == [ClearCart, ClearTotals] + [ClearBacklog, ClearSeen];
    PerformInTurn(w, [ClearCart, ClearTotals], [ClearBacklog, ClearSeen]);
    PerformTwo(w, ClearCart, ClearTotals);
    PerformTwo(PerformAll(w, [ClearCart, ClearTotals]).world, ClearBacklog, ClearSeen);
  }

  // ----- What decides success -----

  // All of the first operations of an attempt work.
  ghost predicate AllWork(fates: seq<Outcome>, operations: nat) {
    forall i :: 0 <= i < operations && i < |fates| ==> fates[i].Works?
  }

  lemma {:induction false} SucceedsWhenAllWork(w: World, effects: seq<Effect>)
    ensures PerformAll(w, effects).Ok? <==> AllWork(w.fates, |effects|)
    decreases |effects|
  {
    if effects != [] {
      if w.fates != [] {
        assert forall i :: 0 < i < |w.fates| ==> w.fates[i] == w.fates[1..][i - 1];
      }
      if Perform(w, effects[0]).Ok? {
        SucceedsWhenAllWork(Perform(w, effects[0]).world, effects[1..]);
      }
    }
  }

  // The state that a successful attempt leaves.
  function Succeeded(s: System, key: string, event: Event): System {
    match event
    case Excise => System({}, None, map[], [], s.done + [event])
    case Message(order) =>
      if order.orderId in s.seen then s.(done := s.done + [event])
      else System(s.seen + {order.orderId}, Some(Items(s.cart) + [order.orderId]), map[key := order.total],
                  if |s.backlog| < 100 then s.backlog + [order] else s.backlog[1..] + [order], s.done + [event])
  }

  // In every reachable state an attempt succeeds exactly when each of its operations works: one for an order that
  // was seen, nine for a new order, and four for an excise. Success leaves the state above, and failure commits
  // nothing.
  lemma AttemptIsDecided(key: string, moves: seq<Move>, event: Event, fates: seq<Outcome>)
    ensures var s := Run(key, moves);
      var n := match event case Message(order) => (if order.orderId in s.seen then 1 else 9) case Excise => 4;
      Run(key, moves + [Try(event, fates)]) == if AllWork(fates, n) then Succeeded(s, key, event) else s
  {
    CollectionsStayCoupled(key, moves);
    var s := Run(key, moves);
    assert (moves + [Try(event, fates)])[..|moves|] == moves;
    match event
    case Message(order) =>
      MessageSucceeds(s, key, order, fates);
      CoupledTotals(s, key, order.total);
      MessageLeaves(s, key, order, fates);
    case Excise => ExciseIsDecided(s, key, fates);
  }

  lemma ExciseIsDecided(s: System, key: string, fates: seq<Outcome>)
    ensures Next(s, key, Try(Excise, fates)) == if AllWork(fates, 4) then Succeeded(s, key, Excise) else s
  {
    var w := World(s.seen, s.cart, s.totals, s.backlog, fates);
    ExcisePerforms(w);
    SucceedsWhenAllWork(w, [ClearCart, ClearTotals, ClearBacklog, ClearSeen]);
    if OnExcise(w).Ok? {
      ExciseCommits(w);
    }
  }

  lemma MessageLeaves(s: System, key: string, order: Order, fates: seq<Outcome>)
    requires s.totals.Keys <= {key} && |s.backlog| <= 100
    ensures var attempt := OnMessage(World(s.seen, s.cart, s.totals, s.backlog, fates), key, order);
      Next(s, key, Try(Message(order), fates)) == if attempt.Ok? then Succeeded(s, key, Message(order)) else s
  {
    var w := World(s.seen, s.cart, s.totals, s.backlog, fates);
    if OnMessage(w, key, order).Ok? {
      MessageCommits(w, key, order);
      assert s.totals[key := order.total] == map[key := order.total];
      NewestOfFull(s.backlog, order);
    }
  }

  lemma NewestOfFull(backlog: seq<Order>, order: Order)
    requires |backlog| <= 100
    ensures Last(backlog + [order], 100) == if |backlog| < 100 then backlog + [order] else backlog[1..] + [order]
  {
  }

  // The collections that a new order replaces or shortens, when they are coupled.
  lemma CoupledTotals(s: System, key: string, total: real)
    requires Coupled(s, key)
    ensures s.totals[key := total] == map[key := total] && s.totals.Keys <= {key} && |s.backlog| <= 100
  {
  }

  lemma MessageSucceeds(s: System, key: string, order: Order, fates: seq<Outcome>)
    requires Coupled(s, key)
    ensures OnMessage(World(s.seen, s.cart, s.totals, s.backlog, fates), key, order).Ok?
       <==> AllWork(fates, if order.orderId in s.seen then 1 else 9)
  {
    var w := World(s.seen, s.cart, s.totals, s.backlog, fates);
    MessagePerforms(w, key, order);
    if order.orderId in s.seen {
      SucceedsWhenAllWork(w, [Nothing]);
    } else {
      CoupledTotals(s, key, order.total);
      OneTotal(s.totals.Keys, key);
      var effects := Recording(w, key, order) + Pulls(2) + [Push(order), Nothing];
      SucceedsWhenAllWork(w, effects);
      assert |effects| == 9;
    }
  }

  lemma OneTotal(keys: set<string>, key: string)
    requires keys <= {key}
    ensures |keys + {key}| == 1
  {
    assert keys + {key} == {key};
  }
}
