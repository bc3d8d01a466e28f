// Runs of the generator over every interleaving of calls and native completions.
module GeneratorRuns {
  import opened Prelude
  import opened Errors
  import opened Generator

  // ----- Runs -----

  // The state after a sequence of inputs, or None when a completion came for no operation.
  function Run<T, V>(transform: Transform<T, V>, inputs: seq<Input<T, V>>): (r: Option<State<T, V>>)
    ensures r.Some? ==> Valid(r.value)
  {
    if inputs == [] then Some(Initial())
    else
      var before := Run(transform, inputs[..|inputs| - 1]);
      var input := inputs[|inputs| - 1];
      if before.None? || !Enabled(before.value, input) then None
      else
        StepKeepsValid(transform, before.value, input);
        Some(Step(transform, before.value, input))
  }

  lemma {:induction false} AdvanceKeepsValid<T, V>(transform: Transform<T, V>, s: State<T, V>)
    requires s.queue != [] && s.index <= |s.slots| && !s.failed
    requires s.queue[0].request.Next? || s.index < |s.slots|
    requires forall i :: s.index <= i < |s.slots| ==> s.slots[i].Some?
    requires |s.queue| <= s.calls
    requires forall i :: 0 <= i < |s.queue| ==> s.queue[i].number == s.calls - |s.queue| + i
    ensures Valid(Advance(transform, s))
    decreases |s.slots| - s.index, 1
  {
    if s.index < |s.slots| {
      match transform(s.slots[s.index].value)
      case Failure(_) =>
      case Success(value) =>
        var released := s.(slots := s.slots[s.index := None]);
        var yielded := SettleHead(released, Item(value)).(phase := SuspendedYield);
        if yielded.queue != [] {
          ResumeKeepsValid(transform, yielded);
        }
    }
  }

  lemma {:induction false} ResumeKeepsValid<T, V>(transform: Transform<T, V>, s: State<T, V>)
    requires s.queue != [] && s.index < |s.slots| && !s.failed
    requires forall i :: s.index < i < |s.slots| ==> s.slots[i].Some?
    requires |s.queue| <= s.calls
    requires forall i :: 0 <= i < |s.queue| ==> s.queue[i].number == s.calls - |s.queue| + i
    ensures Valid(Resume(transform, s))
    decreases |s.slots| - s.index, 0
  {
    if s.queue[0].request.Next? {
      AdvanceKeepsValid(transform, s.(index := s.index + 1));
    }
  }

  lemma {:induction false} DrainKeepsValid<T, V>(s: State<T, V>)
    requires |s.queue| <= s.calls
    requires forall i :: 0 <= i < |s.queue| ==> s.queue[i].number == s.calls - |s.queue| + i
    ensures Valid(Drain(s)) && Drain(s).phase.Completed?
    decreases |s.queue|
  {
    if s.queue != [] {
      DrainKeepsValid(SettleHead(s, OverOutcome(s.queue[0].request)));
    }
  }

  lemma StepKeepsValid<T, V>(transform: Transform<T, V>, s: State<T, V>, input: Input<T, V>)
    requires Valid(s) && Enabled(s, input)
    ensures Valid(Step(transform, s, input))
  {
    match input
    case Request(request) =>
      if s.phase.SuspendedYield? {
        ResumeKeepsValid(transform, Enqueue(s, request));
      }
    case Chunk(items) => AdvanceKeepsValid(transform, s.(slots := Held(items), index := 0));
    case Exhausted =>
    case PullFails(_) =>
    case Closed(closeError) =>
      DrainKeepsValid(SettleHead(s, FinalOutcome(s.phase.completion, s.failed, closeError)));
  }

  // ----- What the native side saw -----

  // Native calls made, and whether any pull came after a close.
  datatype Tally = Tally(pulls: nat, closes: nat, latePull: bool)

  function Natives<V>(log: seq<Action<V>>): Tally {
    if log == [] then Tally(0, 0, false)
    else
      var t := Natives(log[..|log| - 1]);
      match log[|log| - 1]
      case Pull => Tally(t.pulls + 1, t.closes, t.latePull || t.closes > 0)
      case Close => t.(closes := t.closes + 1)
      case Settle(_, _) => t
  }

  // Completions the native side reported.
  function Completions<T, V>(inputs: seq<Input<T, V>>): nat {
    if inputs == [] then 0
    else Completions(inputs[..|inputs| - 1]) + if inputs[|inputs| - 1].Request? then 0 else 1
  }

  predicate InFlight<T, V>(s: State<T, V>) {
    s.phase.Pulling? || s.phase.Closing?
  }

  lemma LogGrows<V>(log: seq<Action<V>>, action: Action<V>)
    ensures (log + [action])[..|log|] == log
  {
  }

  // A resumed body settles calls and then makes at most one native call.
  lemma {:induction false} AdvanceCallsOnce<T, V>(transform: Transform<T, V>, s: State<T, V>)
    requires s.queue != [] && s.index <= |s.slots|
    requires forall i :: s.index <= i < |s.slots| ==> s.slots[i].Some?
    ensures CallsOnce(s, Advance(transform, s))
    decreases |s.slots| - s.index, 1
  {
    forall action: Action<V> {
      LogGrows(s.log, action);
    }
    if s.index < |s.slots| {
      match transform(s.slots[s.index].value)
      case Failure(_) =>
      case Success(value) =>
        var released := s.(slots := s.slots[s.index := None]);
        var yielded := SettleHead(released, Item(value)).(phase := SuspendedYield);
        if yielded.queue != [] {
          ResumeCallsOnce(transform, yielded);
        }
    }
  }

  lemma {:induction false} ResumeCallsOnce<T, V>(transform: Transform<T, V>, s: State<T, V>)
    requires s.queue != [] && s.index < |s.slots|
    requires forall i :: s.index < i < |s.slots| ==> s.slots[i].Some?
    ensures CallsOnce(s, Resume(transform, s))
    decreases |s.slots| - s.index, 0
  {
    forall action: Action<V> {
      LogGrows(s.log, action);
    }
    if s.queue[0].request.Next? {
      AdvanceCallsOnce(transform, s.(index := s.index + 1));
    }
  }

  ghost predicate CallsOnce<T, V>(s: State<T, V>, after: State<T, V>) {
    var t := Natives(s.log);
    match after.phase
    case Pulling => Natives(after.log) == Tally(t.pulls + 1, t.closes, t.latePull || t.closes > 0)
    case Closing(_) => Natives(after.log) == t.(closes := t.closes + 1)
    case SuspendedYield => Natives(after.log) == t
    case _ => false
  }

  lemma {:induction false} DrainCallsNothing<T, V>(s: State<T, V>)
    ensures Natives(Drain(s).log) == Natives(s.log)
    decreases |s.queue|
  {
    if s.queue != [] {
      LogGrows(s.log, Settle(s.queue[0].number, OverOutcome(s.queue[0].request)));
      DrainCallsNothing(SettleHead(s, OverOutcome(s.queue[0].request)));
    }
  }

  // The native calls of a state, given how many completions arrived.
  ghost predicate NativeShape<T, V>(s: State<T, V>, completions: nat) {
    var t := Natives(s.log);
    && t.pulls + t.closes == completions + (if InFlight(s) then 1 else 0)
    && !t.latePull
    && t.closes == (if s.phase.Closing? || (s.phase.Completed? && t.pulls > 0) then 1 else 0)
    && (s.phase.SuspendedYield? || InFlight(s) ==> t.pulls > 0)
  }

  lemma RequestKeepsShape<T, V>(transform: Transform<T, V>, s: State<T, V>, request: Request<V>, completions: nat)
    requires Valid(s) && NativeShape(s, completions)
    ensures NativeShape(OnRequest(transform, s, request), completions)
  {
    forall action: Action<V> {
      LogGrows(s.log, action);
    }
    if s.phase.SuspendedYield? {
      ResumeCallsOnce(transform, Enqueue(s, request));
    }
  }

  lemma CompletionKeepsShape<T, V>(transform: Transform<T, V>, s: State<T, V>, input: Input<T, V>, completions: nat)
    requires Valid(s) && Enabled(s, input) && !input.Request? && NativeShape(s, completions)
    ensures NativeShape(Step(transform, s, input), completions + 1)
  {
    match input
    case Chunk(items) => AdvanceCallsOnce(transform, s.(slots := Held(items), index := 0));
    case Exhausted => LogGrows(s.log, Close);
    case PullFails(_) => LogGrows(s.log, Close);
    case Closed(closeError) =>
      var outcome := FinalOutcome(s.phase.completion, s.failed, closeError);
      LogGrows(s.log, Settle(s.queue[0].number, outcome));
      DrainCallsNothing(SettleHead(s, outcome));
      DrainKeepsValid(SettleHead(s, outcome));
  }

  // In every reachable state at most one native operation is in flight, and a call waits exactly while one
  // is. Once the body has started it closes the cursor exactly once, when it ends, and never pulls
  // afterwards. A generator that ends before it starts makes no native call.
  lemma {:induction false} OneNativeCallAtATime<T, V>(transform: Transform<T, V>, inputs: seq<Input<T, V>>)
    requires Run(transform, inputs).Some?
    ensures NativeShape(Run(transform, inputs).value, Completions(inputs))
    ensures Run(transform, inputs).value.queue != [] <==> InFlight(Run(transform, inputs).value)
  {
    if inputs != [] {
      var before := inputs[..|inputs| - 1];
      OneNativeCallAtATime(transform, before);
      var s := Run(transform, before).value;
      match inputs[|inputs| - 1]
      case Request(request) => RequestKeepsShape(transform, s, request, Completions(before));
      case _ => CompletionKeepsShape(transform, s, inputs[|inputs| - 1], Completions(before));
    }
  }

  // ----- What the consumer saw -----

  datatype End = NaturalEnd | FailedEnd(error: Thrown)

  // Everything the native cursor produced: the items of its chunks, how the scan ended, and how the
  // close went.
  datatype Stream<+T> = Stream(items: seq<T>, end: Option<End>, close: Option<Option<Thrown>>)

  function StreamOf<T, V>(inputs: seq<Input<T, V>>): Stream<T> {
    if inputs == [] then Stream([], None, None)
    else Extend(StreamOf(inputs[..|inputs| - 1]), inputs[|inputs| - 1])
  }

  function Extend<T, V>(stream: Stream<T>, input: Input<T, V>): Stream<T> {
    match input
    case Request(_) => stream
    case Chunk(items) => stream.(items := stream.items + items)
    case Exhausted => stream.(end := Some(NaturalEnd))
    case PullFails(error) => stream.(end := Some(FailedEnd(error)))
    case Closed(closeError) => stream.(close := Some(closeError))
  }

  function Requests<T, V>(inputs: seq<Input<T, V>>): seq<Request<V>> {
    if inputs == [] then []
    else Requests(inputs[..|inputs| - 1]) + Asked(inputs[|inputs| - 1])
  }

  function Asked<T, V>(input: Input<T, V>): seq<Request<V>> {
    if input.Request? then [input.request] else []
  }

  function Outcomes<V>(log: seq<Action<V>>): seq<Outcome<V>> {
    if log == [] then []
    else Outcomes(log[..|log| - 1])
         + match log[|log| - 1] case Settle(_, outcome) => [outcome] case _ => []
  }

  // Settlement `k` answers call `k`.
  predicate InCallOrder<V>(log: seq<Action<V>>) {
    log == [] ||
    (var last := log[|log| - 1];
     && InCallOrder(log[..|log| - 1])
     && (last.Settle? ==> last.call == |Outcomes(log[..|log| - 1])|))
  }

  // ----- The sequential description -----

  // A scan that answers one call at a time: not started, at a position, or over.
  datatype Mode = Fresh | At(position: nat) | Over

  function Position(mode: Mode): nat {
    if mode.At? then mode.position else 0
  }

  // The answer of a body that ends: it waits for the close, whose failure surfaces only without an
  // earlier failure.
  function Ended<T, V>(stream: Stream<T>, completion: Completion<V>): Option<(Outcome<V>, Mode)> {
    match stream.close
    case None => None
    case Some(closeError) =>
      match completion
      case ThrowError(error) => Some((Rejected(error), Over))
      case ReturnValue(value) =>
        Some((if closeError.Some? then Rejected(ToStateError(closeError.value)) else Done(value), Over))
  }

  function ServeNext<T, V>(transform: Transform<T, V>, position: nat, stream: Stream<T>): Option<(Outcome<V>, Mode)> {
    if position < |stream.items| then
      match transform(stream.items[position])
      case Success(value) => Some((Item(value), At(position + 1)))
      case Failure(error) => Ended(stream, ThrowError(ToStateError(error)))
    else
      match stream.end
      case None => None
      case Some(NaturalEnd) => Ended(stream, ReturnValue(None))
      case Some(FailedEnd(error)) => Ended(stream, ThrowError(ToStateError(error)))
  }

  function ServeOne<T, V>(transform: Transform<T, V>, mode: Mode, request: Request<V>, stream: Stream<T>)
    : Option<(Outcome<V>, Mode)>
  {
    if mode.Over? || (mode.Fresh? && !request.Next?) then Some((OverOutcome(request), Over))
    else
      match request
      case Next => ServeNext(transform, Position(mode), stream)
      case Return(value) => Ended(stream, ReturnValue(value))
      case Throw(error) => Ended(stream, ThrowError(ToStateError(error)))
  }

  // The answers to a list of calls, or None when the stream does not determine them yet.
  function Serve<T, V>(transform: Transform<T, V>, requests: seq<Request<V>>, stream: Stream<T>)
    : Option<(seq<Outcome<V>>, Mode)>
  {
    if requests == [] then Some(([], Fresh))
    else
      match Serve(transform, requests[..|requests| - 1], stream)
      case None => None
      case Some((outcomes, mode)) =>
        match ServeOne(transform, mode, requests[|requests| - 1], stream)
        case None => None
        case Some((outcome, next)) => Some((outcomes + [outcome], next))
  }

  // ----- Every interleaving gives the sequential answers -----

  // The settled calls agree with the sequential description, which is then in `mode`, and the rest wait.
  ghost predicate Served<T, V>(transform: Transform<T, V>, queue: seq<Call<V>>, log: seq<Action<V>>,
                               requests: seq<Request<V>>, stream: Stream<T>, mode: Mode)
  {
    && |queue| <= |requests|
    && (forall i :: 0 <= i < |queue| ==>
        queue[i] == Call(|requests| - |queue| + i, requests[|requests| - |queue| + i]))
    && Settled(transform, log, requests[..|requests| - |queue|], stream, mode)
  }

  ghost predicate Settled<T, V>(transform: Transform<T, V>, log: seq<Action<V>>, requests: seq<Request<V>>,
                                stream: Stream<T>, mode: Mode)
  {
    && InCallOrder(log)
    && |Outcomes(log)| == |requests|
    && Serve(transform, requests, stream) == Some((Outcomes(log), mode))
  }

  // Whatever the close answers, the head call gets what the description gives it.
  ghost predicate ClosingAgrees<T, V>(transform: Transform<T, V>, s: State<T, V>, completion: Completion<V>,
                                      stream: Stream<T>, mode: Mode)
    requires s.queue != []
  {
    forall closeError ::
      ServeOne(transform, mode, s.queue[0].request, stream.(close := Some(closeError)))
      == Some((FinalOutcome(completion, s.failed, closeError), Over))
  }

  // The items after the first `released` slots, which are released.
  ghost predicate Unreleased<T, V>(s: State<T, V>, released: nat, items: seq<T>) {
    && released <= |s.slots|
    && (forall i :: 0 <= i < released ==> s.slots[i].None?)
    && s.slots[released..] == Held(items)
  }

  ghost predicate Agrees<T, V>(transform: Transform<T, V>, s: State<T, V>, requests: seq<Request<V>>,
                               stream: Stream<T>, mode: Mode)
  {
    && s.calls == |requests|
    && Served(transform, s.queue, s.log, requests, stream, mode)
    && PhaseAgrees(transform, s, stream, mode)
  }

  ghost predicate PhaseAgrees<T, V>(transform: Transform<T, V>, s: State<T, V>, stream: Stream<T>, mode: Mode) {
    && Valid(s)
    && Position(mode) <= |stream.items|
    && match s.phase
       case SuspendedStart => mode.Fresh? && stream == Stream([], None, None)
       case Pulling => !mode.Over? && Position(mode) == |stream.items| && stream.end.None? && stream.close.None?
         && Unreleased(s, |s.slots|, [])
       case SuspendedYield => mode.At? && stream.end.None? && stream.close.None?
         && Unreleased(s, s.index + 1, stream.items[mode.position..])
       case Closing(completion) => !mode.Over? && stream.close.None?
         && ClosingAgrees(transform, s, completion, stream, mode)
       case Completed => mode.Over?
  }

  // A later view of the same stream.
  ghost predicate Later<T>(a: Stream<T>, b: Stream<T>) {
    && a.items <= b.items
    && (a.end.Some? ==> b.end == a.end && b.items == a.items)
    && (a.close.Some? ==> b.close == a.close)
  }

  // What a stream determines stays determined.
  lemma {:induction false} ServeIsStable<T, V>(transform: Transform<T, V>, requests: seq<Request<V>>,
                                               a: Stream<T>, b: Stream<T>)
    requires Later(a, b) && Serve(transform, requests, a).Some?
    ensures Serve(transform, requests, b) == Serve(transform, requests, a)
  {
    if requests != [] {
      ServeIsStable(transform, requests[..|requests| - 1], a, b);
    }
  }

  lemma SettleServes<T, V>(transform: Transform<T, V>, queue: seq<Call<V>>, log: seq<Action<V>>,
                           requests: seq<Request<V>>, stream: Stream<T>, mode: Mode, outcome: Outcome<V>, next: Mode)
    requires Served(transform, queue, log, requests, stream, mode) && queue != []
    requires ServeOne(transform, mode, queue[0].request, stream) == Some((outcome, next))
    ensures Served(transform, queue[1..], log + [Settle(queue[0].number, outcome)], requests, stream, next)
  {
    var n := |requests| - |queue|;
    assert requests[..n + 1][..n] == requests[..n];
    LogGrows(log, Settle(queue[0].number, outcome));
  }

  lemma NativeServes<T, V>(transform: Transform<T, V>, queue: seq<Call<V>>, log: seq<Action<V>>,
                           requests: seq<Request<V>>, stream: Stream<T>, mode: Mode, action: Action<V>)
    requires Served(transform, queue, log, requests, stream, mode) && !action.Settle?
    ensures Served(transform, queue, log + [action], requests, stream, mode)
  {
    LogGrows(log, action);
    assert Outcomes(log + [action]) == Outcomes(log);
  }

  // A failed transform ends the body, whatever the close answers.
  lemma FailureEnds<T, V>(transform: Transform<T, V>, s: State<T, V>, stream: Stream<T>, mode: Mode, error: Thrown)
    requires s.queue != [] && s.queue[0].request.Next? && s.failed && !mode.Over?
    requires Position(mode) < |stream.items| && transform(stream.items[Position(mode)]) == Failure(error)
    ensures ClosingAgrees(transform, s, ThrowError(ToStateError(error)), stream, mode)
  {
  }

  // The head call asks for an item, and the body is at the top of its inner loop.
  ghost predicate Advancing<T, V>(transform: Transform<T, V>, s: State<T, V>, requests: seq<Request<V>>,
                                  stream: Stream<T>, mode: Mode)
  {
    && s.calls == |requests| && Served(transform, s.queue, s.log, requests, stream, mode)
    && !mode.Over? && Position(mode) <= |stream.items|
    && stream.end.None? && stream.close.None? && !s.failed
    && s.queue != [] && s.queue[0].request.Next?
    && Unreleased(s, s.index, stream.items[Position(mode)..])
    && forall i :: s.index <= i < |s.slots| ==> s.slots[i].Some?
  }

  // The body pulls, or leaves because the item cannot be transformed.
  lemma AdvanceStops<T, V>(transform: Transform<T, V>, s: State<T, V>, requests: seq<Request<V>>, stream: Stream<T>,
                           mode: Mode)
    requires Advancing(transform, s, requests, stream, mode)
    requires s.index == |s.slots| || transform(s.slots[s.index].value).Failure?
    ensures Agrees(transform, Advance(transform, s), requests, stream, mode)
  {
    AdvanceKeepsValid(transform, s);
    var p := Position(mode);
    if s.index == |s.slots| {
      NativeServes(transform, s.queue, s.log, requests, stream, mode, Pull);
      assert |stream.items[p..]| == 0;
    } else {
      HeldItem(s, stream.items, p);
      NativeServes(transform, s.queue, s.log, requests, stream, mode, Close);
      FailureEnds(transform, Advance(transform, s), stream, mode, transform(stream.items[p]).error);
    }
  }

  lemma {:induction false} AdvanceAgrees<T, V>(transform: Transform<T, V>, s: State<T, V>, requests: seq<Request<V>>,
                                               stream: Stream<T>, mode: Mode)
    returns (after: Mode)
    requires Advancing(transform, s, requests, stream, mode)
    ensures Agrees(transform, Advance(transform, s), requests, stream, after)
    decreases |s.slots| - s.index, 1
  {
    if s.index == |s.slots| || transform(s.slots[s.index].value).Failure? {
      after := mode;
      AdvanceStops(transform, s, requests, stream, mode);
    } else {
      AdvanceKeepsValid(transform, s);
      var p := Position(mode);
      HeldItem(s, stream.items, p);
      var value := transform(stream.items[p]).value;
      after := At(p + 1);
      SettleServes(transform, s.queue, s.log, requests, stream, mode, Item(value), after);
      ReleasedOne(s, stream.items[p..]);
      assert stream.items[p..][1..] == stream.items[p + 1..];
      var released := s.(slots := s.slots[s.index := None]);
      var yielded := SettleHead(released, Item(value)).(phase := SuspendedYield);
      if yielded.queue != [] {
        after := ResumeAgrees(transform, yielded, requests, stream, after);
      }
    }
  }

  lemma HeldItem<T, V>(s: State<T, V>, items: seq<T>, p: nat)
    requires s.index < |s.slots| && p <= |items| && Unreleased(s, s.index, items[p..])
    ensures p < |items| && s.slots[s.index] == Some(items[p])
  {
    assert s.slots[s.index] == s.slots[s.index..][0];
  }

  lemma ReleasedOne<T, V>(s: State<T, V>, items: seq<T>)
    requires s.index < |s.slots| && Unreleased(s, s.index, items)
    ensures Unreleased(s.(slots := s.slots[s.index := None]), s.index + 1, items[1..])
  {
  }

  lemma {:induction false} ResumeAgrees<T, V>(transform: Transform<T, V>, s: State<T, V>, requests: seq<Request<V>>,
                                              stream: Stream<T>, mode: Mode)
    returns (after: Mode)
    requires s.calls == |requests| && Served(transform, s.queue, s.log, requests, stream, mode)
    requires mode.At? && mode.position <= |stream.items|
    requires stream.end.None? && stream.close.None? && !s.failed
    requires s.queue != [] && s.index < |s.slots|
    requires Unreleased(s, s.index + 1, stream.items[mode.position..])
    requires forall i :: s.index < i < |s.slots| ==> s.slots[i].Some?
    ensures Agrees(transform, Resume(transform, s), requests, stream, after)
    decreases |s.slots| - s.index, 0
  {
    ResumeKeepsValid(transform, s);
    if s.queue[0].request.Next? {
      after := AdvanceAgrees(transform, s.(index := s.index + 1), requests, stream, mode);
    } else {
      after := mode;
      NativeServes(transform, s.queue, s.log, requests, stream, mode, Close);
    }
  }

  lemma {:induction false} DrainAgrees<T, V>(transform: Transform<T, V>, s: State<T, V>, requests: seq<Request<V>>,
                                             stream: Stream<T>)
    requires s.calls == |requests| && Served(transform, s.queue, s.log, requests, stream, Over)
    ensures Agrees(transform, Drain(s), requests, stream, Over)
    decreases |s.queue|
  {
    DrainKeepsValid(s);
    if s.queue != [] {
      var outcome := OverOutcome(s.queue[0].request);
      SettleServes(transform, s.queue, s.log, requests, stream, Over, outcome, Over);
      DrainAgrees(transform, SettleHead(s, outcome), requests, stream);
    }
  }

  lemma EnqueueServes<T, V>(transform: Transform<T, V>, queue: seq<Call<V>>, log: seq<Action<V>>,
                            requests: seq<Request<V>>, stream: Stream<T>, mode: Mode, request: Request<V>)
    requires Served(transform, queue, log, requests, stream, mode)
    ensures Served(transform, queue + [Call(|requests|, request)], log, requests + [request], stream, mode)
  {
    var n := |requests| - |queue|;
    assert (requests + [request])[..n] == requests[..n];
  }

  // The first call starts the body, or ends the generator.
  function StartMode<V>(mode: Mode, request: Request<V>): Mode {
    if request.Next? then mode else Over
  }

  lemma StartServes<T, V>(transform: Transform<T, V>, s: State<T, V>, requests: seq<Request<V>>, stream: Stream<T>,
                          mode: Mode, request: Request<V>)
    requires Valid(s) && s.phase.SuspendedStart? && s.calls == |requests|
    requires mode.Fresh? && Served(transform, s.queue, s.log, requests, stream, mode)
    ensures var after := OnRequest(transform, s, request);
      Served(transform, after.queue, after.log, requests + [request], stream, StartMode(mode, request))
  {
    var queue, all := Enqueue(s, request).queue, requests + [request];
    EnqueueServes(transform, s.queue, s.log, requests, stream, mode, request);
    if request.Next? {
      NativeServes(transform, queue, s.log, all, stream, mode, Pull);
    } else {
      SettleServes(transform, queue, s.log, all, stream, mode, OverOutcome(request), Over);
    }
  }

  lemma StartPhase<T, V>(transform: Transform<T, V>, s: State<T, V>, stream: Stream<T>, mode: Mode, request: Request<V>)
    requires s.phase.SuspendedStart? && PhaseAgrees(transform, s, stream, mode)
    ensures PhaseAgrees(transform, OnRequest(transform, s, request), stream, StartMode(mode, request))
  {
    StepKeepsValid(transform, s, Input.Request(request));
  }

  lemma RequestAgrees<T, V>(transform: Transform<T, V>, s: State<T, V>, requests: seq<Request<V>>, stream: Stream<T>,
                            mode: Mode, request: Request<V>)
    returns (after: Mode)
    requires Agrees(transform, s, requests, stream, mode)
    ensures Agrees(transform, OnRequest(transform, s, request), requests + [request], stream, after)
  {
    var all := requests + [request];
    var waiting := Enqueue(s, request);
    StepKeepsValid(transform, s, Input.Request(request));
    EnqueueServes(transform, s.queue, s.log, requests, stream, mode, request);
    after := mode;
    match s.phase
    case SuspendedStart =>
      after := StartMode(mode, request);
      StartServes(transform, s, requests, stream, mode, request);
      StartPhase(transform, s, stream, mode, request);
    case SuspendedYield => after := ResumeAgrees(transform, waiting, all, stream, mode);
    case Completed => SettleServes(transform, waiting.queue, s.log, all, stream, mode, OverOutcome(request), Over);
    case _ =>
  }

  lemma StreamServes<T, V>(transform: Transform<T, V>, queue: seq<Call<V>>, log: seq<Action<V>>,
                           requests: seq<Request<V>>, a: Stream<T>, b: Stream<T>, mode: Mode)
    requires Served(transform, queue, log, requests, a, mode) && Later(a, b)
    ensures Served(transform, queue, log, requests, b, mode)
  {
    ServeIsStable(transform, requests[..|requests| - |queue|], a, b);
  }

  lemma CompletionAgrees<T, V>(transform: Transform<T, V>, s: State<T, V>, requests: seq<Request<V>>,
                               stream: Stream<T>, mode: Mode, input: Input<T, V>)
    returns (after: Mode)
    requires Agrees(transform, s, requests, stream, mode) && Enabled(s, input) && !input.Request?
    ensures Agrees(transform, Step(transform, s, input), requests, Extend(stream, input), after)
  {
    var later := Extend(stream, input);
    StepKeepsValid(transform, s, input);
    StreamServes(transform, s.queue, s.log, requests, stream, later, mode);
    after := mode;
    match input
    case Chunk(items) =>
      assert later.items[Position(mode)..] == items;
      after := AdvanceAgrees(transform, s.(slots := Held(items), index := 0), requests, later, mode);
    case Exhausted => NativeServes(transform, s.queue, s.log, requests, later, mode, Close);
    case PullFails(_) => NativeServes(transform, s.queue, s.log, requests, later, mode, Close);
    case Closed(closeError) =>
      var outcome := FinalOutcome(s.phase.completion, s.failed, closeError);
      SettleServes(transform, s.queue, s.log, requests, later, mode, outcome, Over);
      DrainAgrees(transform, SettleHead(s, outcome), requests, later);
      after := Over;
  }

  lemma StepAgrees<T, V>(transform: Transform<T, V>, s: State<T, V>, requests: seq<Request<V>>, stream: Stream<T>,
                         mode: Mode, input: Input<T, V>)
    returns (after: Mode)
    requires Agrees(transform, s, requests, stream, mode) && Enabled(s, input)
    ensures Agrees(transform, Step(transform, s, input), requests + Asked(input), Extend(stream, input), after)
  {
    match input
    case Request(request) => after := RequestAgrees(transform, s, requests, stream, mode, request);
    case _ =>
      after := CompletionAgrees(transform, s, requests, stream, mode, input);
      assert requests + Asked(input) == requests;
  }

  lemma {:induction false} RunAgrees<T, V>(transform: Transform<T, V>, inputs: seq<Input<T, V>>)
    returns (mode: Mode)
    requires Run(transform, inputs).Some?
    ensures Agrees(transform, Run(transform, inputs).value, Requests(inputs), StreamOf(inputs), mode)
  {
    if inputs == [] {
      mode := Fresh;
    } else {
      var before := inputs[..|inputs| - 1];
      var s := Run(transform, before).value;
      mode := RunAgrees(transform, before);
      mode := StepAgrees(transform, s, Requests(before), StreamOf(before), mode, inputs[|inputs| - 1]);
    }
  }

  // However calls and native completions interleave, calls settle in call order, and each call gets the
  // answer that the sequential description gives it for the calls before it and the same stream.
  lemma EveryInterleavingIsSequential<T, V>(transform: Transform<T, V>, inputs: seq<Input<T, V>>)
    requires Run(transform, inputs).Some?
    ensures var s := Run(transform, inputs).value;
      var settled := |Outcomes(s.log)|;
      && InCallOrder(s.log)
      && settled + |s.queue| == |Requests(inputs)|
      && Serve(transform, Requests(inputs)[..settled], StreamOf(inputs)).Some?
      && Serve(transform, Requests(inputs)[..settled], StreamOf(inputs)).value.0 == Outcomes(s.log)
  {
    var mode := RunAgrees(transform, inputs);
    ServedIsSequential(transform, Run(transform, inputs).value.queue, Run(transform, inputs).value.log,
                       Requests(inputs), StreamOf(inputs), mode);
  }

  lemma ServedIsSequential<T, V>(transform: Transform<T, V>, queue: seq<Call<V>>, log: seq<Action<V>>,
                                 requests: seq<Request<V>>, stream: Stream<T>, mode: Mode)
    requires Served(transform, queue, log, requests, stream, mode)
    ensures InCallOrder(log) && |Outcomes(log)| + |queue| == |requests|
    ensures Serve(transform, requests[..|Outcomes(log)|], stream) == Some((Outcomes(log), mode))
  {
  }

  // ----- What the answers deliver -----

  function Delivered<V>(outcomes: seq<Outcome<V>>): seq<V> {
    if outcomes == [] then []
    else Delivered(outcomes[..|outcomes| - 1])
         + match outcomes[|outcomes| - 1] case Item(value) => [value] case _ => []
  }

  // The delivered values are the transformed items of a prefix of the stream, each once and in order.
  ghost predicate DeliversPrefix<T, V>(transform: Transform<T, V>, values: seq<V>, items: seq<T>) {
    && |values| <= |items|
    && forall i :: 0 <= i < |values| ==> transform(items[i]) == Success(values[i])
  }

  lemma {:induction false} ServeDeliversPrefix<T, V>(transform: Transform<T, V>, requests: seq<Request<V>>,
                                                     stream: Stream<T>)
    requires Serve(transform, requests, stream).Some?
    ensures var (outcomes, mode) := Serve(transform, requests, stream).value;
      && DeliversPrefix(transform, Delivered(outcomes), stream.items)
      && (!mode.Over? ==> |Delivered(outcomes)| == Position(mode))
  {
    if requests != [] {
      ServeDeliversPrefix(transform, requests[..|requests| - 1], stream);
      var (outcomes, mode) := Serve(transform, requests[..|requests| - 1], stream).value;
      AnswerDelivers(transform, outcomes, mode, requests[|requests| - 1], stream);
    }
  }

  // One more answer delivers at most the next item.
  lemma AnswerDelivers<T, V>(transform: Transform<T, V>, outcomes: seq<Outcome<V>>, mode: Mode, request: Request<V>,
                             stream: Stream<T>)
    requires DeliversPrefix(transform, Delivered(outcomes), stream.items)
    requires !mode.Over? ==> |Delivered(outcomes)| == Position(mode)
    requires ServeOne(transform, mode, request, stream).Some?
    ensures var (outcome, next) := ServeOne(transform, mode, request, stream).value;
      && DeliversPrefix(transform, Delivered(outcomes + [outcome]), stream.items)
      && (!next.Over? ==> |Delivered(outcomes + [outcome])| == Position(next))
  {
    var (outcome, next) := ServeOne(transform, mode, request, stream).value;
    ItemIsNext(transform, mode, request, stream);
    DeliveredGrows(outcomes, outcome);
  }

  // An answer that is an item is the next one, and only an item leaves the scan open.
  lemma ItemIsNext<T, V>(transform: Transform<T, V>, mode: Mode, request: Request<V>, stream: Stream<T>)
    requires ServeOne(transform, mode, request, stream).Some?
    ensures var (outcome, next) := ServeOne(transform, mode, request, stream).value;
      var p := Position(mode);
      if next.Over? then !outcome.Item?
      else
        && !mode.Over? && p < |stream.items| && next == At(p + 1)
        && outcome.Item? && transform(stream.items[p]) == Success(outcome.value)
  {
  }

  lemma DeliveredGrows<V>(outcomes: seq<Outcome<V>>, outcome: Outcome<V>)
    ensures Delivered(outcomes + [outcome]) == Delivered(outcomes) + if outcome.Item? then [outcome.value] else []
  {
    assert (outcomes + [outcome])[..|outcomes|] == outcomes;
  }

  // A scan that is over without an early exit, a failed pull, or a failed transform delivered every item.
  lemma {:induction false} ServeDeliversAll<T, V>(transform: Transform<T, V>, requests: seq<Request<V>>,
                                                  stream: Stream<T>)
    requires Serve(transform, requests, stream).Some? && Serve(transform, requests, stream).value.1.Over?
    requires forall request :: request in requests ==> request.Next?
    requires forall item :: item in stream.items ==> transform(item).Success?
    ensures |Delivered(Serve(transform, requests, stream).value.0)| == |stream.items|
    ensures stream.end.Some?
  {
    ServeDeliversPrefix(transform, requests, stream);
    var before := requests[..|requests| - 1];
    ServeDeliversPrefix(transform, before, stream);
    var (outcomes, mode) := Serve(transform, before, stream).value;
    var (outcome, next) := ServeOne(transform, mode, requests[|requests| - 1], stream).value;
    assert (outcomes + [outcome])[..|outcomes|] == outcomes;
    if mode.Over? {
      ServeDeliversAll(transform, before, stream);
    }
  }

  // The answer of the call that reaches the end of the scan. A close failure surfaces only after a scan that
  // did not fail.
  function EndingOutcome<T, V>(stream: Stream<T>): Outcome<V>
    requires stream.end.Some? && stream.close.Some?
  {
    match stream.end.value
    case FailedEnd(error) => Rejected(ToStateError(error))
    case NaturalEnd =>
      match stream.close.value
      case Some(closeError) => Rejected(ToStateError(closeError))
      case None => Done(None)
  }

  // The number of leading calls that get an item. Each asks for one, and the item exists and can be transformed.
  function ItemCalls<T, V>(transform: Transform<T, V>, requests: seq<Request<V>>, stream: Stream<T>): (n: nat)
    ensures n <= |requests| && n <= |stream.items|
  {
    if requests == [] then 0
    else
      var n := ItemCalls(transform, requests[..|requests| - 1], stream);
      if n == |requests| - 1 && requests[n].Next? && n < |stream.items| && transform(stream.items[n]).Success?
      then n + 1
      else n
  }

  // What the native side must have reported before call `n`, which gets no item, is answered.
  predicate Determined<T, V>(request: Request<V>, n: nat, stream: Stream<T>) {
    && (request.Next? || n > 0 ==> stream.close.Some?)
    && (request.Next? && n >= |stream.items| ==> stream.end.Some?)
  }

  // The answer of the call that gets no item after `n` items. Before the first item an early exit never runs
  // the body. Later it closes the scan, and a `throw` passes through the error conversion.
  function StoppingOutcome<T, V>(transform: Transform<T, V>, request: Request<V>, n: nat, stream: Stream<T>): Outcome<V>
    requires Determined(request, n, stream)
    requires request.Next? && n < |stream.items| ==> transform(stream.items[n]).Failure?
  {
    match request
    case Next =>
      if n < |stream.items| then Rejected(ToStateError(transform(stream.items[n]).error)) else EndingOutcome(stream)
    case Return(value) =>
      if n > 0 && stream.close.value.Some? then Rejected(ToStateError(stream.close.value.value)) else Done(value)
    case Throw(error) => Rejected(if n > 0 then ToStateError(error) else error)
  }

  // The answers in closed form: items, then the answer of the first call that gets none. Every later call is
  // answered at once by its own request.
  ghost predicate AnswersInOrder<T, V>(transform: Transform<T, V>, requests: seq<Request<V>>, stream: Stream<T>,
                                       outcomes: seq<Outcome<V>>)
  {
    var n := ItemCalls(transform, requests, stream);
    && |outcomes| == |requests|
    && (forall k :: 0 <= k < n ==> transform(stream.items[k]).Success?)
    && (forall k :: 0 <= k < n ==> outcomes[k] == Item(transform(stream.items[k]).value))
    && (n < |requests| ==>
        && Determined(requests[n], n, stream)
        && !(requests[n].Next? && n < |stream.items| && transform(stream.items[n]).Success?)
        && outcomes[n] == StoppingOutcome(transform, requests[n], n, stream))
    && (forall k :: n < k < |requests| ==>
          outcomes[k] == match requests[k]
                         case Next => Done(None)
                         case Return(value) => Done(value)
                         case Throw(error) => Rejected(error))
  }

  // The answers so far, and where they leave the sequential description.
  ghost predicate AnsweredUpTo<T, V>(transform: Transform<T, V>, requests: seq<Request<V>>, stream: Stream<T>,
                                     outcomes: seq<Outcome<V>>, mode: Mode)
  {
    && AnswersInOrder(transform, requests, stream, outcomes)
    && (mode.Over? <==> ItemCalls(transform, requests, stream) < |requests|)
    && (!mode.Over? ==> mode == if requests == [] then Fresh else At(|requests|))
  }

  lemma ItemCallsGrow<T, V>(transform: Transform<T, V>, before: seq<Request<V>>, request: Request<V>, stream: Stream<T>)
    ensures var n := ItemCalls(transform, before, stream);
      ItemCalls(transform, before + [request], stream) ==
        if n == |before| && request.Next? && n < |stream.items| && transform(stream.items[n]).Success? then n + 1 else n
  {
    assert (before + [request])[..|before|] == before;
  }

  // An answer to a generator that is over.
  lemma OverAnswer<T, V>(transform: Transform<T, V>, before: seq<Request<V>>, request: Request<V>, stream: Stream<T>,
                         outcomes: seq<Outcome<V>>)
    requires AnsweredUpTo(transform, before, stream, outcomes, Over)
    ensures AnsweredUpTo(transform, before + [request], stream, outcomes + [OverOutcome(request)], Over)
  {
    ItemCallsGrow(transform, before, request, stream);
  }

  // An answer that is an item, or the first that is none.
  lemma OpenAnswer<T, V>(transform: Transform<T, V>, before: seq<Request<V>>, request: Request<V>, stream: Stream<T>,
                         outcomes: seq<Outcome<V>>, mode: Mode)
    requires AnsweredUpTo(transform, before, stream, outcomes, mode) && !mode.Over?
    requires ServeOne(transform, mode, request, stream).Some?
    ensures var (outcome, next) := ServeOne(transform, mode, request, stream).value;
      AnsweredUpTo(transform, before + [request], stream, outcomes + [outcome], next)
  {
    ItemCallsGrow(transform, before, request, stream);
  }

  lemma {:induction false} ServeAnswersInOrder<T, V>(transform: Transform<T, V>, requests: seq<Request<V>>,
                                                     stream: Stream<T>)
    requires Serve(transform, requests, stream).Some?
    ensures var (outcomes, mode) := Serve(transform, requests, stream).value;
      AnsweredUpTo(transform, requests, stream, outcomes, mode)
  {
    if requests != [] {
      var before, request := requests[..|requests| - 1], requests[|requests| - 1];
      ServeAnswersInOrder(transform, before, stream);
      var (outcomes, mode) := Serve(transform, before, stream).value;
      var (outcome, next) := ServeOne(transform, mode, request, stream).value;
      assert Serve(transform, requests, stream) == Some((outcomes + [outcome], next));
      assert before + [request] == requests;
      if mode.Over? {
        OverAnswer(transform, before, request, stream, outcomes);
      } else {
        OpenAnswer(transform, before, request, stream, outcomes, mode);
      }
    }
  }

  function DeliveredBy<T, V>(transform: Transform<T, V>, inputs: seq<Input<T, V>>): seq<V> {
    match Run(transform, inputs) case None => [] case Some(s) => Delivered(Outcomes(s.log))
  }

  lemma AgreesDelivers<T, V>(transform: Transform<T, V>, s: State<T, V>, requests: seq<Request<V>>, stream: Stream<T>,
                             mode: Mode)
    requires Agrees(transform, s, requests, stream, mode)
    ensures var delivered := Delivered(Outcomes(s.log));
      && DeliversPrefix(transform, delivered, stream.items)
      && (s.phase.SuspendedYield? ==> Unreleased(s, s.index + 1, stream.items[|delivered|..]))
      && (s.phase.Pulling? ==> |delivered| == |stream.items| && Unreleased(s, |s.slots|, []))
  {
    SettledDeliver(transform, s.log, requests[..|requests| - |s.queue|], stream, mode);
  }

  lemma SettledDeliver<T, V>(transform: Transform<T, V>, log: seq<Action<V>>, requests: seq<Request<V>>,
                             stream: Stream<T>, mode: Mode)
    requires Settled(transform, log, requests, stream, mode)
    ensures DeliversPrefix(transform, Delivered(Outcomes(log)), stream.items)
    ensures !mode.Over? ==> |Delivered(Outcomes(log))| == Position(mode)
  {
    ServeDeliversPrefix(transform, requests, stream);
  }

  // In every reachable state the delivered values are the transformed items of a prefix of the chunks, and
  // between two pulls the unreleased slots hold exactly the items that follow.
  lemma DeliveryIsPrefix<T, V>(transform: Transform<T, V>, inputs: seq<Input<T, V>>)
    requires Run(transform, inputs).Some?
    ensures var s := Run(transform, inputs).value;
      var delivered, items := Delivered(Outcomes(s.log)), StreamOf(inputs).items;
      && DeliversPrefix(transform, delivered, items)
      && (s.phase.SuspendedYield? ==> Unreleased(s, s.index + 1, items[|delivered|..]))
      && (s.phase.Pulling? ==> |delivered| == |items| && Unreleased(s, |s.slots|, []))
  {
    var mode := RunAgrees(transform, inputs);
    AgreesDelivers(transform, Run(transform, inputs).value, Requests(inputs), StreamOf(inputs), mode);
  }

  // A scan that reached its end: the generator is over, the consumer only asked for items, and every item
  // could be transformed.
  ghost predicate Finished<T, V>(transform: Transform<T, V>, inputs: seq<Input<T, V>>) {
    && Run(transform, inputs).Some?
    && Run(transform, inputs).value.phase.Completed?
    && (forall request :: request in Requests(inputs) ==> request.Next?)
    && (forall item :: item in StreamOf(inputs).items ==> transform(item).Success?)
  }

  // It delivered every item, whatever the chunks, the timing of the calls, and the result of the close.
  lemma FinishedScanDeliversAll<T, V>(transform: Transform<T, V>, inputs: seq<Input<T, V>>)
    requires Finished(transform, inputs)
    ensures StreamOf(inputs).end.Some? && |DeliveredBy(transform, inputs)| == |StreamOf(inputs).items|
    ensures DeliversPrefix(transform, DeliveredBy(transform, inputs), StreamOf(inputs).items)
  {
    var mode := RunAgrees(transform, inputs);
    assert Requests(inputs)[..|Requests(inputs)|] == Requests(inputs);
    ServeDeliversPrefix(transform, Requests(inputs), StreamOf(inputs));
    ServeDeliversAll(transform, Requests(inputs), StreamOf(inputs));
  }

  // What a consumer sees, over every interleaving of any calls: the items in order, one answer that ends the
  // scan, and then the answers of a generator that is over.
  lemma ConsumerSeesScan<T, V>(transform: Transform<T, V>, inputs: seq<Input<T, V>>)
    requires Run(transform, inputs).Some?
    ensures var outcomes := Outcomes(Run(transform, inputs).value.log);
      && |outcomes| <= |Requests(inputs)|
      && AnswersInOrder(transform, Requests(inputs)[..|outcomes|], StreamOf(inputs), outcomes)
  {
    EveryInterleavingIsSequential(transform, inputs);
    ServeAnswersInOrder(transform, Requests(inputs)[..|Outcomes(Run(transform, inputs).value.log)|], StreamOf(inputs));
  }

  // The first `n` answers are items, and no other is.
  lemma {:induction false} DeliveredCount<V>(outcomes: seq<Outcome<V>>, n: nat)
    requires n <= |outcomes|
    requires forall k :: 0 <= k < |outcomes| ==> (outcomes[k].Item? <==> k < n)
    ensures |Delivered(outcomes)| == n
  {
    if outcomes != [] {
      DeliveredCount(outcomes[..|outcomes| - 1], if n == |outcomes| then n - 1 else n);
    }
  }

  // The answers of calls that only ask for items, by the number of values they deliver.
  ghost predicate NextOnlyAnswer<T, V>(transform: Transform<T, V>, stream: Stream<T>, n: nat, k: nat,
                                       answer: Outcome<V>)
  {
    && n <= |stream.items|
    && (k < n ==> transform(stream.items[k]).Success? && answer == Item(transform(stream.items[k]).value))
    && (k == n < |stream.items| ==>
        transform(stream.items[k]).Failure? && answer == Rejected(ToStateError(transform(stream.items[k]).error)))
    && (k == n == |stream.items| ==> stream.end.Some? && stream.close.Some? && answer == EndingOutcome(stream))
    && (k > n ==> answer == Done(None))
  }

  lemma NextOnlyInOrder<T, V>(transform: Transform<T, V>, requests: seq<Request<V>>, stream: Stream<T>,
                              outcomes: seq<Outcome<V>>, k: nat)
    requires AnswersInOrder(transform, requests, stream, outcomes) && k < |requests|
    requires forall i :: 0 <= i < |requests| ==> requests[i].Next?
    ensures |Delivered(outcomes)| == ItemCalls(transform, requests, stream)
    ensures NextOnlyAnswer(transform, stream, ItemCalls(transform, requests, stream), k, outcomes[k])
  {
    DeliveredCount(outcomes, ItemCalls(transform, requests, stream));
  }

  // A consumer that only asks for items: items first, then one answer that ends the scan, and `done` from then on.
  // So it is rejected at most once, and only when an item, a pull, or the close failed.
  lemma NextOnlyAnswers<T, V>(transform: Transform<T, V>, inputs: seq<Input<T, V>>, k: nat)
    requires Run(transform, inputs).Some? && (forall request :: request in Requests(inputs) ==> request.Next?)
    requires k < |Outcomes(Run(transform, inputs).value.log)|
    ensures NextOnlyAnswer(transform, StreamOf(inputs), |DeliveredBy(transform, inputs)|, k,
                           Outcomes(Run(transform, inputs).value.log)[k])
  {
    var outcomes := Outcomes(Run(transform, inputs).value.log);
    ConsumerSeesScan(transform, inputs);
    var requests := Requests(inputs)[..|outcomes|];
    assert forall i :: 0 <= i < |requests| ==> requests[i] == Requests(inputs)[i];
    NextOnlyInOrder(transform, requests, StreamOf(inputs), outcomes, k);
  }

  // Nothing is refused: a call may come at any time, and whenever a native call is in flight it may end in each of
  // its ways.
  lemma NothingIsRefused<T, V>(transform: Transform<T, V>, inputs: seq<Input<T, V>>, input: Input<T, V>)
    requires Run(transform, inputs).Some?
    ensures var phase := Run(transform, inputs).value.phase;
      Run(transform, inputs + [input]).Some?
      <==> match input
           case Request(_) => true
           case Chunk(_) => phase.Pulling?
           case Exhausted => phase.Pulling?
           case PullFails(_) => phase.Pulling?
           case Closed(_) => phase.Closing?
  {
    assert (inputs + [input])[..|inputs|] == inputs;
  }
}
