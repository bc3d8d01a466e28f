// The async generator of lib/state/iterator.js as a state machine: calls queue, the body runs until it
// awaits a native operation, and each native completion resumes it (ECMA-262, section 27.6).
module Generator {
  import opened Prelude
  import opened Errors

  // What a caller asks for.
  datatype Request<+V> = Next | Return(value: Option<V>) | Throw(error: Thrown)

  datatype Outcome<+V> = Item(value: V) | Done(result: Option<V>) | Rejected(error: Thrown)

  // How the body ends: its return value, or the error it throws.
  datatype Completion<+V> = ReturnValue(value: Option<V>) | ThrowError(error: Thrown)

  datatype Phase<+V> = SuspendedStart | SuspendedYield | Pulling | Closing(completion: Completion<V>) | Completed

  // What the generator does, in order: native calls, and settlements of the callers' promises.
  datatype Action<+V> = Pull | Close | Settle(call: nat, outcome: Outcome<V>)

  // A waiting call and its number in call order.
  datatype Call<+V> = Call(number: nat, request: Request<V>)

  // `slots` is the held chunk. A released slot is None. `index` and `failed` are the body's variables.
  datatype State<T, V> = State(
    phase: Phase<V>,
    failed: bool,
    slots: seq<Option<T>>,
    index: nat,
    queue: seq<Call<V>>,
    calls: nat,
    log: seq<Action<V>>)

  type Transform<!T, V> = T -> Result<V, Thrown>

  function Initial<T, V>(): State<T, V> {
    State(SuspendedStart, false, [], 0, [], 0, [])
  }

  function Held<T>(chunk: seq<T>): seq<Option<T>> {
    seq(|chunk|, i requires 0 <= i < |chunk| => Some(chunk[i]))
  }

  function Enqueue<T, V>(s: State<T, V>, request: Request<V>): State<T, V> {
    s.(queue := s.queue + [Call(s.calls, request)], calls := s.calls + 1)
  }

  function SettleHead<T, V>(s: State<T, V>, outcome: Outcome<V>): State<T, V>
    requires s.queue != []
  {
    s.(queue := s.queue[1..], log := s.log + [Settle(s.queue[0].number, outcome)])
  }

  function StartClose<T, V>(s: State<T, V>, completion: Completion<V>, failed: bool): State<T, V> {
    s.(phase := Closing(completion), failed := failed, log := s.log + [Close])
  }

  // The body's inner loop from `index` on, until it awaits or no call waits.
  function Advance<T, V>(transform: Transform<T, V>, s: State<T, V>): State<T, V>
    requires s.queue != [] && s.index <= |s.slots|
    requires forall i :: s.index <= i < |s.slots| ==> s.slots[i].Some?
    decreases |s.slots| - s.index, 1
  {
    if s.index == |s.slots| then s.(phase := Pulling, log := s.log + [Pull])
    else
      var released := s.(slots := s.slots[s.index := None]);
      match transform(s.slots[s.index].value)
      case Failure(error) => StartClose(released, ThrowError(ToStateError(error)), true)
      case Success(value) =>
        var yielded := SettleHead(released, Item(value)).(phase := SuspendedYield);
        if yielded.queue == [] then yielded else Resume(transform, yielded)
  }

  // The head call resumes the body at its `yield`.
  function Resume<T, V>(transform: Transform<T, V>, s: State<T, V>): State<T, V>
    requires s.queue != [] && s.index < |s.slots|
    requires forall i :: s.index < i < |s.slots| ==> s.slots[i].Some?
    decreases |s.slots| - s.index, 0
  {
    match s.queue[0].request
    case Next => Advance(transform, s.(index := s.index + 1))
    case Return(value) => StartClose(s, ReturnValue(value), false)
    case Throw(error) => StartClose(s, ThrowError(ToStateError(error)), true)
  }

  // What a call gets once the generator is over, and what `return` and `throw` get before it starts.
  function OverOutcome<V>(request: Request<V>): Outcome<V> {
    match request
    case Next => Done(None)
    case Return(value) => Done(value)
    case Throw(error) => Rejected(error)
  }

  // Settles every waiting call of a finished generator.
  function Drain<T, V>(s: State<T, V>): State<T, V>
    decreases |s.queue|
  {
    if s.queue == [] then s.(phase := Completed)
    else Drain(SettleHead(s, OverOutcome(s.queue[0].request)))
  }

  // The outcome of the body, given how the native close ended. A close failure surfaces only when the
  // body did not fail.
  function FinalOutcome<V>(completion: Completion<V>, failed: bool, closeError: Option<Thrown>): Outcome<V> {
    if closeError.Some? && !failed then Rejected(ToStateError(closeError.value))
    else
      match completion
      case ReturnValue(value) => Done(value)
      case ThrowError(error) => Rejected(error)
  }

  // Calls by the consumer, and completions of native operations.
  datatype Input<+T, +V> =
    | Request(request: Request<V>)
    | Chunk(items: seq<T>)
    | Exhausted
    | PullFails(error: Thrown)
    | Closed(closeError: Option<Thrown>)

  // The shape of a state between two inputs.
  ghost predicate Valid<T, V>(s: State<T, V>) {
    && |s.queue| <= s.calls
    && (forall i :: 0 <= i < |s.queue| ==> s.queue[i].number == s.calls - |s.queue| + i)
    && (s.queue == [] <==> s.phase.SuspendedStart? || s.phase.SuspendedYield? || s.phase.Completed?)
    && (s.phase.SuspendedStart? ==> s.calls == 0 && s.slots == [] && s.index == 0 && !s.failed && s.log == [])
    && (s.phase.Pulling? ==> s.queue[0].request.Next? && s.index == |s.slots| && !s.failed)
    && (s.phase.SuspendedYield? ==> s.index < |s.slots| && !s.failed)
    && (s.phase.SuspendedYield? ==> forall i :: s.index < i < |s.slots| ==> s.slots[i].Some?)
    && (s.phase.Closing? && s.failed ==> s.phase.completion.ThrowError?)
  }

  // A native completion arrives only for the operation in flight.
  predicate Enabled<T, V>(s: State<T, V>, input: Input<T, V>) {
    match input
    case Request(_) => true
    case Chunk(_) => s.phase.Pulling?
    case Exhausted => s.phase.Pulling?
    case PullFails(_) => s.phase.Pulling?
    case Closed(_) => s.phase.Closing?
  }

  function OnRequest<T, V>(transform: Transform<T, V>, s: State<T, V>, request: Request<V>): State<T, V>
    requires Valid(s)
  {
    var waiting := Enqueue(s, request);
    match s.phase
    case SuspendedStart =>
      if request.Next? then waiting.(phase := Pulling, log := s.log + [Pull])
      else SettleHead(waiting, OverOutcome(request)).(phase := Completed)
    case SuspendedYield => Resume(transform, waiting)
    case Completed => SettleHead(waiting, OverOutcome(request))
    case _ => waiting
  }

  function Step<T, V>(transform: Transform<T, V>, s: State<T, V>, input: Input<T, V>): State<T, V>
    requires Valid(s) && Enabled(s, input)
  {
    match input
    case Request(request) => OnRequest(transform, s, request)
    case Chunk(items) => Advance(transform, s.(slots := Held(items), index := 0))
    case Exhausted => StartClose(s, ReturnValue(None), false)
    case PullFails(error) => StartClose(s, ThrowError(ToStateError(error)), true)
    case Closed(closeError) => Drain(SettleHead(s, FinalOutcome(s.phase.completion, s.failed, closeError)))
  }
}
