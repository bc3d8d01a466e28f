// lib/state/iterator.js as an object: the generator's variables, the held chunk whose slots it overwrites,
// and the queue of waiting calls.
module StateIterators {
  import opened Prelude
  import opened Errors
  import opened Generator
  import opened GeneratorRuns

  class StateIterator<T, V> {
    const transform: Transform<T, V>
    var phase: Phase<V>
    var failed: bool
    var chunk: array<Option<T>>
    var index: nat
    var queue: seq<Call<V>>
    var calls: nat
    ghost var log: seq<Action<V>>

    ghost function Abstract(): State<T, V>
      reads this, chunk
    {
      State(phase, failed, chunk[..], index, queue, calls, log)
    }

    constructor (transform: Transform<T, V>)
      ensures this.transform == transform
      ensures Abstract() == Initial() && fresh(chunk)
    {
      this.transform := transform;
      phase, failed, index, queue, calls, log := SuspendedStart, false, 0, [], 0, [];
      chunk := new Option<T>[0];
    }

    // Answers the call at the head of the queue.
    method Settle(outcome: Outcome<V>)
      requires queue != []
      modifies this
      ensures Abstract() == SettleHead(old(Abstract()), outcome) && chunk == old(chunk)
    {
      log := log + [Action.Settle(queue[0].number, outcome)];
      queue := queue[1..];
    }

    // Leaves the body through its `finally` block, which awaits the native close.
    method Leave(completion: Completion<V>, failure: bool)
      modifies this
      ensures Abstract() == StartClose(old(Abstract()), completion, failure) && chunk == old(chunk)
    {
      failed := failure;
      phase := Closing(completion);
      log := log + [Close];
    }

    // Releases the slot at `index` and yields its item, or leaves the body when the item cannot be transformed.
    method Deliver() returns (running: bool)
      requires queue != [] && index < chunk.Length
      requires forall i :: index <= i < chunk.Length ==> chunk[i].Some?
      modifies this, chunk
      ensures chunk == old(chunk) && index == old(index)
      ensures running ==> queue != [] && forall i :: index < i < chunk.Length ==> chunk[i].Some?
      ensures running ==> Resume(transform, Abstract()) == old(Advance(transform, Abstract()))
      ensures !running ==> Abstract() == old(Advance(transform, Abstract()))
    {
      ghost var before := Abstract();
      var item := chunk[index].value;
      chunk[index] := None;
      assert Abstract() == before.(slots := before.slots[index := None]);
      match transform(item) {
        case Failure(error) =>
          Leave(ThrowError(ToStateError(error)), true);
          return false;
        case Success(value) =>
          Settle(Item(value));
          phase := SuspendedYield;
          return queue != [];
      }
    }

    // Resumes the body at its `yield` with the call at the head of the queue.
    method Continue() returns (running: bool)
      requires queue != [] && index < chunk.Length
      requires forall i :: index < i < chunk.Length ==> chunk[i].Some?
      modifies this
      ensures chunk == old(chunk) && queue == old(queue)
      ensures running ==> index == old(index) + 1
      ensures running ==> Advance(transform, Abstract()) == old(Resume(transform, Abstract()))
      ensures !running ==> Abstract() == old(Resume(transform, Abstract()))
    {
      match queue[0].request {
        case Next =>
          index := index + 1;
          return true;
        case Return(result) =>
          Leave(ReturnValue(result), false);
          return false;
        case Throw(error) =>
          Leave(ThrowError(ToStateError(error)), true);
          return false;
      }
    }

    // The body from the top of its inner loop up to the next await or suspension.
    method RunBody()
      requires queue != [] && index <= chunk.Length
      requires forall i :: index <= i < chunk.Length ==> chunk[i].Some?
      modifies this, chunk
      ensures Abstract() == old(Advance(transform, Abstract())) && chunk == old(chunk)
    {
      var running := true;
      while running
        invariant chunk == old(chunk)
        invariant running ==> queue != [] && index <= chunk.Length
        invariant running ==> forall i :: index <= i < chunk.Length ==> chunk[i].Some?
        invariant running ==> Advance(transform, Abstract()) == old(Advance(transform, Abstract()))
        invariant !running ==> Abstract() == old(Advance(transform, Abstract()))
        decreases running, chunk.Length - index
      {
        if index == chunk.Length {
          phase := Pulling;
          log := log + [Pull];
          running := false;
        } else {
          running := Deliver();
          if running {
            running := Continue();
          }
        }
      }
    }

    // next(), return(), and throw().
    method Ask(request: Request<V>)
      requires Valid(Abstract())
      modifies this, chunk
      ensures Abstract() == Step(transform, old(Abstract()), Input.Request(request))
      ensures Valid(Abstract()) && chunk == old(chunk)
    {
      StepKeepsValid(transform, Abstract(), Input.Request(request));
      queue := queue + [Call(calls, request)];
      calls := calls + 1;
      match phase {
        case SuspendedStart =>
          if request.Next? {
            phase := Pulling;
            log := log + [Pull];
          } else {
            Settle(OverOutcome(request));
            phase := Completed;
          }
        case SuspendedYield =>
          match request {
            case Next =>
              index := index + 1;
              RunBody();
            case Return(result) => Leave(ReturnValue(result), false);
            case Throw(error) => Leave(ThrowError(ToStateError(error)), true);
          }
        case Completed => Settle(OverOutcome(request));
        case _ =>
      }
    }

    // The pull resolves with a chunk. The iterator keeps the array and releases its slots in place.
    method OnChunk(items: array<Option<T>>, ghost values: seq<T>)
      requires Valid(Abstract()) && Enabled(Abstract(), Chunk(values))
      requires items[..] == Held(values)
      modifies this, items
      ensures Abstract() == Step(transform, old(Abstract()), Chunk(values))
      ensures Valid(Abstract()) && chunk == items
    {
      StepKeepsValid(transform, Abstract(), Chunk(values));
      assert forall i :: 0 <= i < items.Length ==> items[i] == items[..][i];
      chunk := items;
      index := 0;
      RunBody();
    }

    // The pull resolves with null, or rejects.
    method OnPullEnd(failure: Option<Thrown>)
      requires Valid(Abstract()) && phase.Pulling?
      modifies this
      ensures Abstract() == Step(transform, old(Abstract()),
                                 if failure.Some? then PullFails(failure.value) else Exhausted)
      ensures Valid(Abstract()) && chunk == old(chunk)
    {
      if failure.Some? {
        Leave(ThrowError(ToStateError(failure.value)), true);
      } else {
        Leave(ReturnValue(None), false);
      }
    }

    // The native close settles. The generator ends and answers every waiting call.
    method OnClosed(closeError: Option<Thrown>)
      requires Valid(Abstract()) && phase.Closing?
      modifies this
      ensures Abstract() == Step(transform, old(Abstract()), Closed(closeError))
      ensures Valid(Abstract()) && chunk == old(chunk)
    {
      StepKeepsValid(transform, Abstract(), Closed(closeError));
      if closeError.Some? && !failed {
        Settle(Rejected(ToStateError(closeError.value)));
      } else {
        match phase.completion {
          case ReturnValue(value) => Settle(Done(value));
          case ThrowError(error) => Settle(Rejected(error));
        }
      }
      while queue != []
        invariant chunk == old(chunk)
        invariant Drain(Abstract()) == old(Step(transform, Abstract(), Closed(closeError)))
        decreases |queue|
      {
        Settle(OverOutcome(queue[0].request));
      }
      phase := Completed;
    }
  }
}
