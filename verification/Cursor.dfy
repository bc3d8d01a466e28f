// src/state/cursor.rs: one pull of the native cursor. A chunk converts as a whole or not at all.
module Cursor {
  import opened Prelude
  import opened Errors
  import opened Generator
  import opened GeneratorRuns

  // What the core answers to a pull: a chunk, the end of the scan, or a failure with its category.
  datatype Pulled<+R> = Ready(items: seq<R>) | End | Fails(category: Category, message: string)

  // The conversion of one item. Its only failure is a stored document that is not UTF-8, which the message
  // describes.
  type Convert<!R, T> = R -> Result<T, string>

  // The converted items up to the first one that does not convert.
  function ConvertAll<R, T>(items: seq<R>, convert: Convert<R, T>): Result<seq<T>, string> {
    if items == [] then Success([])
    else
      var first :- convert(items[0]);
      var rest :- ConvertAll(items[1..], convert);
      Success([first] + rest)
  }

  // What the generator receives from one pull.
  function NextChunk<R, T, V>(pulled: Pulled<R>, convert: Convert<R, T>): Input<T, V> {
    match pulled
    case End => Exhausted
    case Fails(category, message) => PullFails(TaggedError(category, message))
    case Ready(items) =>
      match ConvertAll(items, convert)
      case Success(converted) => Chunk(converted)
      case Failure(message) => PullFails(TaggedError(Permanent, message))
  }

  // The message is that of the first item that does not convert.
  ghost predicate FirstUnreadable<R, T>(items: seq<R>, convert: Convert<R, T>, message: string) {
    exists i :: UnreadableAt(items, convert, message, i)
  }

  ghost predicate UnreadableAt<R, T>(items: seq<R>, convert: Convert<R, T>, message: string, i: int) {
    && 0 <= i < |items| && convert(items[i]) == Failure(message)
    && forall j :: 0 <= j < i ==> convert(items[j]).Success?
  }

  lemma {:induction false} ConvertAllFails<R, T>(items: seq<R>, convert: Convert<R, T>)
    requires ConvertAll(items, convert).Failure?
    ensures FirstUnreadable(items, convert, ConvertAll(items, convert).error)
  {
    if convert(items[0]).Failure? {
      assert UnreadableAt(items, convert, convert(items[0]).error, 0);
    } else {
      ConvertAllFails(items[1..], convert);
      var message := ConvertAll(items, convert).error;
      var i :| UnreadableAt(items[1..], convert, message, i);
      assert forall j :: 0 < j < |items| ==> items[j] == items[1..][j - 1];
      assert UnreadableAt(items, convert, message, i + 1);
    }
  }

  // A chunk arrives exactly when every item converts, and then with every item in place. Otherwise the pull
  // fails as a whole, with the message of the first item that does not, and with an error that is permanent once it
  // reaches the retry logic.
  lemma {:induction false} ChunkIsAllOrNothing<R, T, V>(items: seq<R>, convert: Convert<R, T>)
    ensures var input: Input<T, V> := NextChunk(Ready(items), convert);
      if forall i :: 0 <= i < |items| ==> convert(items[i]).Success? then
        && input.Chunk? && |input.items| == |items|
        && forall i :: 0 <= i < |items| ==> convert(items[i]) == Success(input.items[i])
      else
        && input.PullFails? && RetryCategory(ToStateError(input.error), false) == Permanent
        && ToStateError(input.error).JsError?
        && FirstUnreadable(items, convert, ToStateError(input.error).message)
  {
    if items != [] {
      ChunkIsAllOrNothing<R, T, V>(items[1..], convert);
      if convert(items[0]).Success? && ConvertAll(items[1..], convert).Success? {
        assert ConvertAll(items, convert).value == [convert(items[0]).value] + ConvertAll(items[1..], convert).value;
        assert forall i :: 0 < i < |items| ==> items[i] == items[1..][i - 1];
      } else if convert(items[0]).Success? {
        assert exists i :: 0 <= i < |items[1..]| && !convert(items[1..][i]).Success?;
        var i :| 0 <= i < |items[1..]| && !convert(items[1..][i]).Success?;
        assert items[1..][i] == items[i + 1];
      }
    }
    if ConvertAll(items, convert).Failure? {
      ConvertAllFails(items, convert);
      CoreCategorySurvives(Permanent, ConvertAll(items, convert).error, [], false);
    }
  }

  // ----- What a generator receives from a cursor -----

  // The completions of pulls among the inputs of a generator.
  function PullsIn<T, V>(inputs: seq<Input<T, V>>): seq<Input<T, V>> {
    if inputs == [] then []
    else
      var last := inputs[|inputs| - 1];
      PullsIn(inputs[..|inputs| - 1]) + if IsPull(last) then [last] else []
  }

  predicate IsPull<T, V>(input: Input<T, V>) {
    !input.Request? && !input.Closed?
  }

  // Every pull of the generator gets the core's answer, converted.
  ghost predicate Receives<R, T, V>(inputs: seq<Input<T, V>>, pulls: seq<Pulled<R>>, convert: Convert<R, T>) {
    PullsIn(inputs) == seq(|pulls|, i requires 0 <= i < |pulls| => NextChunk(pulls[i], convert))
  }

  // The items of the chunks, in order.
  function ReadyItems<R>(pulls: seq<Pulled<R>>): seq<R> {
    if pulls == [] then []
    else ReadyItems(pulls[..|pulls| - 1]) + if pulls[|pulls| - 1].Ready? then pulls[|pulls| - 1].items else []
  }

  predicate ReachedEnd<R>(pulls: seq<Pulled<R>>) {
    pulls != [] && pulls[|pulls| - 1].End?
  }

  // The core answers with the items of `scan` in order, and reports the end only after the last one.
  ghost predicate Reads<R>(pulls: seq<Pulled<R>>, scan: seq<R>) {
    ReadyItems(pulls) <= scan && (ReachedEnd(pulls) ==> ReadyItems(pulls) == scan)
  }

  // The last pull ended the scan: it was the end, a failure, or a chunk that does not convert.
  predicate Stopped<R, T>(pulls: seq<Pulled<R>>, convert: Convert<R, T>) {
    && pulls != []
    && var last := pulls[|pulls| - 1];
    !last.Ready? || ConvertAll(last.items, convert).Failure?
  }

  // The chunks that arrived.
  function WholeChunks<R, T>(pulls: seq<Pulled<R>>, convert: Convert<R, T>): seq<Pulled<R>> {
    if Stopped(pulls, convert) then pulls[..|pulls| - 1] else pulls
  }

  lemma {:induction false} ConvertAllConcat<R, T>(a: seq<R>, b: seq<R>, convert: Convert<R, T>)
    requires ConvertAll(a, convert).Success? && ConvertAll(b, convert).Success?
    ensures ConvertAll(a + b, convert) == Success(ConvertAll(a, convert).value + ConvertAll(b, convert).value)
  {
    if a == [] {
      assert a + b == b;
      assert ConvertAll(a, convert).value + ConvertAll(b, convert).value == ConvertAll(b, convert).value;
    } else {
      assert (a + b)[1..] == a[1..] + b;
      ConvertAllConcat(a[1..], b, convert);
      var first := [convert(a[0]).value];
      assert first + (ConvertAll(a[1..], convert).value + ConvertAll(b, convert).value)
          == (first + ConvertAll(a[1..], convert).value) + ConvertAll(b, convert).value;
    }
  }

  lemma {:induction false} ConvertedItem<R, T>(items: seq<R>, convert: Convert<R, T>, i: nat)
    requires ConvertAll(items, convert).Success?
    ensures |ConvertAll(items, convert).value| == |items|
    ensures i < |items| ==> convert(items[i]) == Success(ConvertAll(items, convert).value[i])
  {
    if items != [] {
      ConvertedItem(items[1..], convert, if i == 0 then 0 else i - 1);
    }
  }

  lemma LastPull<R, T, V>(inputs: seq<Input<T, V>>, pulls: seq<Pulled<R>>, convert: Convert<R, T>)
    requires Receives(inputs, pulls, convert) && inputs != [] && IsPull(inputs[|inputs| - 1])
    ensures pulls != [] && Receives(inputs[..|inputs| - 1], pulls[..|pulls| - 1], convert)
    ensures inputs[|inputs| - 1] == NextChunk(pulls[|pulls| - 1], convert)
  {
    assert PullsIn(inputs)[..|pulls| - 1] == PullsIn(inputs[..|inputs| - 1]);
    assert PullsIn(inputs)[|pulls| - 1] == inputs[|inputs| - 1];
  }

  lemma PullingHasNoEnd<T, V>(transform: Transform<T, V>, inputs: seq<Input<T, V>>)
    requires Run(transform, inputs).Some? && Run(transform, inputs).value.phase.Pulling?
    ensures StreamOf(inputs).end.None?
  {
    var mode := RunAgrees(transform, inputs);
  }

  // Over every run, what the generator held is the converted items of the chunks that arrived. A pull that
  // fails, or a chunk that does not convert, is the last one.
  lemma {:induction false} StreamIsRead<R, T, V>(transform: Transform<T, V>, inputs: seq<Input<T, V>>,
                                                 pulls: seq<Pulled<R>>, convert: Convert<R, T>)
    requires Run(transform, inputs).Some? && Receives(inputs, pulls, convert)
    ensures Holds(StreamOf(inputs), pulls, convert)
  {
    if inputs != [] {
      var before, last := inputs[..|inputs| - 1], inputs[|inputs| - 1];
      if IsPull(last) {
        LastPull(inputs, pulls, convert);
        PullingHasNoEnd(transform, before);
        StreamIsRead(transform, before, pulls[..|pulls| - 1], convert);
        PullArrives(StreamOf(before), pulls, convert, last);
      } else {
        StreamIsRead(transform, before, pulls, convert);
      }
    }
  }

  // How a scan ends is what its last pull answered: the end, the core's failure with its category and message, or a
  // chunk that does not convert, which is permanent.
  ghost predicate EndMatches<R, T>(end: End, last: Pulled<R>, convert: Convert<R, T>) {
    match last
    case End => end == NaturalEnd
    case Fails(category, message) => FailsWith(end, category) && ToStateError(end.error).message == message
    case Ready(items) => FailsWith(end, Permanent) && FirstUnreadable(items, convert, ToStateError(end.error).message)
  }

  ghost predicate FailsWith(end: End, category: Category) {
    end.FailedEnd? && ToStateError(end.error).JsError? && RetryCategory(ToStateError(end.error), false) == category
  }

  // The stream is what the pulls converted to.
  ghost predicate Holds<R, T>(stream: Stream<T>, pulls: seq<Pulled<R>>, convert: Convert<R, T>) {
    && (stream.end.Some? <==> Stopped(pulls, convert))
    && (stream.end.Some? ==> EndMatches(stream.end.value, pulls[|pulls| - 1], convert))
    && ConvertAll(ReadyItems(WholeChunks(pulls, convert)), convert) == Success(stream.items)
  }

  lemma TagKeepsCategory<R, T, V>(pulled: Pulled<R>, input: Input<T, V>, convert: Convert<R, T>)
    requires input == NextChunk(pulled, convert)
    ensures pulled.End? ==> input == Exhausted
    ensures pulled.Fails? ==> input.PullFails? && EndMatches(FailedEnd(input.error), pulled, convert)
    ensures pulled.Ready? && !input.Chunk? ==> input.PullFails? && EndMatches(FailedEnd(input.error), pulled, convert)
  {
    if input.PullFails? {
      var category := if pulled.Fails? then pulled.category else Permanent;
      CoreCategorySurvives(category, input.error.message, [], false);
      if pulled.Ready? {
        ConvertAllFails(pulled.items, convert);
      }
    }
  }

  lemma PullArrives<R, T, V>(stream: Stream<T>, pulls: seq<Pulled<R>>, convert: Convert<R, T>, input: Input<T, V>)
    requires pulls != [] && Holds(stream, pulls[..|pulls| - 1], convert) && stream.end.None?
    requires input == NextChunk(pulls[|pulls| - 1], convert)
    ensures Holds(Extend(stream, input), pulls, convert)
  {
    TagKeepsCategory(pulls[|pulls| - 1], input, convert);
    if input.Chunk? {
      ConvertAllConcat(ReadyItems(pulls[..|pulls| - 1]), pulls[|pulls| - 1].items, convert);
    }
  }

  // A run of a scan whose pulls read `scan`.
  ghost predicate RunsScan<R, T, V>(transform: Transform<T, V>, convert: Convert<R, T>, scan: seq<R>,
                                    pulls: seq<Pulled<R>>, inputs: seq<Input<T, V>>)
  {
    Reads(pulls, scan) && Receives(inputs, pulls, convert) && Run(transform, inputs).Some?
  }

  // In every run the delivered values are the first items of the scan, converted and transformed, each once and
  // in order.
  lemma ScanDeliversPrefix<R, T, V>(transform: Transform<T, V>, convert: Convert<R, T>, scan: seq<R>,
                                    pulls: seq<Pulled<R>>, inputs: seq<Input<T, V>>)
    requires RunsScan(transform, convert, scan, pulls, inputs)
    ensures |DeliveredBy(transform, inputs)| <= |scan|
    ensures forall i :: 0 <= i < |DeliveredBy(transform, inputs)| ==>
      convert(scan[i]).Success? && transform(convert(scan[i]).value) == Success(DeliveredBy(transform, inputs)[i])
  {
    DeliveryIsPrefix(transform, inputs);
    StreamIsRead(transform, inputs, pulls, convert);
    var arrived := ReadyItems(WholeChunks(pulls, convert));
    assert arrived <= ReadyItems(pulls);
    ConvertedItem(arrived, convert, 0);
    var delivered := DeliveredBy(transform, inputs);
    forall i | 0 <= i < |delivered|
      ensures convert(scan[i]).Success? && transform(convert(scan[i]).value) == Success(delivered[i])
    {
      ConvertedItem(arrived, convert, i);
      assert arrived[i] == scan[i];
    }
  }

  // A finished scan delivered every item of the chunks before its last pull. When that pull was the end, it
  // delivered the whole scan.
  lemma FinishedScanDeliversChunks<R, T, V>(transform: Transform<T, V>, convert: Convert<R, T>, scan: seq<R>,
                                            pulls: seq<Pulled<R>>, inputs: seq<Input<T, V>>)
    requires RunsScan(transform, convert, scan, pulls, inputs) && Finished(transform, inputs)
    ensures Stopped(pulls, convert)
    ensures |DeliveredBy(transform, inputs)| == |ReadyItems(pulls[..|pulls| - 1])|
    ensures ReachedEnd(pulls) ==> |DeliveredBy(transform, inputs)| == |scan|
  {
    FinishedScanDeliversAll(transform, inputs);
    StreamIsRead(transform, inputs, pulls, convert);
    ConvertedItem(ReadyItems(pulls[..|pulls| - 1]), convert, 0);
  }

  // The answer that ends a scan, for a consumer that only asks for items when no item failed: `done` exactly when
  // the core reached the end and the close worked. A failed pull is rejected with the core's category and message, a
  // chunk that does not convert with a permanent error that describes its first such item, and a failed close with
  // its error.
  lemma EndingIsDecided<R, T, V>(transform: Transform<T, V>, convert: Convert<R, T>, pulls: seq<Pulled<R>>,
                                 inputs: seq<Input<T, V>>)
    requires Run(transform, inputs).Some? && Receives(inputs, pulls, convert)
    requires forall request :: request in Requests(inputs) ==> request.Next?
    requires forall item :: item in StreamOf(inputs).items ==> transform(item).Success?
    requires |DeliveredBy(transform, inputs)| < |Outcomes(Run(transform, inputs).value.log)|
    ensures var answer := Outcomes(Run(transform, inputs).value.log)[|DeliveredBy(transform, inputs)|];
      var close := StreamOf(inputs).close;
      && pulls != [] && close.Some?
      && (answer == Done(None) <==> ReachedEnd(pulls) && close == Some(None))
      && match pulls[|pulls| - 1]
         case End => close == Some(None) || answer == Rejected(ToStateError(close.value.value))
         case Fails(category, message) => RejectedAs(answer, category) && answer.error.message == message
         case Ready(items) => RejectedAs(answer, Permanent) && FirstUnreadable(items, convert, answer.error.message)
  {
    NextOnlyAnswers(transform, inputs, |DeliveredBy(transform, inputs)|);
    StreamIsRead(transform, inputs, pulls, convert);
  }

  ghost predicate RejectedAs<V>(answer: Outcome<V>, category: Category) {
    answer.Rejected? && answer.error.JsError? && RetryCategory(answer.error, false) == category
  }

  // A consumer only asks for items, and its call `k` is answered `done` after no rejection.
  ghost predicate SeesDone<T, V>(transform: Transform<T, V>, inputs: seq<Input<T, V>>, k: nat) {
    && Run(transform, inputs).Some?
    && (forall request :: request in Requests(inputs) ==> request.Next?)
    && var outcomes := Outcomes(Run(transform, inputs).value.log);
    && k < |outcomes| && outcomes[k] == Done(None)
    && forall j :: 0 <= j < k ==> !outcomes[j].Rejected?
  }

  // Such a consumer has the whole scan.
  lemma DoneMeansWhole<R, T, V>(transform: Transform<T, V>, convert: Convert<R, T>, scan: seq<R>,
                                pulls: seq<Pulled<R>>, inputs: seq<Input<T, V>>, k: nat)
    requires RunsScan(transform, convert, scan, pulls, inputs)
    requires SeesDone(transform, inputs, k)
    ensures ReachedEnd(pulls) && |DeliveredBy(transform, inputs)| == |scan|
  {
    var n := |DeliveredBy(transform, inputs)|;
    NextOnlyAnswers(transform, inputs, k);
    NextOnlyAnswers(transform, inputs, n);
    StreamIsRead(transform, inputs, pulls, convert);
    ConvertedItem(ReadyItems(WholeChunks(pulls, convert)), convert, 0);
  }
}
