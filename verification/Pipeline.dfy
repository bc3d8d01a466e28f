// A scan from end to end (lib/state/map.js, lib/state/deque.js): checked options, lowered query, chunks of the
// native cursor, and generator.
module Pipeline {
  import opened Prelude
  import opened Numbers
  import opened Order
  import opened Lowering
  import opened Scans
  import opened QueryCheck
  import opened Errors
  import opened Generator
  import opened GeneratorRuns
  import opened Cursor

  type Decoder<!R, V> = R -> Result<V, Thrown>

  // The transforms of `entries`, `keys`, and `values`.
  function EntryOf<R, V>(decode: Decoder<R, V>): Transform<(Key, R), (Key, V)> {
    (entry: (Key, R)) =>
      match decode(entry.1) case Success(value) => Success((entry.0, value)) case Failure(error) => Failure(error)
  }

  function KeyOf(): Transform<Key, Key> {
    key => Success(key)
  }

  function ValueOf<R, V>(decode: Decoder<R, V>): Transform<(Key, R), V> {
    (entry: (Key, R)) => decode(entry.1)
  }

  // The conversion of a map entry by the native cursor: its payload converts, and its key stays.
  function EntryConvert<B, R>(convert: Convert<B, R>): Convert<(Key, B), (Key, R)> {
    (entry: (Key, B)) =>
      match convert(entry.1) case Success(value) => Success((entry.0, value)) case Failure(message) => Failure(message)
  }

  function KeyConvert(): Convert<Key, Key> {
    key => Success(key)
  }

  function Keys<K, V>(entries: seq<(K, V)>): seq<K> {
    seq(|entries|, i requires 0 <= i < |entries| => entries[i].0)
  }

  function Values<K, V>(entries: seq<(K, V)>): seq<V> {
    seq(|entries|, i requires 0 <= i < |entries| => entries[i].1)
  }

  // What the options of a key scan describe: the selected entries in query order, up to the limit.
  function Oracle<R>(query: Options, items: seq<(Key, R)>): seq<(Key, R)> {
    var native := NativeKeyQuery(query);
    var limit := Get(query, "limit");
    Described(KeySelector(native), DirectionOf(native.options),
              if limit.Atom? && limit.atom.NumberAtom? && limit.atom.number.Finite? && limit.atom.number.value >= 0.0
              then Some(limit.atom.number.value.Floor) else None,
              items)
  }

  lemma CoreScanIsOracle<R>(source: Options, items: seq<(Key, R)>)
    requires CheckKeys(source).Success? && Sorted(KeyLess, items)
    ensures var query := CheckKeys(source).value;
      && LowerKeyQuery(NativeKeyQuery(query)).Success?
      && CoreScan(KeyLess, LowerKeyQuery(NativeKeyQuery(query)).value, items) == Oracle(query, items)
  {
    var query := CheckKeys(source).value;
    AcceptedKeysLower(source);
    KeyLoweringIsCorrect(NativeKeyQuery(query));
    KeyScanIsDescribed(NativeKeyQuery(query), items);
    var core := LowerKeyQuery(NativeKeyQuery(query)).value;
    if core.limit.Some? {
      assert (core.limit.value as real).Floor == core.limit.value;
    }
  }

  // An `entries` scan hands its consumer the entries the options describe, in order, each converted and decoded,
  // for every split into chunks and every timing of the calls. A finished scan hands over all of them when the
  // core reached the end. When its last pull failed or did not convert, it hands over the chunks before.
  lemma EntriesAreOracle<B, R, V>(source: Options, items: seq<(Key, B)>, convert: Convert<B, R>,
                                  decode: Decoder<R, V>, pulls: seq<Pulled<(Key, B)>>,
                                  inputs: seq<Input<(Key, R), (Key, V)>>)
    requires CheckKeys(source).Success? && Sorted(KeyLess, items)
    requires RunsScan(EntryOf(decode), EntryConvert(convert), CoreScan(KeyLess, LoweredQuery(source), items), pulls,
                      inputs)
    ensures var delivered, expected := DeliveredBy(EntryOf(decode), inputs), Oracle(CheckKeys(source).value, items);
      && Keys(delivered) <= Keys(expected)
      && (forall i :: 0 <= i < |delivered| ==>
            convert(expected[i].1).Success? && decode(convert(expected[i].1).value) == Success(delivered[i].1))
      && (Finished(EntryOf(decode), inputs) ==>
          pulls != [] && |delivered| == if ReachedEnd(pulls) then |expected| else |ReadyItems(pulls[..|pulls| - 1])|)
  {
    CoreScanIsOracle(source, items);
    var delivered, expected := DeliveredBy(EntryOf(decode), inputs), Oracle(CheckKeys(source).value, items);
    ScanDeliversPrefix(EntryOf(decode), EntryConvert(convert), expected, pulls, inputs);
    if Finished(EntryOf(decode), inputs) {
      FinishedScanDeliversChunks(EntryOf(decode), EntryConvert(convert), expected, pulls, inputs);
    }
    forall i | 0 <= i < |delivered|
      ensures expected[i].0 == delivered[i].0 && convert(expected[i].1).Success?
      ensures decode(convert(expected[i].1).value) == Success(delivered[i].1)
    {
      assert EntryOf(decode)(EntryConvert(convert)(expected[i]).value) == Success(delivered[i]);
    }
  }

  // A consumer that only asks for items and sees `done` before any rejection received every described entry.
  lemma DoneEntriesAreOracle<B, R, V>(source: Options, items: seq<(Key, B)>, convert: Convert<B, R>,
                                      decode: Decoder<R, V>, pulls: seq<Pulled<(Key, B)>>,
                                      inputs: seq<Input<(Key, R), (Key, V)>>, k: nat)
    requires CheckKeys(source).Success? && Sorted(KeyLess, items)
    requires RunsScan(EntryOf(decode), EntryConvert(convert), CoreScan(KeyLess, LoweredQuery(source), items), pulls,
                      inputs)
    requires SeesDone(EntryOf(decode), inputs, k)
    ensures Keys(DeliveredBy(EntryOf(decode), inputs)) == Keys(Oracle(CheckKeys(source).value, items))
  {
    CoreScanIsOracle(source, items);
    EntriesAreOracle(source, items, convert, decode, pulls, inputs);
    DoneMeansWhole(EntryOf(decode), EntryConvert(convert), Oracle(CheckKeys(source).value, items), pulls, inputs, k);
  }

  // The conversion and the decoding of an entry fail exactly when those of its payload do, with the same error.
  lemma EntryErrorsAreItsOwn<B, R, V>(key: Key, payload: B, raw: R, convert: Convert<B, R>, decode: Decoder<R, V>)
    ensures convert(payload).Failure? ==> EntryConvert(convert)((key, payload)) == Failure(convert(payload).error)
    ensures convert(payload).Success? ==>
      EntryConvert(convert)((key, payload)) == Success((key, convert(payload).value))
    ensures decode(raw).Failure? ==> EntryOf(decode)((key, raw)) == Failure(decode(raw).error)
    ensures decode(raw).Success? ==> EntryOf(decode)((key, raw)) == Success((key, decode(raw).value))
    ensures ValueOf(decode)((key, raw)) == decode(raw)
  {
  }

  // A consumer that only asks for entries is rejected with the error of the first one that does not decode, after
  // every entry before it.
  lemma FailedDecodeIsRejected<R, V>(decode: Decoder<R, V>, inputs: seq<Input<(Key, R), (Key, V)>>)
    requires Run(EntryOf(decode), inputs).Some?
    requires forall request :: request in Requests(inputs) ==> request.Next?
    ensures var outcomes := Outcomes(Run(EntryOf(decode), inputs).value.log);
      var n, items := |DeliveredBy(EntryOf(decode), inputs)|, StreamOf(inputs).items;
      n < |outcomes| && n < |items| ==>
        decode(items[n].1).Failure? && outcomes[n] == Rejected(ToStateError(decode(items[n].1).error))
  {
    var outcomes := Outcomes(Run(EntryOf(decode), inputs).value.log);
    var n, items := |DeliveredBy(EntryOf(decode), inputs)|, StreamOf(inputs).items;
    if n < |outcomes| && n < |items| {
      NextOnlyAnswers(EntryOf(decode), inputs, n);
    }
  }

  function LoweredQuery(source: Options): CoreQuery<Key>
    requires CheckKeys(source).Success?
  {
    AcceptedKeysLower(source);
    LowerKeyQuery(NativeKeyQuery(CheckKeys(source).value)).value
  }

  // The `keys` and `values` scans of the same options deliver the two projections of the `entries` scan, limit
  // included, whatever the chunks and the timing. They agree as far as they go, and finished scans that reached
  // the end are equal.
  lemma KeysAndValuesAreProjections<B, R, V>(
    source: Options, items: seq<(Key, B)>, convert: Convert<B, R>, decode: Decoder<R, V>,
    entryPulls: seq<Pulled<(Key, B)>>, entries: seq<Input<(Key, R), (Key, V)>>,
    keyPulls: seq<Pulled<Key>>, keys: seq<Input<Key, Key>>,
    valuePulls: seq<Pulled<(Key, B)>>, values: seq<Input<(Key, R), V>>)
    requires CheckKeys(source).Success? && Sorted(KeyLess, items)
    requires var scan := CoreScan(KeyLess, LoweredQuery(source), items);
      && RunsScan(EntryOf(decode), EntryConvert(convert), scan, entryPulls, entries)
      && RunsScan(KeyOf(), KeyConvert(), Keys(scan), keyPulls, keys)
      && RunsScan(ValueOf(decode), EntryConvert(convert), scan, valuePulls, values)
    ensures var delivered := DeliveredBy(EntryOf(decode), entries);
      && AgreeSoFar(Keys(delivered), DeliveredBy(KeyOf(), keys))
      && AgreeSoFar(Values(delivered), DeliveredBy(ValueOf(decode), values))
    ensures Finished(EntryOf(decode), entries) && ReachedEnd(entryPulls) ==>
      var delivered := DeliveredBy(EntryOf(decode), entries);
      && (Finished(KeyOf(), keys) && ReachedEnd(keyPulls) ==> Keys(delivered) == DeliveredBy(KeyOf(), keys))
      && (Finished(ValueOf(decode), values) && ReachedEnd(valuePulls) ==>
          Values(delivered) == DeliveredBy(ValueOf(decode), values))
  {
    var scan := CoreScan(KeyLess, LoweredQuery(source), items);
    EntriesDeliver(scan, convert, decode, entryPulls, entries);
    DeliveredToTheEnd(EntryOf(decode), EntryConvert(convert), scan, entryPulls, entries);
    KeysDeliver(scan, keyPulls, keys);
    DeliveredToTheEnd(KeyOf(), KeyConvert(), Keys(scan), keyPulls, keys);
    ValuesAgree(scan, convert, decode, DeliveredBy(EntryOf(decode), entries), valuePulls, values);
    DeliveredToTheEnd(ValueOf(decode), EntryConvert(convert), scan, valuePulls, values);
  }

  lemma KeysDeliver<B>(scan: seq<(Key, B)>, pulls: seq<Pulled<Key>>, inputs: seq<Input<Key, Key>>)
    requires RunsScan(KeyOf(), KeyConvert(), Keys(scan), pulls, inputs)
    ensures DeliveredBy(KeyOf(), inputs) <= Keys(scan)
  {
    ScanDeliversPrefix(KeyOf(), KeyConvert(), Keys(scan), pulls, inputs);
  }

  lemma ValuesAgree<B, R, V>(scan: seq<(Key, B)>, convert: Convert<B, R>, decode: Decoder<R, V>,
                             delivered: seq<(Key, V)>, pulls: seq<Pulled<(Key, B)>>, inputs: seq<Input<(Key, R), V>>)
    requires RunsScan(ValueOf(decode), EntryConvert(convert), scan, pulls, inputs) && |delivered| <= |scan|
    requires forall i :: 0 <= i < |delivered| ==> EntryConvert(convert)(scan[i]).Success?
    requires forall i :: 0 <= i < |delivered| ==>
      ValueOf(decode)(EntryConvert(convert)(scan[i]).value) == Success(delivered[i].1)
    ensures |DeliveredBy(ValueOf(decode), inputs)| <= |scan|
    ensures AgreeSoFar(Values(delivered), DeliveredBy(ValueOf(decode), inputs))
  {
    ScanDeliversPrefix(ValueOf(decode), EntryConvert(convert), scan, pulls, inputs);
  }

  lemma EntriesDeliver<B, R, V>(scan: seq<(Key, B)>, convert: Convert<B, R>, decode: Decoder<R, V>,
                                pulls: seq<Pulled<(Key, B)>>, inputs: seq<Input<(Key, R), (Key, V)>>)
    requires RunsScan(EntryOf(decode), EntryConvert(convert), scan, pulls, inputs)
    ensures var delivered := DeliveredBy(EntryOf(decode), inputs);
      && |delivered| <= |scan|
      && (forall i :: 0 <= i < |delivered| ==> scan[i].0 == delivered[i].0)
      && (forall i :: 0 <= i < |delivered| ==> EntryConvert(convert)(scan[i]).Success?)
      && (forall i :: 0 <= i < |delivered| ==>
            ValueOf(decode)(EntryConvert(convert)(scan[i]).value) == Success(delivered[i].1))
  {
    ScanDeliversPrefix(EntryOf(decode), EntryConvert(convert), scan, pulls, inputs);
    var delivered := DeliveredBy(EntryOf(decode), inputs);
    forall i | 0 <= i < |delivered|
      ensures scan[i].0 == delivered[i].0 && EntryConvert(convert)(scan[i]).Success?
      ensures ValueOf(decode)(EntryConvert(convert)(scan[i]).value) == Success(delivered[i].1)
    {
      assert EntryOf(decode)(EntryConvert(convert)(scan[i]).value) == Success(delivered[i]);
    }
  }

  lemma DeliveredToTheEnd<R, T, V>(transform: Transform<T, V>, convert: Convert<R, T>, scan: seq<R>,
                                   pulls: seq<Pulled<R>>, inputs: seq<Input<T, V>>)
    requires RunsScan(transform, convert, scan, pulls, inputs)
    ensures Finished(transform, inputs) && ReachedEnd(pulls) ==> |DeliveredBy(transform, inputs)| == |scan|
  {
    if Finished(transform, inputs) {
      FinishedScanDeliversChunks(transform, convert, scan, pulls, inputs);
    }
  }

  // Two scans agree on the items that both delivered.
  ghost predicate AgreeSoFar<T>(a: seq<T>, b: seq<T>) {
    a <= b || b <= a
  }

  function LoweredPositions(source: Options): CoreQuery<nat>
    requires CheckPositions(source).Success?
  {
    AcceptedPositionsLower(source);
    LowerPositionQuery(NativePositionQuery(CheckPositions(source).value)).value
  }

  // What the options of a deque scan describe: the values at the selected positions in query order, up to
  // the limit.
  function DequeOracle<R>(source: Options, stored: seq<R>): seq<(nat, R)>
    requires CheckPositions(source).Success?
  {
    AcceptedPositionsLower(source);
    var query := NativePositionQuery(CheckPositions(source).value);
    PositionLoweringIsCorrect(query);
    Described<nat, R>(Selector<nat>(PositionLess, ConvertPositions(query).value), DirectionOf(query),
                      ConvertLimit(query.limit).value, Positioned(stored))
  }

  lemma DequeOracleReadsDeque<R>(source: Options, stored: seq<R>, i: nat)
    requires CheckPositions(source).Success? && i < |DequeOracle(source, stored)|
    ensures DequeOracle(source, stored)[i].0 < |stored|
    ensures stored[DequeOracle(source, stored)[i].0] == DequeOracle(source, stored)[i].1
  {
    AcceptedPositionsLower(source);
    var query := NativePositionQuery(CheckPositions(source).value);
    PositionLoweringIsCorrect(query);
    DescribedMember<nat, R>(Selector<nat>(PositionLess, ConvertPositions(query).value), DirectionOf(query),
                            ConvertLimit(query.limit).value, Positioned(stored), i);
  }

  // A deque scan from end to end: it delivers the described values in order, each read at its position, converted,
  // and decoded. A finished scan delivers all of them when the core reached the end, and otherwise the chunks
  // before the pull that failed.
  lemma DequeValuesAreOracle<B, R, V>(source: Options, stored: seq<B>, convert: Convert<B, R>, decode: Decoder<R, V>,
                                      pulls: seq<Pulled<B>>, inputs: seq<Input<R, V>>)
    requires CheckPositions(source).Success?
    requires var scan := CoreScan<nat, B>(PositionLess, LoweredPositions(source), Positioned(stored));
      RunsScan(decode, convert, Values(scan), pulls, inputs)
    ensures var selected, delivered := DequeOracle(source, stored), DeliveredBy(decode, inputs);
      && |delivered| <= |selected|
      && (forall i :: 0 <= i < |delivered| ==>
            && selected[i].0 < |stored|
            && convert(stored[selected[i].0]).Success?
            && decode(convert(stored[selected[i].0]).value) == Success(delivered[i]))
      && (Finished(decode, inputs) ==>
          pulls != [] && |delivered| == if ReachedEnd(pulls) then |selected| else |ReadyItems(pulls[..|pulls| - 1])|)
  {
    AcceptedPositionsLower(source);
    PositionScanIsDescribed(NativePositionQuery(CheckPositions(source).value), stored);
    var selected, delivered := DequeOracle(source, stored), DeliveredBy(decode, inputs);
    ScanDeliversPrefix(decode, convert, Values(selected), pulls, inputs);
    if Finished(decode, inputs) {
      FinishedScanDeliversChunks(decode, convert, Values(selected), pulls, inputs);
    }
    forall i | 0 <= i < |delivered|
      ensures selected[i].0 < |stored| && convert(stored[selected[i].0]).Success?
      ensures decode(convert(stored[selected[i].0]).value) == Success(delivered[i])
    {
      DequeOracleReadsDeque(source, stored, i);
      assert Values(selected)[i] == selected[i].1;
    }
  }

  // The same for a deque.
  lemma DoneValuesAreOracle<B, R, V>(source: Options, stored: seq<B>, convert: Convert<B, R>, decode: Decoder<R, V>,
                                     pulls: seq<Pulled<B>>, inputs: seq<Input<R, V>>, k: nat)
    requires CheckPositions(source).Success?
    requires var scan := CoreScan<nat, B>(PositionLess, LoweredPositions(source), Positioned(stored));
      RunsScan(decode, convert, Values(scan), pulls, inputs)
    requires SeesDone(decode, inputs, k)
    ensures |DeliveredBy(decode, inputs)| == |DequeOracle(source, stored)|
  {
    AcceptedPositionsLower(source);
    PositionScanIsDescribed(NativePositionQuery(CheckPositions(source).value), stored);
    DoneMeansWhole(decode, convert, Values(DequeOracle(source, stored)), pulls, inputs, k);
  }
}
