// What a scan reads, said once more from the caller's options alone: which entries, in which order, and how many.
module ScanMeaning {
  import opened Prelude
  import opened Numbers
  import opened Order
  import opened Lowering
  import opened Scans
  import opened QueryCheck
  import opened Pipeline

  // `scan` lists wanted entries in its order, and no wanted entry is left out unless the limit is reached and the
  // entry comes after every listed one.
  ghost predicate ReadsExactly<K, V>(before: (K, K) -> bool, wanted: K -> bool, limit: Option<nat>,
                                     items: seq<(K, V)>, scan: seq<(K, V)>)
  {
    && (forall i :: 0 <= i < |scan| ==> scan[i] in items && wanted(scan[i].0))
    && (forall i, j :: 0 <= i < j < |scan| ==> before(scan[i].0, scan[j].0))
    && (limit.Some? ==> |scan| <= limit.value)
    && (forall item :: item in items && wanted(item.0) && item !in scan ==>
          limit.Some? && |scan| == limit.value && ComesLast(before, scan, item.0))
  }

  ghost predicate ComesLast<K, V>(before: (K, K) -> bool, scan: seq<(K, V)>, key: K) {
    forall i :: 0 <= i < |scan| ==> before(scan[i].0, key)
  }

  // ----- The description reads exactly -----

  lemma {:induction false} KeptHasWanted<K, V>(wanted: K -> bool, items: seq<(K, V)>, item: (K, V))
    requires item in items && wanted(item.0)
    ensures item in Kept(wanted, items)
  {
    if item != items[0] {
      KeptHasWanted(wanted, items[1..], item);
    }
  }

  lemma {:induction false} KeptInOrder<K(!new), V>(less: (K, K) -> bool, wanted: K -> bool, items: seq<(K, V)>)
    requires Sorted(less, items)
    ensures Sorted(less, Kept(wanted, items))
  {
    if items != [] {
      KeptInOrder(less, wanted, items[1..]);
      var rest := Kept(wanted, items[1..]);
      forall j | 0 <= j < |rest|
        ensures less(items[0].0, rest[j].0)
      {
        KeptMember(wanted, items[1..], j);
      }
    }
  }

  lemma ReverseHas<T>(s: seq<T>, i: nat)
    requires i < |s|
    ensures s[i] in Reverse(s)
  {
    ReverseIndex(s, |s| - 1 - i);
  }

  // A scan without a limit, in either direction.
  lemma DirectedReadsExactly<K(!new), V>(less: (K, K) -> bool, before: (K, K) -> bool, wanted: K -> bool,
                                         direction: Direction, items: seq<(K, V)>)
    requires Sorted(less, items)
    requires forall a, b :: before(a, b) == if direction.Forward? then less(a, b) else less(b, a)
    ensures ReadsExactly(before, wanted, None, items, Directed(direction, Kept(wanted, items)))
  {
    var kept := Kept(wanted, items);
    var scan := Directed(direction, kept);
    KeptInOrder(less, wanted, items);
    forall i | 0 <= i < |scan|
      ensures scan[i] in items && wanted(scan[i].0)
    {
      ReverseIndex(kept, i);
      KeptMember(wanted, items, if direction.Forward? then i else |kept| - 1 - i);
    }
    forall i, j | 0 <= i < j < |scan|
      ensures before(scan[i].0, scan[j].0)
    {
      ReverseIndex(kept, i);
      ReverseIndex(kept, j);
    }
    forall item | item in items && wanted(item.0)
      ensures item in scan
    {
      KeptHasWanted(wanted, items, item);
      var i :| 0 <= i < |kept| && kept[i] == item;
      ReverseHas(kept, i);
    }
  }

  lemma LimitedReadsExactly<K(!new), V>(before: (K, K) -> bool, wanted: K -> bool, limit: Option<nat>,
                                        items: seq<(K, V)>, scan: seq<(K, V)>)
    requires ReadsExactly(before, wanted, None, items, scan)
    ensures ReadsExactly(before, wanted, limit, items, Limited(limit, scan))
  {
    var first := Limited(limit, scan);
    if first != scan {
      assert forall j :: 0 <= j < |first| ==> first[j] == scan[j];
      forall item | item in items && wanted(item.0) && item !in first
        ensures ComesLast(before, first, item.0)
      {
        var i :| 0 <= i < |scan| && scan[i] == item;
        assert forall j :: 0 <= j < |first| ==> scan[j] in first;
        assert i >= |first|;
      }
    }
  }

  // The description of a scan reads exactly the wanted entries, in either direction and up to any limit.
  lemma DescriptionReadsExactly<K(!new), V>(less: (K, K) -> bool, before: (K, K) -> bool, wanted: K -> bool,
                                            direction: Direction, limit: Option<nat>, items: seq<(K, V)>)
    requires Sorted(less, items)
    requires forall a, b :: before(a, b) == if direction.Forward? then less(a, b) else less(b, a)
    ensures ReadsExactly(before, wanted, limit, items, Described(wanted, direction, limit, items))
  {
    DirectedReadsExactly(less, before, wanted, direction, items);
    LimitedReadsExactly(before, wanted, limit, items, Directed(direction, Kept(wanted, items)));
  }

  // ----- Maps and sets -----

  // The key that a string option names, by its code points.
  ghost predicate Names(value: Plain, key: Key) {
    && value.Atom? && value.atom.TextAtom? && |value.atom.text| == |key|
    && forall i :: 0 <= i < |key| ==> key[i] == value.atom.text[i] as nat
  }

  // A scan reads `a` before `b`: in ascending order unless the direction is "backward".
  predicate KeyBefore(source: Options, a: Key, b: Key) {
    if Get(source, "direction") == Atom(TextAtom("backward")) then KeyLess(b, a) else KeyLess(a, b)
  }

  ghost predicate KeyWanted(source: Options, key: Key) {
    && (forall prefix :: Names(Get(source, "prefix"), prefix) ==> prefix <= key)
    && (forall edge :: Names(Get(source, "from"), edge) ==> !KeyBefore(source, key, edge))
    && (forall edge :: Names(Get(source, "after"), edge) ==> KeyBefore(source, edge, key))
    && (forall edge :: Names(Get(source, "to"), edge) ==> !KeyBefore(source, edge, key))
    && (forall edge :: Names(Get(source, "before"), edge) ==> KeyBefore(source, key, edge))
    && (Get(source, "range").List? && |Get(source, "range").items| == 2 ==>
        && (forall bound :: Names(Atom(Get(source, "range").items[0]), bound) ==> !KeyLess(key, bound))
        && (forall bound :: Names(Atom(Get(source, "range").items[1]), bound) ==> KeyLess(key, bound)))
  }

  // The limit option as a number of results.
  ghost predicate IsLimit(source: Options, limit: Option<nat>) {
    Get(source, "limit") == match limit case None => Atom(Missing) case Some(n) => Atom(NumberAtom(Finite(n as real)))
  }

  // A string names exactly its native key.
  lemma NamesNativeKey(value: Plain, key: Key)
    ensures Names(value, key) <==> NativeKey(value) == Some(key)
  {
    if value.Atom? && value.atom.TextAtom? {
      var text := value.atom.text;
      assert Names(value, CodePoints(text));
      if Names(value, key) {
        assert key == CodePoints(text);
      }
    }
  }

  // A condition on the named key is the condition on the native key, if there is one.
  lemma NativeMeets(value: Plain, meets: Key -> bool)
    ensures (forall key :: Names(value, key) ==> meets(key)) <==> Meets(NativeKey(value), meets)
  {
    forall key: Key {
      NamesNativeKey(value, key);
    }
  }

  // The conditions on the native keys of the options.
  predicate NativeWanted(source: Options, key: Key) {
    && Meets(NativeKey(Get(source, "prefix")), prefix => prefix <= key)
    && Meets(NativeKey(Get(source, "from")), edge => !KeyBefore(source, key, edge))
    && Meets(NativeKey(Get(source, "after")), edge => KeyBefore(source, edge, key))
    && Meets(NativeKey(Get(source, "to")), edge => !KeyBefore(source, edge, key))
    && Meets(NativeKey(Get(source, "before")), edge => KeyBefore(source, key, edge))
    && (Get(source, "range").List? && |Get(source, "range").items| == 2 ==>
        && Meets(NativeKey(Atom(Get(source, "range").items[0])), bound => !KeyLess(key, bound))
        && Meets(NativeKey(Atom(Get(source, "range").items[1])), bound => KeyLess(key, bound)))
  }

  predicate Meets<B>(bound: Option<B>, condition: B -> bool) {
    bound.Some? ==> condition(bound.value)
  }

  lemma WantedIsNative(source: Options, key: Key)
    ensures KeyWanted(source, key) <==> NativeWanted(source, key)
  {
    NativeMeets(Get(source, "prefix"), prefix => prefix <= key);
    NativeMeets(Get(source, "from"), edge => !KeyBefore(source, key, edge));
    NativeMeets(Get(source, "after"), edge => KeyBefore(source, edge, key));
    NativeMeets(Get(source, "to"), edge => !KeyBefore(source, edge, key));
    NativeMeets(Get(source, "before"), edge => KeyBefore(source, key, edge));
    if Get(source, "range").List? && |Get(source, "range").items| == 2 {
      NativeMeets(Atom(Get(source, "range").items[0]), bound => !KeyLess(key, bound));
      NativeMeets(Atom(Get(source, "range").items[1]), bound => KeyLess(key, bound));
    }
  }

  // The checked query has the options of its source, and its direction is the one the caller wrote.
  lemma CheckedOptions(source: Options)
    requires CheckKeys(source).Success?
    ensures var query := CheckKeys(source).value;
      && (forall field :: Get(query, field) == Get(source, field))
      && (Get(source, "range").List? ==> |Get(source, "range").items| == 2)
      && (DirectionOf(NativeKeyQuery(query).options).Backward?
          <==> Get(source, "direction") == Atom(TextAtom("backward")))
  {
    AcceptedKeysLower(source);
  }

  // The native query of an accepted key query selects the wanted keys.
  lemma NativeSelectsWanted(source: Options, key: Key)
    requires CheckKeys(source).Success?
    ensures SelectsKey(NativeKeyQuery(CheckKeys(source).value), key) <==> KeyWanted(source, key)
  {
    CheckedOptions(source);
    WantedIsNative(source, key);
    SelectsNative(source, CheckKeys(source).value, key);
  }

  lemma SelectsNative(source: Options, query: Options, key: Key)
    requires forall field :: Get(query, field) == Get(source, field)
    requires Get(source, "range").List? ==> |Get(source, "range").items| == 2
    requires DirectionOf(NativeKeyQuery(query).options).Backward?
        <==> Get(source, "direction") == Atom(TextAtom("backward"))
    ensures SelectsKey(NativeKeyQuery(query), key) <==> NativeWanted(source, key)
  {
  }

  // The core scan of an accepted key query is the description by the wanted keys.
  lemma KeyScanIsWanted<R>(source: Options, items: seq<(Key, R)>)
    requires CheckKeys(source).Success? && Sorted(KeyLess, items)
    ensures var core := LoweredQuery(source);
      && IsLimit(source, core.limit)
      && (core.direction.Backward? <==> Get(source, "direction") == Atom(TextAtom("backward")))
      && CoreScan(KeyLess, core, items) == Described(key => KeyWanted(source, key), core.direction, core.limit, items)
  {
    var native := NativeKeyQuery(CheckKeys(source).value);
    var wanted := key => KeyWanted(source, key);
    AcceptedKeysLower(source);
    CheckedOptions(source);
    KeyLoweringIsCorrect(native);
    KeyScanIsDescribed(native, items);
    forall item | item in items
      ensures KeySelector(native)(item.0) == wanted(item.0)
    {
      NativeSelectsWanted(source, item.0);
    }
    KeptAgrees(KeySelector(native), wanted, items);
  }

  // Every accepted key query reads exactly the wanted entries of a collection, in its direction, up to its limit.
  // It is what the core scan of the lowered query reads.
  lemma KeyScanReadsExactly<R>(source: Options, items: seq<(Key, R)>)
    returns (limit: Option<nat>)
    requires CheckKeys(source).Success? && Sorted(KeyLess, items)
    ensures IsLimit(source, limit)
    ensures ReadsExactly((a, b) => KeyBefore(source, a, b), key => KeyWanted(source, key), limit, items,
                         CoreScan(KeyLess, LoweredQuery(source), items))
    ensures CoreScan(KeyLess, LoweredQuery(source), items) == Oracle(CheckKeys(source).value, items)
  {
    CoreScanIsOracle(source, items);
    KeyScanIsWanted(source, items);
    var core := LoweredQuery(source);
    limit := core.limit;
    DescriptionReadsExactly(KeyLess, (a, b) => KeyBefore(source, a, b), key => KeyWanted(source, key), core.direction,
                            limit, items);
  }

  // ----- Deques -----

  ghost predicate IsPosition(value: Plain, position: nat) {
    value == Atom(NumberAtom(Finite(position as real)))
  }

  // A scan reads position `a` before `b`: from the front unless the direction is "backward".
  predicate PositionBefore(source: Options, a: nat, b: nat) {
    if Get(source, "direction") == Atom(TextAtom("backward")) then b < a else a < b
  }

  ghost predicate PositionWanted(source: Options, position: nat) {
    && (forall edge: nat :: IsPosition(Get(source, "from"), edge) ==> !PositionBefore(source, position, edge))
    && (forall edge: nat :: IsPosition(Get(source, "after"), edge) ==> PositionBefore(source, edge, position))
    && (forall edge: nat :: IsPosition(Get(source, "to"), edge) ==> !PositionBefore(source, edge, position))
    && (forall edge: nat :: IsPosition(Get(source, "before"), edge) ==> PositionBefore(source, position, edge))
    && (Get(source, "range").List? && |Get(source, "range").items| == 2 ==>
        && (forall bound: nat :: IsPosition(Atom(Get(source, "range").items[0]), bound) ==> bound <= position)
        && (forall bound: nat :: IsPosition(Atom(Get(source, "range").items[1]), bound) ==> position < bound))
  }

  // A condition on the position that an option writes is the condition on its native integer, if there is one.
  lemma PositionMeets(value: Plain, native: Option<nat>, meets: nat -> bool)
    requires PositionCrosses(value, native)
    ensures (forall position: nat :: IsPosition(value, position) ==> meets(position)) <==> Meets(native, meets)
  {
    if native.Some? {
      assert IsPosition(value, native.value);
    }
  }

  // The conditions on the native positions.
  predicate NativePositionWanted(source: Options, options: Query<nat>, position: nat) {
    && Meets(options.from, (edge: nat) => !PositionBefore(source, position, edge))
    && Meets(options.after, (edge: nat) => PositionBefore(source, edge, position))
    && Meets(options.to, (edge: nat) => !PositionBefore(source, edge, position))
    && Meets(options.before, (edge: nat) => PositionBefore(source, position, edge))
    && (options.range.Some? ==>
        && Meets(options.range.value.0, (bound: nat) => bound <= position)
        && Meets(options.range.value.1, (bound: nat) => position < bound))
  }

  // The native positions are those of the caller's options.
  ghost predicate PositionsCross(source: Options, options: Query<nat>) {
    && PositionCrosses(Get(source, "from"), options.from)
    && PositionCrosses(Get(source, "after"), options.after)
    && PositionCrosses(Get(source, "to"), options.to)
    && PositionCrosses(Get(source, "before"), options.before)
    && (options.range.Some? <==> Get(source, "range").List?)
    && (options.range.Some? ==>
        && |Get(source, "range").items| == 2
        && PositionCrosses(Atom(Get(source, "range").items[0]), options.range.value.0)
        && PositionCrosses(Atom(Get(source, "range").items[1]), options.range.value.1))
    && (DirectionOf(options).Backward? <==> Get(source, "direction") == Atom(TextAtom("backward")))
  }

  lemma CheckedPositions(source: Options)
    requires CheckPositions(source).Success?
    ensures var native := NativePositionQuery(CheckPositions(source).value);
      && ConvertPositions(native).Success? && PositionsCross(source, ConvertPositions(native).value)
      && IsLimit(source, LoweredPositions(source).limit)
      && LoweredPositions(source).direction == DirectionOf(ConvertPositions(native).value)
  {
    var query := CheckPositions(source).value;
    AcceptedPositionsLower(source);
    PositionLoweringIsCorrect(NativePositionQuery(query));
    assert forall field :: Get(query, field) == Get(source, field);
  }

  lemma WantedPositionIsNative(source: Options, options: Query<nat>, position: nat)
    requires PositionsCross(source, options)
    ensures PositionWanted(source, position) <==> NativePositionWanted(source, options, position)
  {
    PositionMeets(Get(source, "from"), options.from, (edge: nat) => !PositionBefore(source, position, edge));
    PositionMeets(Get(source, "after"), options.after, (edge: nat) => PositionBefore(source, edge, position));
    PositionMeets(Get(source, "to"), options.to, (edge: nat) => !PositionBefore(source, edge, position));
    PositionMeets(Get(source, "before"), options.before, (edge: nat) => PositionBefore(source, position, edge));
    if options.range.Some? {
      var items := Get(source, "range").items;
      PositionMeets(Atom(items[0]), options.range.value.0, (bound: nat) => bound <= position);
      PositionMeets(Atom(items[1]), options.range.value.1, (bound: nat) => position < bound);
    }
  }

  lemma SelectsNativePosition(source: Options, options: Query<nat>, position: nat)
    requires PositionsCross(source, options)
    ensures Selects(PositionLess, options, position) <==> NativePositionWanted(source, options, position)
  {
  }

  lemma KeptPositions<R>(source: Options, options: Query<nat>, stored: seq<R>)
    requires PositionsCross(source, options)
    ensures Kept<nat, R>(Selector<nat>(PositionLess, options), Positioned(stored))
         == Kept<nat, R>((p: nat) => PositionWanted(source, p), Positioned(stored))
  {
    var wanted := (p: nat) => PositionWanted(source, p);
    forall item | item in Positioned(stored)
      ensures Selector<nat>(PositionLess, options)(item.0) == wanted(item.0)
    {
      WantedPositionIsNative(source, options, item.0);
      SelectsNativePosition(source, options, item.0);
    }
    KeptAgrees<nat, R>(Selector<nat>(PositionLess, options), wanted, Positioned(stored));
  }

  // The core scan of an accepted position query is the description by the wanted positions.
  lemma DequeScanIsWanted<R>(source: Options, stored: seq<R>)
    requires CheckPositions(source).Success?
    ensures var core := LoweredPositions(source);
      && CoreScan<nat, R>(PositionLess, core, Positioned(stored)) == DequeOracle(source, stored)
      && DequeOracle(source, stored)
         == Described<nat, R>((p: nat) => PositionWanted(source, p), core.direction, core.limit, Positioned(stored))
  {
    var native := NativePositionQuery(CheckPositions(source).value);
    CheckedPositions(source);
    AcceptedPositionsLower(source);
    PositionScanIsDescribed(native, stored);
    KeptPositions(source, ConvertPositions(native).value, stored);
  }

  // Every accepted position query reads exactly the wanted positions of a deque, in its direction, up to its limit,
  // each with the value stored there.
  lemma DequeScanReadsExactly<R>(source: Options, stored: seq<R>)
    returns (limit: Option<nat>)
    requires CheckPositions(source).Success?
    ensures IsLimit(source, limit)
    ensures |Positioned(stored)| == |stored|
    ensures forall i :: 0 <= i < |stored| ==> Positioned(stored)[i] == (i, stored[i])
    ensures ReadsExactly<nat, R>((a: nat, b: nat) => PositionBefore(source, a, b),
                                 (p: nat) => PositionWanted(source, p), limit,
                                 Positioned(stored), DequeOracle(source, stored))
    ensures CoreScan<nat, R>(PositionLess, LoweredPositions(source), Positioned(stored)) == DequeOracle(source, stored)
  {
    CheckedPositions(source);
    DequeScanIsWanted(source, stored);
    var core := LoweredPositions(source);
    limit := core.limit;
    DescriptionReadsExactly<nat, R>(PositionLess, (a: nat, b: nat) => PositionBefore(source, a, b),
                                    (p: nat) => PositionWanted(source, p), core.direction, limit, Positioned(stored));
  }
}
