// Scans over an ordered collection: what the core reads for a lowered query, and the simple description
// of it that the options promise.
module Scans {
  import opened Prelude
  import opened Numbers
  import opened Order
  import opened Lowering

  // An ordered collection: entries in strictly ascending key order.
  ghost predicate Sorted<K, V>(less: (K, K) -> bool, items: seq<(K, V)>) {
    forall i, j :: 0 <= i < j < |items| ==> less(items[i].0, items[j].0)
  }

  function Directed<T>(direction: Direction, s: seq<T>): (r: seq<T>)
    ensures |r| == |s|
  {
    if direction.Forward? then s else Reverse(s)
  }

  function Limited<T>(limit: Option<nat>, s: seq<T>): seq<T> {
    if limit.None? || |s| <= limit.value then s else s[..limit.value]
  }

  // The number of leading entries below an interval.
  function CountBelow<K, V>(less: (K, K) -> bool, low: Bound<K>, items: seq<(K, V)>): (n: nat)
    ensures n <= |items|
  {
    if items == [] || AboveLow(less, low, items[0].0) then 0 else 1 + CountBelow(less, low, items[1..])
  }

  // The number of leading entries that do not pass the high end of an interval.
  function CountUpTo<K, V>(less: (K, K) -> bool, high: Bound<K>, items: seq<(K, V)>): (n: nat)
    ensures n <= |items|
  {
    if items == [] || !BelowHigh(less, high, items[0].0) then 0 else 1 + CountUpTo(less, high, items[1..])
  }

  // The core reads the one slice of the collection that lies inside the interval.
  function Slice<K, V>(less: (K, K) -> bool, query: CoreQuery<K>, items: seq<(K, V)>): seq<(K, V)> {
    var start, end := CountBelow(less, query.low, items), CountUpTo(less, query.high, items);
    if start <= end then items[start..end] else []
  }

  function CoreScan<K, V>(less: (K, K) -> bool, query: CoreQuery<K>, items: seq<(K, V)>): seq<(K, V)> {
    Limited(query.limit, Directed(query.direction, Slice(less, query, items)))
  }

  // The entries whose key is selected, in order.
  function Kept<K, V>(selects: K -> bool, items: seq<(K, V)>): seq<(K, V)> {
    if items == [] then []
    else (if selects(items[0].0) then [items[0]] else []) + Kept(selects, items[1..])
  }

  // The description: keep the entries whose key is selected, reverse them for a backward scan, and take
  // as many as the limit allows.
  function Described<K, V>(selects: K -> bool, direction: Direction, limit: Option<nat>, items: seq<(K, V)>)
    : seq<(K, V)>
  {
    Limited(limit, Directed(direction, Kept(selects, items)))
  }

  function KeySelector(query: KeyQuery): Key -> bool {
    key => SelectsKey(query, key)
  }

  function Selector<K>(less: (K, K) -> bool, options: Query<K>): K -> bool {
    key => Selects(less, options, key)
  }

  function Inside<K>(less: (K, K) -> bool, query: CoreQuery<K>): K -> bool {
    key => query.Contains(less, key)
  }

  // Two tests that agree on every key of a collection keep the same entries.
  lemma {:induction false} KeptAgrees<K, V>(p: K -> bool, q: K -> bool, items: seq<(K, V)>)
    requires forall item :: item in items ==> p(item.0) == q(item.0)
    ensures Kept(p, items) == Kept(q, items)
  {
    if items != [] {
      KeptAgrees(p, q, items[1..]);
    }
  }

  lemma {:induction false} KeptMember<K, V>(p: K -> bool, items: seq<(K, V)>, i: nat)
    requires i < |Kept(p, items)|
    ensures Kept(p, items)[i] in items && p(Kept(p, items)[i].0)
  {
    if p(items[0].0) {
      if i > 0 {
        KeptMember(p, items[1..], i - 1);
      }
    } else {
      KeptMember(p, items[1..], i);
    }
  }

  lemma DescribedMember<K, V>(selects: K -> bool, direction: Direction, limit: Option<nat>, items: seq<(K, V)>, i: nat)
    requires i < |Described(selects, direction, limit, items)|
    ensures Described(selects, direction, limit, items)[i] in items
  {
    var kept := Kept(selects, items);
    if direction.Backward? {
      ReverseIndex(kept, i);
    }
    KeptMember(selects, items, if direction.Backward? then |kept| - 1 - i else i);
  }

  lemma {:induction false} KeptConcat<K, V>(p: K -> bool, a: seq<(K, V)>, b: seq<(K, V)>)
    ensures Kept(p, a + b) == Kept(p, a) + Kept(p, b)
  {
    if a == [] {
      assert a + b == b;
    } else {
      assert (a + b)[1..] == a[1..] + b;
      KeptConcat(p, a[1..], b);
      var head := if p(a[0].0) then [a[0]] else [];
      assert head + (Kept(p, a[1..]) + Kept(p, b)) == (head + Kept(p, a[1..])) + Kept(p, b);
    }
  }

  lemma {:induction false} NothingInside<K(!new), V>(less: (K, K) -> bool, query: CoreQuery<K>, items: seq<(K, V)>)
    requires StrictTotal(less) && Sorted(less, items)
    requires items != [] ==> !BelowHigh(less, query.high, items[0].0)
    ensures Kept(Inside(less, query), items) == []
  {
    if items != [] {
      if |items| > 1 {
        assert less(items[0].0, items[1].0);
      }
      NothingInside(less, query, items[1..]);
    }
  }

  lemma SliceOfTail<T>(s: seq<T>, from: nat, to: nat)
    requires s != [] && from <= to < |s|
    ensures s[1 + from..1 + to] == s[1..][from..to]
    ensures s[..1 + to] == [s[0]] + s[1..][..to]
  {
  }

  // An entry below the interval is not in the slice.
  lemma SliceSkips<K(!new), V>(less: (K, K) -> bool, query: CoreQuery<K>, items: seq<(K, V)>)
    requires items != [] && BelowHigh(less, query.high, items[0].0) && !AboveLow(less, query.low, items[0].0)
    ensures Slice(less, query, items) == Slice(less, query, items[1..])
  {
    var start, end := CountBelow(less, query.low, items[1..]), CountUpTo(less, query.high, items[1..]);
    if start <= end {
      SliceOfTail(items, start, end);
    }
  }

  // An entry inside the interval starts the slice.
  lemma SliceStarts<K(!new), V>(less: (K, K) -> bool, query: CoreQuery<K>, items: seq<(K, V)>)
    requires items != [] && BelowHigh(less, query.high, items[0].0) && AboveLow(less, query.low, items[0].0)
    requires CountBelow(less, query.low, items[1..]) == 0
    ensures Slice(less, query, items) == [items[0]] + Slice(less, query, items[1..])
  {
    SliceOfTail(items, 0, CountUpTo(less, query.high, items[1..]));
  }

  // After an entry above the low end every entry is.
  lemma RestIsAbove<K(!new), V>(less: (K, K) -> bool, query: CoreQuery<K>, items: seq<(K, V)>)
    requires StrictTotal(less) && Sorted(less, items) && items != [] && AboveLow(less, query.low, items[0].0)
    ensures CountBelow(less, query.low, items[1..]) == 0
  {
    if |items| > 1 {
      assert less(items[0].0, items[1].0);
    }
  }

  // In a sorted collection the entries inside an interval are one slice.
  lemma {:induction false} SliceIsKept<K(!new), V>(less: (K, K) -> bool, query: CoreQuery<K>, items: seq<(K, V)>)
    requires StrictTotal(less) && Sorted(less, items)
    ensures Slice(less, query, items) == Kept(Inside(less, query), items)
  {
    if items == [] {
    } else if !BelowHigh(less, query.high, items[0].0) {
      NothingInside(less, query, items);
    } else {
      SliceIsKept(less, query, items[1..]);
      if AboveLow(less, query.low, items[0].0) {
        RestIsAbove(less, query, items);
        SliceStarts(less, query, items);
      } else {
        SliceSkips(less, query, items);
      }
    }
  }

  lemma ScanIsDescribed<K(!new), V>(less: (K, K) -> bool, query: CoreQuery<K>, selects: K -> bool, items: seq<(K, V)>)
    requires StrictTotal(less) && Sorted(less, items)
    requires forall key :: query.Contains(less, key) <==> selects(key)
    ensures CoreScan(less, query, items) == Described(selects, query.direction, query.limit, items)
  {
    SliceIsKept(less, query, items);
    KeptAgrees(Inside(less, query), selects, items);
  }

  // A key scan, from its options to the entries it reads, is the description.
  lemma KeyScanIsDescribed<V>(query: KeyQuery, items: seq<(Key, V)>)
    requires Sorted(KeyLess, items) && LowerKeyQuery(query).Success?
    ensures CoreScan(KeyLess, LowerKeyQuery(query).value, items)
         == Described(KeySelector(query), DirectionOf(query.options),
                      ConvertLimit(query.options.limit).value, items)
  {
    KeyOrderIsStrictTotal();
    KeyLoweringIsCorrect(query);
    ScanIsDescribed(KeyLess, LowerKeyQuery(query).value, KeySelector(query), items);
  }

  // A deque as an ordered collection: each value at its position from the front.
  function Positioned<V>(values: seq<V>): seq<(nat, V)> {
    seq(|values|, i requires 0 <= i < |values| => (i, values[i]))
  }

  lemma PositionScanIsDescribed<V>(query: PositionQuery, values: seq<V>)
    requires LowerPositionQuery(query).Success?
    ensures CoreScan(PositionLess, LowerPositionQuery(query).value, Positioned(values))
         == Described(Selector(PositionLess, ConvertPositions(query).value),
                      DirectionOf(query), ConvertLimit(query.limit).value, Positioned(values))
  {
    PositionLoweringIsCorrect(query);
    ScanIsDescribed(PositionLess, LowerPositionQuery(query).value,
                    Selector(PositionLess, ConvertPositions(query).value), Positioned(values));
  }

  // ----- Mirror law -----

  function Opposite(direction: Direction): Direction {
    if direction.Forward? then Backward else Forward
  }

  // The other direction with the edges swapped: `from` with `to`, and `after` with `before`.
  function Mirror<B>(options: Query<B>): Query<B> {
    Query(Some(Opposite(DirectionOf(options))), options.to, options.before, options.from, options.after,
          options.range, options.limit)
  }

  // Mirroring keeps the selected keys.
  lemma MirrorSelects(query: KeyQuery, key: Key)
    ensures SelectsKey(query.(options := Mirror(query.options)), key) == SelectsKey(query, key)
  {
  }

  lemma MirrorKeeps<V>(query: KeyQuery, items: seq<(Key, V)>)
    ensures Kept(KeySelector(query.(options := Mirror(query.options))), items) == Kept(KeySelector(query), items)
  {
    var mirrored := query.(options := Mirror(query.options));
    forall item | item in items
      ensures KeySelector(mirrored)(item.0) == KeySelector(query)(item.0)
    {
      MirrorSelects(query, item.0);
    }
    KeptAgrees(KeySelector(mirrored), KeySelector(query), items);
  }

  // Without a limit, a scan is the exact reverse of the mirrored scan.
  lemma MirrorLaw<V>(query: KeyQuery, items: seq<(Key, V)>)
    requires Sorted(KeyLess, items) && query.options.limit.None?
    ensures var mirrored := query.(options := Mirror(query.options));
      && LowerKeyQuery(query).Success? && LowerKeyQuery(mirrored).Success?
      && CoreScan(KeyLess, LowerKeyQuery(mirrored).value, items)
         == Reverse(CoreScan(KeyLess, LowerKeyQuery(query).value, items))
  {
    var mirrored := query.(options := Mirror(query.options));
    KeyScanIsDescribed(query, items);
    KeyScanIsDescribed(mirrored, items);
    MirrorKeeps(query, items);
    ReverseTwice(Kept(KeySelector(query), items));
  }

  // Mirroring commutes with the conversion of positions.
  lemma MirrorConverts(query: PositionQuery)
    requires query.limit.None? && LowerPositionQuery(query).Success?
    ensures LowerPositionQuery(Mirror(query)).Success?
    ensures ConvertPositions(query).Success?
    ensures ConvertPositions(Mirror(query)) == Success(Mirror(ConvertPositions(query).value))
  {
  }

  lemma PositionMirrorLaw<V>(query: PositionQuery, values: seq<V>)
    requires query.limit.None? && LowerPositionQuery(query).Success?
    ensures LowerPositionQuery(Mirror(query)).Success?
      && CoreScan(PositionLess, LowerPositionQuery(Mirror(query)).value, Positioned(values))
         == Reverse(CoreScan(PositionLess, LowerPositionQuery(query).value, Positioned(values)))
  {
    MirrorConverts(query);
    PositionScanIsDescribed(query, values);
    PositionScanIsDescribed(Mirror(query), values);
    var p := ConvertPositions(query).value;
    var q := Mirror(p);
    KeptAgrees(Selector(PositionLess, p), Selector(PositionLess, q), Positioned(values));
    ReverseTwice(Kept(Selector(PositionLess, p), Positioned(values)));
  }
}
