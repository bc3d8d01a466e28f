// src/state/query.rs: the checked options of a scan become a core query, an interval that each option
// narrows.
module Lowering {
  import opened Prelude
  import opened Numbers
  import opened Order

  datatype Direction = Forward | Backward

  datatype Bound<+K> = Unbounded | Included(key: K) | Excluded(key: K)

  // The options that key and position queries share, as they cross the native boundary. `B` is the type
  // of a bound.
  datatype Query<+B> = Query(
    direction: Option<Direction>,
    from: Option<B>,
    after: Option<B>,
    to: Option<B>,
    before: Option<B>,
    range: Option<(Option<B>, Option<B>)>,
    limit: Option<Number>)

  datatype KeyQuery = KeyQuery(prefix: Option<Key>, options: Query<Key>)

  type PositionQuery = Query<Number>

  predicate AboveLow<K>(less: (K, K) -> bool, low: Bound<K>, key: K) {
    match low
    case Unbounded => true
    case Included(bound) => !less(key, bound)
    case Excluded(bound) => less(bound, key)
  }

  predicate BelowHigh<K>(less: (K, K) -> bool, high: Bound<K>, key: K) {
    match high
    case Unbounded => true
    case Included(bound) => !less(bound, key)
    case Excluded(bound) => less(key, bound)
  }

  function Flipped<K>(less: (K, K) -> bool): (K, K) -> bool {
    (a, b) => less(b, a)
  }

  // The tighter of two bounds, when `ahead(a, b)` says that `a` is the looser key.
  function Tighter<K>(ahead: (K, K) -> bool, a: Bound<K>, b: Bound<K>): Bound<K> {
    if a.Unbounded? then b
    else if b.Unbounded? then a
    else if ahead(a.key, b.key) then b
    else if ahead(b.key, a.key) then a
    else if a.Excluded? then a
    else b
  }

  // The core builder: an interval that every call narrows, a direction, and a limit.
  datatype CoreQuery<K> = CoreQuery(direction: Direction, low: Bound<K>, high: Bound<K>, limit: Option<nat>) {

    predicate Contains(less: (K, K) -> bool, key: K) {
      AboveLow(less, low, key) && BelowHigh(less, high, key)
    }

    function Raise(less: (K, K) -> bool, bound: Bound<K>): CoreQuery<K> {
      this.(low := Tighter(less, low, bound))
    }

    function Lower(less: (K, K) -> bool, bound: Bound<K>): CoreQuery<K> {
      this.(high := Tighter(Flipped(less), high, bound))
    }

    // `from` and `after` open the scan, so a backward scan reads them as high bounds.
    function Start(less: (K, K) -> bool, bound: Bound<K>): CoreQuery<K> {
      if direction.Forward? then Raise(less, bound) else Lower(less, bound)
    }

    // `to` and `before` end the scan, so a backward scan reads them as low bounds.
    function End(less: (K, K) -> bool, bound: Bound<K>): CoreQuery<K> {
      if direction.Forward? then Lower(less, bound) else Raise(less, bound)
    }

    function Range(less: (K, K) -> bool, bounds: (Bound<K>, Bound<K>)): CoreQuery<K> {
      Raise(less, bounds.0).Lower(less, bounds.1)
    }
  }

  function WithPrefix(query: CoreQuery<Key>, prefix: Key): CoreQuery<Key> {
    if prefix == [] then query
    else query.Range(KeyLess, (Included(prefix), Excluded(PrefixEnd(prefix))))
  }

  function HalfOpen<K>(range: (Option<K>, Option<K>)): (Bound<K>, Bound<K>) {
    (match range.0 case None => Unbounded case Some(start) => Included(start),
     match range.1 case None => Unbounded case Some(end) => Excluded(end))
  }

  function DirectionOf<B>(options: Query<B>): Direction {
    match options.direction case None => Forward case Some(direction) => direction
  }

  function Unlimited<K>(direction: Direction): CoreQuery<K> {
    CoreQuery(direction, Unbounded, Unbounded, None)
  }

  // The interval that the edges and the range narrow a query to.
  function Narrowed<K>(less: (K, K) -> bool, query: CoreQuery<K>, options: Query<K>): CoreQuery<K> {
    var q := match options.from case None => query case Some(key) => query.Start(less, Included(key));
    var q := match options.after case None => q case Some(key) => q.Start(less, Excluded(key));
    var q := match options.to case None => q case Some(key) => q.End(less, Included(key));
    var q := match options.before case None => q case Some(key) => q.End(less, Excluded(key));
    match options.range case None => q case Some(range) => q.Range(less, HalfOpen(range))
  }

  function ConvertLimit(limit: Option<Number>): Result<Option<nat>, ConversionError> {
    if limit.None? then Success(None)
    else
      var count :- Whole(limit.value, NON_ZERO_USIZE);
      Success(Some(count))
  }

  function ConvertPosition(position: Option<Number>): Result<Option<nat>, ConversionError> {
    if position.None? then Success(None)
    else
      var converted :- Whole(position.value, USIZE);
      Success(Some(converted))
  }

  // Every position of the options, converted.
  function ConvertPositions(options: PositionQuery): Result<Query<nat>, ConversionError> {
    var from :- ConvertPosition(options.from);
    var after :- ConvertPosition(options.after);
    var to :- ConvertPosition(options.to);
    var before :- ConvertPosition(options.before);
    if options.range.None? then
      Success(Query(options.direction, from, after, to, before, None, options.limit))
    else
      var start :- ConvertPosition(options.range.value.0);
      var end :- ConvertPosition(options.range.value.1);
      Success(Query(options.direction, from, after, to, before, Some((start, end)), options.limit))
  }

  function LowerKeyQuery(query: KeyQuery): Result<CoreQuery<Key>, ConversionError> {
    var limit :- ConvertLimit(query.options.limit);
    var start := Unlimited(DirectionOf(query.options));
    var prefixed := match query.prefix case None => start case Some(prefix) => WithPrefix(start, prefix);
    Success(Narrowed(KeyLess, prefixed, query.options).(limit := limit))
  }

  function LowerPositionQuery(query: PositionQuery): Result<CoreQuery<nat>, ConversionError> {
    var positions :- ConvertPositions(query);
    var limit :- ConvertLimit(query.limit);
    Success(Narrowed(PositionLess, Unlimited(DirectionOf(query)), positions).(limit := limit))
  }

  // NativeKeyQuery::into_query, which reassigns its builder option by option.
  method IntoKeyQuery(options: KeyQuery) returns (r: Result<CoreQuery<Key>, ConversionError>)
    ensures r == LowerKeyQuery(options)
  {
    var query := Unlimited(DirectionOf(options.options));
    if options.prefix.Some? {
      query := WithPrefix(query, options.prefix.value);
    }
    if options.options.from.Some? {
      query := query.Start(KeyLess, Included(options.options.from.value));
    }
    if options.options.after.Some? {
      query := query.Start(KeyLess, Excluded(options.options.after.value));
    }
    if options.options.to.Some? {
      query := query.End(KeyLess, Included(options.options.to.value));
    }
    if options.options.before.Some? {
      query := query.End(KeyLess, Excluded(options.options.before.value));
    }
    if options.options.range.Some? {
      query := query.Range(KeyLess, HalfOpen(options.options.range.value));
    }
    if options.options.limit.Some? {
      var limit :- Whole(options.options.limit.value, NON_ZERO_USIZE);
      query := query.(limit := Some(limit));
    }
    return Success(query);
  }

  // NativePositionQuery::into_query.
  method IntoPositionQuery(options: PositionQuery) returns (r: Result<CoreQuery<nat>, ConversionError>)
    ensures r == LowerPositionQuery(options)
  {
    var query := Unlimited(DirectionOf(options));
    if options.from.Some? {
      var position :- Whole(options.from.value, USIZE);
      query := query.Start(PositionLess, Included(position));
    }
    if options.after.Some? {
      var position :- Whole(options.after.value, USIZE);
      query := query.Start(PositionLess, Excluded(position));
    }
    if options.to.Some? {
      var position :- Whole(options.to.value, USIZE);
      query := query.End(PositionLess, Included(position));
    }
    if options.before.Some? {
      var position :- Whole(options.before.value, USIZE);
      query := query.End(PositionLess, Excluded(position));
    }
    if options.range.Some? {
      var start :- ConvertPosition(options.range.value.0);
      var end :- ConvertPosition(options.range.value.1);
      query := query.Range(PositionLess, HalfOpen((start, end)));
    }
    if options.limit.Some? {
      var limit :- Whole(options.limit.value, NON_ZERO_USIZE);
      query := query.(limit := Some(limit));
    }
    return Success(query);
  }

  // `a` comes strictly before `b` in query order.
  predicate Ahead<K>(less: (K, K) -> bool, direction: Direction, a: K, b: K) {
    if direction.Forward? then less(a, b) else less(b, a)
  }

  // What the options promise about a key: the edges in query order, and the ascending range.
  predicate Selects<K>(less: (K, K) -> bool, options: Query<K>, key: K) {
    var d := DirectionOf(options);
    && (options.from.Some? ==> !Ahead(less, d, key, options.from.value))
    && (options.after.Some? ==> Ahead(less, d, options.after.value, key))
    && (options.to.Some? ==> !Ahead(less, d, options.to.value, key))
    && (options.before.Some? ==> Ahead(less, d, key, options.before.value))
    && (options.range.Some? && options.range.value.0.Some? ==> !less(key, options.range.value.0.value))
    && (options.range.Some? && options.range.value.1.Some? ==> less(key, options.range.value.1.value))
  }

  predicate SelectsKey(query: KeyQuery, key: Key) {
    && Selects(KeyLess, query.options, key)
    && (query.prefix.Some? ==> StartsWith(key, query.prefix.value))
  }

  lemma EdgeNarrows<K(!new)>(less: (K, K) -> bool, query: CoreQuery<K>, bound: Bound<K>, key: K)
    requires StrictTotal(less)
    ensures query.Start(less, bound).Contains(less, key) == (query.Contains(less, key) &&
      if query.direction.Forward? then AboveLow(less, bound, key) else BelowHigh(less, bound, key))
    ensures query.End(less, bound).Contains(less, key) == (query.Contains(less, key) &&
      if query.direction.Forward? then BelowHigh(less, bound, key) else AboveLow(less, bound, key))
  {
  }

  lemma RangeNarrows<K(!new)>(less: (K, K) -> bool, query: CoreQuery<K>, bounds: (Bound<K>, Bound<K>), key: K)
    requires StrictTotal(less)
    ensures query.Range(less, bounds).Contains(less, key)
       <==> query.Contains(less, key) && AboveLow(less, bounds.0, key) && BelowHigh(less, bounds.1, key)
  {
  }

  // Successive narrowings give the conjunction of the separate conditions, for inverted and disjoint
  // bounds too.
  lemma NarrowingIsConjunction<K(!new)>(less: (K, K) -> bool, query: CoreQuery<K>, options: Query<K>, key: K)
    requires StrictTotal(less) && query.direction == DirectionOf(options)
    ensures Narrowed(less, query, options).Contains(less, key)
       <==> query.Contains(less, key) && Selects(less, options, key)
    ensures Narrowed(less, query, options).direction == query.direction
    ensures Narrowed(less, query, options).limit == query.limit
  {
    var q0 := query;
    var q1 := match options.from case None => q0 case Some(k) => q0.Start(less, Included(k));
    var q2 := match options.after case None => q1 case Some(k) => q1.Start(less, Excluded(k));
    var q3 := match options.to case None => q2 case Some(k) => q2.End(less, Included(k));
    var q4 := match options.before case None => q3 case Some(k) => q3.End(less, Excluded(k));
    if options.from.Some? {
      EdgeNarrows(less, q0, Included(options.from.value), key);
    }
    if options.after.Some? {
      EdgeNarrows(less, q1, Excluded(options.after.value), key);
    }
    if options.to.Some? {
      EdgeNarrows(less, q2, Included(options.to.value), key);
    }
    if options.before.Some? {
      EdgeNarrows(less, q3, Excluded(options.before.value), key);
    }
    if options.range.Some? {
      RangeNarrows(less, q4, HalfOpen(options.range.value), key);
    }
  }

  // An absent number, or an integer of the native size that is at least `min`.
  ghost predicate Fits(number: Option<Number>, min: nat) {
    number.Some? ==>
      && number.value.Finite? && number.value.value == number.value.value.Floor as real
      && min <= number.value.value.Floor < 0x1_0000_0000_0000_0000
  }

  ghost predicate PositionsFit(options: PositionQuery) {
    && Fits(options.from, 0) && Fits(options.after, 0) && Fits(options.to, 0) && Fits(options.before, 0)
    && (options.range.Some? ==> Fits(options.range.value.0, 0) && Fits(options.range.value.1, 0))
  }

  // Positions convert exactly when each one fits.
  lemma PositionsConvert(options: PositionQuery)
    ensures ConvertPositions(options).Success? <==> PositionsFit(options)
  {
    PositionFits(options.from);
    PositionFits(options.after);
    PositionFits(options.to);
    PositionFits(options.before);
    if options.range.Some? {
      PositionFits(options.range.value.0);
      PositionFits(options.range.value.1);
    }
  }

  lemma PositionFits(position: Option<Number>)
    ensures ConvertPosition(position).Success? <==> Fits(position, 0)
  {
  }

  // A key query lowers exactly when its limit converts, and the core query then contains exactly the
  // keys that its options select. It runs forward unless the query says backward.
  lemma KeyLoweringIsCorrect(query: KeyQuery)
    ensures LowerKeyQuery(query).Success? <==> Fits(query.options.limit, 1)
    ensures LowerKeyQuery(query).Success? ==>
      var core := LowerKeyQuery(query).value;
      && core.direction == (if query.options.direction == Some(Backward) then Backward else Forward)
      && core.limit == (if query.options.limit.None? then None else Some(query.options.limit.value.value.Floor))
      && forall key :: core.Contains(KeyLess, key) <==> SelectsKey(query, key)
  {
    KeyOrderIsStrictTotal();
    if LowerKeyQuery(query).Success? {
      var start := Unlimited(DirectionOf(query.options));
      var prefixed := match query.prefix case None => start case Some(prefix) => WithPrefix(start, prefix);
      forall key
        ensures LowerKeyQuery(query).value.Contains(KeyLess, key) <==> SelectsKey(query, key)
      {
        if query.prefix.Some? && query.prefix.value != [] {
          PrefixIsBlock(key, query.prefix.value);
        }
        NarrowingIsConjunction(KeyLess, prefixed, query.options, key);
      }
    }
  }

  lemma PositionLoweringIsCorrect(query: PositionQuery)
    ensures LowerPositionQuery(query).Success? <==> PositionsFit(query) && Fits(query.limit, 1)
    ensures LowerPositionQuery(query).Success? ==>
      var core := LowerPositionQuery(query).value;
      && ConvertPositions(query).Success?
      && core.direction == (if query.direction == Some(Backward) then Backward else Forward)
      && core.limit == (if query.limit.None? then None else Some(query.limit.value.value.Floor))
      && forall position :: core.Contains(PositionLess, position)
                       <==> Selects(PositionLess, ConvertPositions(query).value, position)
  {
    PositionsConvert(query);
    if LowerPositionQuery(query).Success? {
      forall position: nat
        ensures LowerPositionQuery(query).value.Contains(PositionLess, position)
           <==> Selects(PositionLess, ConvertPositions(query).value, position)
      {
        NarrowingIsConjunction(PositionLess, Unlimited(DirectionOf(query)), ConvertPositions(query).value,
                               position);
      }
    }
  }
}
