// Keyset paging (README.md): each page passes the last key of the page before it as `after`.
module Paging {
  import opened Prelude
  import opened Numbers
  import opened Order
  import opened Lowering
  import opened Scans
  import opened QueryCheck

  // The scan of one page. Without a size it is the whole scan.
  function Scan<V>(query: KeyQuery, size: Option<nat>, items: seq<(Key, V)>): seq<(Key, V)> {
    var limit := match size case None => None case Some(n) => Some(Finite(n as real));
    match LowerKeyQuery(query.(options := query.options.(limit := limit)))
    case Success(core) => CoreScan(KeyLess, core, items)
    case Failure(_) => []
  }

  function After(query: KeyQuery, last: Key): KeyQuery {
    query.(options := query.options.(from := None, after := Some(last)))
  }

  // Pages until a page is empty.
  ghost function Pages<V>(query: KeyQuery, size: nat, items: seq<(Key, V)>): seq<seq<(Key, V)>>
    requires Sorted(KeyLess, items) && 1 <= size <= MAX_SAFE_INTEGER
    decreases |Kept(KeySelector(query), items)|
  {
    var page := Scan(query, Some(size), items);
    if page == [] then []
    else
      NextPageContinues(query, size, items);
      [page] + Pages(After(query, page[|page| - 1].0), size, items)
  }

  // The selected entries in query order.
  function Ordered<V>(query: KeyQuery, items: seq<(Key, V)>): seq<(Key, V)> {
    Directed(DirectionOf(query.options), Kept(KeySelector(query), items))
  }

  function AheadIn(direction: Direction): (Key, Key) -> bool {
    (a, b) => Ahead(KeyLess, direction, a, b)
  }

  function Past(direction: Direction, last: Key): Key -> bool {
    key => Ahead(KeyLess, direction, last, key)
  }

  lemma ScanIsOrdered<V>(query: KeyQuery, size: Option<nat>, items: seq<(Key, V)>)
    requires Sorted(KeyLess, items) && (size.Some? ==> 1 <= size.value <= MAX_SAFE_INTEGER)
    ensures Scan(query, size, items) == Limited(size, Ordered(query, items))
  {
    var limit := match size case None => None case Some(n) => Some(Finite(n as real));
    var limited := query.(options := query.options.(limit := limit));
    if size.Some? {
      WholeIsExact(Finite(size.value as real), NON_ZERO_USIZE, size.value);
    }
    KeyLoweringIsCorrect(limited);
    KeyScanIsDescribed(limited, items);
    KeptAgrees(KeySelector(limited), KeySelector(query), items);
  }

  lemma {:induction false} KeptTwice<K, V>(p: K -> bool, q: K -> bool, both: K -> bool, items: seq<(K, V)>)
    requires forall item :: item in items ==> both(item.0) == (p(item.0) && q(item.0))
    ensures Kept(q, Kept(p, items)) == Kept(both, items)
  {
    if items != [] {
      KeptTwice(p, q, both, items[1..]);
      KeptConcat(q, if p(items[0].0) then [items[0]] else [], Kept(p, items[1..]));
    }
  }

  lemma {:induction false} KeptReverse<K, V>(p: K -> bool, items: seq<(K, V)>)
    ensures Kept(p, Reverse(items)) == Reverse(Kept(p, items))
  {
    if items != [] {
      KeptReverse(p, items[1..]);
      KeptConcat(p, Reverse(items[1..]), [items[0]]);
      ReverseConcat(if p(items[0].0) then [items[0]] else [], Kept(p, items[1..]));
      assert [items[0]][1..] == [];
    }
  }

  lemma {:induction false} KeptIsSorted<K(!new), V>(less: (K, K) -> bool, p: K -> bool, items: seq<(K, V)>)
    requires Sorted(less, items)
    ensures Sorted(less, Kept(p, items))
  {
    if items != [] {
      KeptIsSorted(less, p, items[1..]);
      var rest := Kept(p, items[1..]);
      forall j | 0 <= j < |rest|
        ensures less(items[0].0, rest[j].0)
      {
        KeptMember(p, items[1..], j);
      }
    }
  }

  lemma OrderedIsSorted<V>(query: KeyQuery, items: seq<(Key, V)>)
    requires Sorted(KeyLess, items)
    ensures Sorted(AheadIn(DirectionOf(query.options)), Ordered(query, items))
  {
    var kept := Kept(KeySelector(query), items);
    KeptIsSorted(KeyLess, KeySelector(query), items);
    if DirectionOf(query.options).Backward? {
      forall i: nat | i < |kept| {
        ReverseIndex(kept, i);
      }
    }
  }

  // A test that first holds at index `n`, and from then on, keeps the rest.
  lemma {:induction false} KeptFrom<K, V>(p: K -> bool, items: seq<(K, V)>, n: nat)
    requires n <= |items|
    requires forall i :: 0 <= i < |items| ==> p(items[i].0) == (i >= n)
    ensures Kept(p, items) == items[n..]
  {
    if items != [] {
      KeptFrom(p, items[1..], if n == 0 then 0 else n - 1);
    }
  }

  // In query order an entry is past entry `n - 1` exactly when it comes after it.
  lemma PastIsAfter<V>(direction: Direction, s: seq<(Key, V)>, n: nat, i: nat)
    requires 0 < n <= |s| && i < |s| && Sorted(AheadIn(direction), s)
    ensures Past(direction, s[n - 1].0)(s[i].0) == (i >= n)
  {
    KeyOrderIsStrictTotal();
    if i < n - 1 {
      assert AheadIn(direction)(s[i].0, s[n - 1].0);
    } else if i >= n {
      assert AheadIn(direction)(s[n - 1].0, s[i].0);
    }
  }

  // Moving the start past a selected key keeps exactly the selected keys past it.
  lemma AfterSelects(query: KeyQuery, last: Key, key: Key)
    requires SelectsKey(query, last)
    ensures SelectsKey(After(query, last), key)
       <==> SelectsKey(query, key) && Past(DirectionOf(query.options), last)(key)
  {
    KeyOrderIsStrictTotal();
  }

  // The entries after a page are the rest of the scan.
  lemma NextPageContinues<V>(query: KeyQuery, size: nat, items: seq<(Key, V)>)
    requires Sorted(KeyLess, items) && 1 <= size <= MAX_SAFE_INTEGER
    requires Scan(query, Some(size), items) != []
    ensures var page := Scan(query, Some(size), items);
      && |page| <= size
      && Ordered(query, items) == page + Ordered(After(query, page[|page| - 1].0), items)
      && |Kept(KeySelector(After(query, page[|page| - 1].0)), items)| < |Kept(KeySelector(query), items)|
  {
    ScanIsOrdered(query, Some(size), items);
    var page, ordered := Scan(query, Some(size), items), Ordered(query, items);
    LimitedIsPrefix(size, ordered);
    MovedStart(query, |page|, items);
    OrderedLength(query, items);
    OrderedLength(After(query, page[|page| - 1].0), items);
  }

  lemma LimitedIsPrefix<T>(size: nat, s: seq<T>)
    ensures var page := Limited(Some(size), s);
      |page| <= size && |page| <= |s| && page == s[..|page|] && s == page + s[|page|..]
  {
  }

  lemma OrderedLength<V>(query: KeyQuery, items: seq<(Key, V)>)
    ensures |Ordered(query, items)| == |Kept(KeySelector(query), items)|
  {
  }

  lemma OrderedIsSelected<V>(query: KeyQuery, n: nat, items: seq<(Key, V)>)
    requires n < |Ordered(query, items)|
    ensures SelectsKey(query, Ordered(query, items)[n].0)
  {
    var kept := Kept(KeySelector(query), items);
    ReverseIndex(kept, n);
    KeptMember(KeySelector(query), items, if DirectionOf(query.options).Forward? then n else |kept| - 1 - n);
  }

  lemma MovedStart<V>(query: KeyQuery, n: nat, items: seq<(Key, V)>)
    requires Sorted(KeyLess, items) && 0 < n <= |Ordered(query, items)|
    ensures Ordered(After(query, Ordered(query, items)[n - 1].0), items) == Ordered(query, items)[n..]
  {
    var ordered := Ordered(query, items);
    var past := Past(DirectionOf(query.options), ordered[n - 1].0);
    OrderedIsSelected(query, n - 1, items);
    AfterKeeps(query, ordered[n - 1].0, items);
    KeptReverse(past, Kept(KeySelector(query), items));
    PastKeepsRest(query, n, items);
  }

  // In query order the entries past entry `n - 1` are the entries from `n` on.
  lemma PastKeepsRest<V>(query: KeyQuery, n: nat, items: seq<(Key, V)>)
    requires Sorted(KeyLess, items) && 0 < n <= |Ordered(query, items)|
    ensures var ordered := Ordered(query, items);
      Kept(Past(DirectionOf(query.options), ordered[n - 1].0), ordered) == ordered[n..]
  {
    var d, ordered := DirectionOf(query.options), Ordered(query, items);
    OrderedIsSorted(query, items);
    forall i | 0 <= i < |ordered|
      ensures Past(d, ordered[n - 1].0)(ordered[i].0) == (i >= n)
    {
      PastIsAfter(d, ordered, n, i);
    }
    KeptFrom(Past(d, ordered[n - 1].0), ordered, n);
  }

  lemma AfterKeeps<V>(query: KeyQuery, last: Key, items: seq<(Key, V)>)
    requires SelectsKey(query, last)
    ensures Kept(KeySelector(After(query, last)), items)
         == Kept(Past(DirectionOf(query.options), last), Kept(KeySelector(query), items))
  {
    var past := Past(DirectionOf(query.options), last);
    forall item | item in items
      ensures KeySelector(After(query, last))(item.0) == (KeySelector(query)(item.0) && past(item.0))
    {
      AfterSelects(query, last, item.0);
    }
    KeptTwice(KeySelector(query), past, KeySelector(After(query, last)), items);
  }

  // A page that is not full is the last one.
  lemma ShortPageIsLast<V>(query: KeyQuery, size: nat, items: seq<(Key, V)>)
    requires Sorted(KeyLess, items) && 1 <= size <= MAX_SAFE_INTEGER
    requires 0 < |Scan(query, Some(size), items)| < size
    ensures var page := Scan(query, Some(size), items);
      Scan(After(query, page[|page| - 1].0), Some(size), items) == []
  {
    var page := Scan(query, Some(size), items);
    var next := After(query, page[|page| - 1].0);
    NextPageContinues(query, size, items);
    ScanIsOrdered(query, Some(size), items);
    ScanIsOrdered(next, Some(size), items);
    assert |Ordered(query, items)| == |page| + |Ordered(next, items)|;
  }

  lemma {:induction false} PagesAreFull<V>(query: KeyQuery, size: nat, items: seq<(Key, V)>)
    requires Sorted(KeyLess, items) && 1 <= size <= MAX_SAFE_INTEGER
    ensures forall i :: 0 <= i < |Pages(query, size, items)| - 1 ==> |Pages(query, size, items)[i]| == size
    decreases |Kept(KeySelector(query), items)|
  {
    var page := Scan(query, Some(size), items);
    if page != [] {
      NextPageContinues(query, size, items);
      var next := After(query, page[|page| - 1].0);
      PagesAreFull(next, size, items);
      var pages, rest := Pages(query, size, items), Pages(next, size, items);
      assert pages == [page] + rest;
      if |page| < size {
        ShortPageIsLast(query, size, items);
      }
    }
  }

  // Paging terminates, no page is longer than its size, and the pages together are the unpaged scan:
  // every entry once, in order, in either direction and with any prefix, range, and end.
  lemma {:induction false} PagingIsScan<V>(query: KeyQuery, size: nat, items: seq<(Key, V)>)
    requires Sorted(KeyLess, items) && 1 <= size <= MAX_SAFE_INTEGER
    ensures Flatten(Pages(query, size, items)) == Scan(query, None, items)
    ensures forall page :: page in Pages(query, size, items) ==> 1 <= |page| <= size
    ensures forall i :: 0 <= i < |Pages(query, size, items)| - 1 ==> |Pages(query, size, items)[i]| == size
    decreases |Kept(KeySelector(query), items)|
  {
    PagesAreFull(query, size, items);
    var page := Scan(query, Some(size), items);
    ScanIsOrdered(query, None, items);
    if page == [] {
      ScanIsOrdered(query, Some(size), items);
    } else {
      NextPageContinues(query, size, items);
      var next := After(query, page[|page| - 1].0);
      PagingIsScan(next, size, items);
      ScanIsOrdered(next, None, items);
      assert Pages(query, size, items) == [page] + Pages(next, size, items);
      assert ([page] + Pages(next, size, items))[1..] == Pages(next, size, items);
    }
  }

  // No two entries of a scan share a key.
  lemma ScanHasNoRepeats<V>(query: KeyQuery, items: seq<(Key, V)>)
    requires Sorted(KeyLess, items)
    ensures var scan := Scan(query, None, items);
      forall i, j :: 0 <= i < j < |scan| ==> scan[i].0 != scan[j].0
  {
    KeyOrderIsStrictTotal();
    ScanIsOrdered(query, None, items);
    OrderedIsSorted(query, items);
    var scan := Scan(query, None, items);
    forall i, j | 0 <= i < j < |scan|
      ensures scan[i].0 != scan[j].0
    {
      assert AheadIn(DirectionOf(query.options))(scan[i].0, scan[j].0);
    }
  }

  // The options of the next page, as the caller writes them: the last key of the page replaces the start edge.
  function NextOptions(source: Options, last: string): Options {
    (source - {"from"})["after" := Plain.Atom(TextAtom(last))]
  }

  // Every page after an accepted one is accepted too, and its native query is the one that paging follows.
  lemma NextPageIsAccepted(source: Options, last: string)
    requires CheckKeys(source).Success?
    ensures CheckKeys(NextOptions(source, last)).Success?
    ensures NativeKeyQuery(CheckKeys(NextOptions(source, last)).value)
         == After(NativeKeyQuery(CheckKeys(source).value), CodePoints(last))
  {
    var next := NextOptions(source, last);
    KeyCheckDecides(source);
    assert forall field :: field != "from" && field != "after" ==> Get(next, field) == Get(source, field);
    assert !IsSet(next, "from") && Get(next, "after") == Plain.Atom(TextAtom(last));
    assert Bounds(next, IsText) <==> Bounds(source, IsText);
    KeyCheckDecides(next);
    NativeFields(source);
    NativeFields(next);
  }

  // A checked query crosses the boundary with the values of its source.
  lemma NativeFields(source: Options)
    requires CheckKeys(source).Success?
    ensures NativeKeyQuery(CheckKeys(source).value) == NativeKeyQuery(source)
  {
    assert forall field :: Get(CheckKeys(source).value, field) == Get(source, field);
  }
}
