// lib/state/query.js: the options of a scan are checked and copied into a fresh object.
module QueryCheck {
  import opened Prelude
  import opened Numbers
  import opened Order
  import opened Lowering

  // A JavaScript value. `Other` is any value that is not an object and has no constructor here.
  datatype Value =
    | Undefined
    | Null
    | Text(text: string)
    | Num(number: Number)
    | Array(array_: JsArray)
    | Object(object_: JsObject)
    | Other

  class JsArray {
    var elements: seq<Value>

    constructor (elements: seq<Value>)
      ensures this.elements == elements
    {
      this.elements := elements;
    }
  }

  class JsObject {
    var fields: map<string, Value>

    constructor ()
      ensures fields == map[]
    {
      fields := map[];
    }
  }

  datatype ErrorKind = TypeError | RangeError

  // ----- Snapshots: the same values without references -----

  datatype Atom = Missing | NullAtom | TextAtom(text: string) | NumberAtom(number: Number) | OtherAtom

  datatype Plain = Atom(atom: Atom) | List(items: seq<Atom>)

  type Options = map<string, Plain>

  function AtomOf(v: Value): Atom {
    match v
    case Undefined => Missing
    case Null => NullAtom
    case Text(text) => TextAtom(text)
    case Num(number) => NumberAtom(number)
    case _ => OtherAtom
  }

  function Atoms(values: seq<Value>): seq<Atom> {
    seq(|values|, i requires 0 <= i < |values| => AtomOf(values[i]))
  }

  // The array that a `range` field holds, if it holds one.
  function RangeArrays(fields: map<string, Value>): set<JsArray> {
    if "range" in fields && fields["range"].Array? then {fields["range"].array_} else {}
  }

  ghost function Snapshot(fields: map<string, Value>): Options
    reads RangeArrays(fields)
  {
    map field | field in fields ::
      if field == "range" && fields[field].Array? then List(Atoms(fields[field].array_.elements))
      else Atom(AtomOf(fields[field]))
  }

  // ----- The check on snapshots -----

  const KEY_FIELDS := {"direction", "limit", "prefix", "from", "after", "to", "before", "range"}
  const POSITION_FIELDS := KEY_FIELDS - {"prefix"}
  const EDGES := ["from", "after", "to", "before"]
  const PAIRS := [("from", "after"), ("to", "before")]

  function Get(options: Options, field: string): Plain {
    if field in options then options[field] else Atom(Missing)
  }

  predicate IsSet(options: Options, field: string) {
    Get(options, field) != Atom(Missing)
  }

  // The fields that are not `undefined`.
  function SetFields(options: Options): Options {
    map field | field in options && options[field] != Atom(Missing) :: options[field]
  }

  function CheckPairs(query: Options): Option<ErrorKind> {
    if exists i :: 0 <= i < |PAIRS| && IsSet(query, PAIRS[i].0) && IsSet(query, PAIRS[i].1) then Some(TypeError)
    else None
  }

  function CheckRange(query: Options): Option<ErrorKind> {
    match Get(query, "range")
    case List(items) => if |items| != 2 || Missing in items then Some(TypeError) else None
    case Atom(atom) => if atom.Missing? then None else Some(TypeError)
  }

  function CheckDirection(query: Options): Option<ErrorKind> {
    var direction := Get(query, "direction");
    if direction == Atom(Missing) || direction == Atom(TextAtom("forward")) || direction == Atom(TextAtom("backward"))
    then None
    else Some(TypeError)
  }

  function CheckCount(count: Plain, min: int): Option<ErrorKind> {
    if count == Atom(Missing) then None
    else if !count.Atom? || !count.atom.NumberAtom? then Some(TypeError)
    else if !IsSafeInteger(count.atom.number) || count.atom.number.value < min as real then Some(RangeError)
    else None
  }

  function CheckKey(key: Plain): Option<ErrorKind> {
    if key == Atom(Missing) || (key.Atom? && key.atom.TextAtom?) then None else Some(TypeError)
  }

  function First(a: Option<ErrorKind>, b: Option<ErrorKind>): Option<ErrorKind> {
    if a.Some? then a else b
  }

  function CheckShared(source: Options, accepted: set<string>): Option<ErrorKind> {
    if !(source.Keys <= accepted) then Some(TypeError) else CheckCopied(SetFields(source))
  }

  function CheckCopied(query: Options): Option<ErrorKind> {
    First(CheckPairs(query),
    First(CheckRange(query),
    First(CheckDirection(query), CheckCount(Get(query, "limit"), 1))))
  }

  // The first failure of a check over some values, in order.
  function CheckAll(values: seq<Plain>, check: Plain -> Option<ErrorKind>): Option<ErrorKind> {
    if values == [] then None else First(check(values[0]), CheckAll(values[1..], check))
  }

  // The closed bounds of the range of a checked query.
  function RangeBounds(query: Options): seq<Plain> {
    match Get(query, "range")
    case Atom(_) => []
    case List(items) => NonNull(items)
  }

  function NonNull(items: seq<Atom>): seq<Plain> {
    if items == [] then []
    else (if items[0].NullAtom? then [] else [Atom(items[0])]) + NonNull(items[1..])
  }

  function Fields(query: Options, names: seq<string>): seq<Plain> {
    seq(|names|, i requires 0 <= i < |names| => Get(query, names[i]))
  }

  function CheckKeys(source: Options): Result<Options, ErrorKind> {
    var query := SetFields(source);
    match First(CheckShared(source, KEY_FIELDS),
          First(CheckAll(Fields(query, ["prefix"] + EDGES), CheckKey), CheckAll(RangeBounds(query), CheckKey)))
    case Some(error) => Failure(error)
    case None => Success(query)
  }

  function CheckPosition(position: Plain): Option<ErrorKind> {
    CheckCount(position, 0)
  }

  function CheckPositions(source: Options): Result<Options, ErrorKind> {
    var query := SetFields(source);
    match First(CheckShared(source, POSITION_FIELDS),
          First(CheckAll(Fields(query, EDGES), CheckPosition), CheckAll(RangeBounds(query), CheckPosition)))
    case Some(error) => Failure(error)
    case None => Success(query)
  }

  // The entries that an argument stands for, or None when it has the wrong type. A string stands for a
  // direction. The entries of an array are its indexes.
  function Entries(options: Value): Option<map<string, Value>>
    reads if options.Object? then {options.object_} else {},
          if options.Array? then {options.array_} else {}
  {
    match options
    case Undefined => Some(map[])
    case Text(_) => Some(map["direction" := options])
    case Object(o) => Some(o.fields)
    case Array(a) => Some(if a.elements == [] then map[] else map["0" := a.elements[0]])
    case _ => None
  }

  // ----- The check on the heap -----

  // The entries that are not `undefined`.
  function SetEntries(entries: map<string, Value>): map<string, Value> {
    map field | field in entries && !entries[field].Undefined? :: entries[field]
  }

  lemma SetEntriesSnapshot(entries: map<string, Value>)
    ensures Snapshot(SetEntries(entries)) == SetFields(Snapshot(entries))
  {
  }

  // Copies the set entries into a fresh object. The entries come in any order.
  method CopyEntries(entries: map<string, Value>, accepted: set<string>) returns (r: Option<JsObject>)
    ensures r.Some? <==> entries.Keys <= accepted
    ensures r.Some? ==> fresh(r.value) && r.value.fields == SetEntries(entries)
  {
    var query := new JsObject();
    var todo := entries.Keys;
    while todo != {}
      invariant todo <= entries.Keys
      invariant entries.Keys - todo <= accepted
      invariant query.fields == map f | f in entries && f !in todo && !entries[f].Undefined? :: entries[f]
      decreases todo
    {
      var field :| field in todo;
      if field !in accepted {
        return None;
      }
      if !entries[field].Undefined? {
        query.fields := query.fields[field := entries[field]];
      }
      todo := todo - {field};
    }
    return Some(query);
  }

  method ExclusivePairs(query: JsObject) returns (ok: bool)
    requires forall field :: field in query.fields ==> !query.fields[field].Undefined?
    ensures ok <==> CheckPairs(Snapshot(query.fields)).None?
  {
    for i := 0 to |PAIRS|
      invariant forall k :: 0 <= k < i ==>
        !IsSet(Snapshot(query.fields), PAIRS[k].0) || !IsSet(Snapshot(query.fields), PAIRS[k].1)
    {
      if PAIRS[i].0 in query.fields && PAIRS[i].1 in query.fields {
        return false;
      }
    }
    return true;
  }

  // Replaces the range array of a query by its own copy.
  method OwnRange(query: JsObject) returns (ok: bool)
    requires forall field :: field in query.fields ==> !query.fields[field].Undefined?
    modifies query
    ensures ok <==> CheckRange(old(Snapshot(query.fields))).None?
    ensures ok ==> Snapshot(query.fields) == old(Snapshot(query.fields)) && fresh(RangeArrays(query.fields))
  {
    if "range" in query.fields {
      var range := query.fields["range"];
      if !range.Array? {
        return false;
      }
      var elements := range.array_.elements;
      assert Missing in Atoms(elements) <==> Undefined in elements by {
        assert forall i :: 0 <= i < |elements| ==> (Atoms(elements)[i].Missing? <==> elements[i].Undefined?);
      }
      if |elements| != 2 || Undefined in elements {
        return false;
      }
      var copy := new JsArray(elements);
      query.fields := query.fields["range" := Array(copy)];
    }
    return true;
  }

  // Reads a field other than the range.
  method ReadField(query: JsObject, field: string) returns (atom: Atom)
    requires field != "range"
    ensures Get(Snapshot(query.fields), field) == Atom(atom)
  {
    atom := if field in query.fields then AtomOf(query.fields[field]) else Missing;
  }

  // The checks of the direction and the limit.
  method CheckScalars(query: JsObject) returns (failure: Option<ErrorKind>)
    ensures failure == First(CheckDirection(Snapshot(query.fields)),
                             CheckCount(Get(Snapshot(query.fields), "limit"), 1))
  {
    var direction := ReadField(query, "direction");
    var limit := ReadField(query, "limit");
    if direction != TextAtom("forward") && direction != TextAtom("backward") && direction != Missing {
      return Some(TypeError);
    }
    return CheckCount(Atom(limit), 1);
  }

  // The checks of queryOptions on the copy, which gets its own range array.
  method CheckCopy(query: JsObject) returns (failure: Option<ErrorKind>)
    requires forall field :: field in query.fields ==> !query.fields[field].Undefined?
    modifies query
    ensures failure == CheckCopied(old(Snapshot(query.fields)))
    ensures failure.None? ==> Snapshot(query.fields) == old(Snapshot(query.fields))
    ensures failure.None? ==> fresh(RangeArrays(query.fields))
  {
    var exclusive := ExclusivePairs(query);
    if !exclusive {
      return Some(TypeError);
    }
    ghost var source := Snapshot(query.fields);
    var wellFormed := OwnRange(query);
    if !wellFormed {
      return Some(TypeError);
    }
    failure := CheckScalars(query);
    assert Snapshot(query.fields) == source;
  }

  // The snapshot of an argument.
  ghost function Source(options: Value): Option<Options>
    reads if options.Object? then {options.object_} else {},
          if options.Array? then {options.array_} else {},
          if Entries(options).Some? then RangeArrays(Entries(options).value) else {}
  {
    if Entries(options).None? then None else Some(Snapshot(Entries(options).value))
  }

  // A fresh object with a fresh range array that holds exactly the set fields of `source`.
  twostate predicate IsOwnCopy(new query: JsObject, source: Options)
    reads query, RangeArrays(query.fields)
  {
    && fresh(query)
    && fresh(RangeArrays(query.fields))
    && Snapshot(query.fields) == SetFields(source)
  }

  // queryOptions: the copy is a fresh object with its own range array. It holds exactly the set fields of
  // the argument, so a later change to the argument or to its array cannot reach it.
  method QueryOptions(options: Value, accepted: set<string>) returns (r: Result<JsObject, ErrorKind>)
    requires "0" !in accepted
    ensures old(Source(options)).None? ==> r == Failure(TypeError)
    ensures old(Source(options)).Some? ==>
      match CheckShared(old(Source(options)).value, accepted)
      case Some(error) => r == Failure(error)
      case None => r.Success? && IsOwnCopy(r.value, old(Source(options)).value)
  {
    var entries := Entries(options);
    if entries.None? {
      return Failure(TypeError);
    }
    ghost var source := Snapshot(entries.value);
    ghost var checked := SetFields(source);
    assert old(Source(options)) == Some(source);
    assert source.Keys == entries.value.Keys;
    SetEntriesSnapshot(entries.value);
    var copied := CopyEntries(entries.value, accepted);
    if copied.None? {
      return Failure(TypeError);
    }
    var query := copied.value;
    assert Snapshot(query.fields) == checked;
    var failure := CheckCopy(query);
    if failure.Some? {
      return Failure(failure.value);
    }
    return Success(query);
  }

  // Checks the named fields of a copy, in order.
  method CheckFields(query: JsObject, names: seq<string>, check: Plain -> Option<ErrorKind>)
    returns (failure: Option<ErrorKind>)
    requires "range" !in names
    ensures failure == CheckAll(Fields(Snapshot(query.fields), names), check)
  {
    ghost var values := Fields(Snapshot(query.fields), names);
    for i := 0 to |names|
      invariant values == Fields(Snapshot(query.fields), names)
      invariant CheckAll(values[i..], check) == CheckAll(values, check)
    {
      var field := ReadField(query, names[i]);
      failure := check(Atom(field));
      assert values[i..][0] == Atom(field) && values[i..][1..] == values[i + 1..];
      assert CheckAll(values[i..], check) == First(failure, CheckAll(values[i + 1..], check));
      if failure.Some? {
        assert values == Fields(Snapshot(query.fields), names);
        return;
      }
    }
    return None;
  }

  // Checks the closed bounds of the range of a copy.
  method CheckBounds(query: JsObject, check: Plain -> Option<ErrorKind>) returns (failure: Option<ErrorKind>)
    ensures failure == CheckAll(RangeBounds(Snapshot(query.fields)), check)
  {
    if "range" !in query.fields || !query.fields["range"].Array? {
      return None;
    }
    var bounds := query.fields["range"].array_.elements;
    ghost var items := Atoms(bounds);
    assert RangeBounds(Snapshot(query.fields)) == NonNull(items);
    for i := 0 to |bounds|
      invariant CheckAll(NonNull(items[i..]), check) == CheckAll(NonNull(items), check)
    {
      assert items[i..][0] == AtomOf(bounds[i]) && items[i..][1..] == items[i + 1..];
      if bounds[i].Null? {
        assert NonNull(items[i..]) == NonNull(items[i + 1..]);
      } else {
        failure := check(Atom(AtomOf(bounds[i])));
        assert NonNull(items[i..])[1..] == NonNull(items[i + 1..]);
        if failure.Some? {
          return;
        }
      }
    }
    return None;
  }

  // Checks the named fields of a copy, then the closed bounds of its range.
  method CheckEach(query: JsObject, names: seq<string>, check: Plain -> Option<ErrorKind>)
    returns (failure: Option<ErrorKind>)
    requires "range" !in names
    ensures failure == First(CheckAll(Fields(Snapshot(query.fields), names), check),
                             CheckAll(RangeBounds(Snapshot(query.fields)), check))
  {
    ghost var source := Snapshot(query.fields);
    failure := CheckFields(query, names, check);
    assert Snapshot(query.fields) == source;
    if failure.None? {
      failure := CheckBounds(query, check);
      assert Snapshot(query.fields) == source;
    }
  }

  method KeyOptions(options: Value) returns (r: Result<JsObject, ErrorKind>)
    ensures old(Source(options)).None? ==> r == Failure(TypeError)
    ensures old(Source(options)).Some? ==>
      match CheckKeys(old(Source(options)).value)
      case Failure(error) => r == Failure(error)
      case Success(_) => r.Success? && IsOwnCopy(r.value, old(Source(options)).value)
  {
    var query :- QueryOptions(options, KEY_FIELDS);
    var failure := CheckEach(query, ["prefix"] + EDGES, CheckKey);
    if failure.Some? {
      return Failure(failure.value);
    }
    return Success(query);
  }

  method PositionOptions(options: Value) returns (r: Result<JsObject, ErrorKind>)
    ensures old(Source(options)).None? ==> r == Failure(TypeError)
    ensures old(Source(options)).Some? ==>
      match CheckPositions(old(Source(options)).value)
      case Failure(error) => r == Failure(error)
      case Success(_) => r.Success? && IsOwnCopy(r.value, old(Source(options)).value)
  {
    var query :- QueryOptions(options, POSITION_FIELDS);
    var failure := CheckEach(query, EDGES, CheckPosition);
    if failure.Some? {
      return Failure(failure.value);
    }
    return Success(query);
  }

  // ----- Properties -----

  // Checking a checked query changes nothing.
  lemma CheckingIsIdempotent(source: Options)
    ensures CheckKeys(source).Success? ==> CheckKeys(CheckKeys(source).value) == CheckKeys(source)
    ensures CheckPositions(source).Success? ==> CheckPositions(CheckPositions(source).value) == CheckPositions(source)
  {
    assert SetFields(SetFields(source)) == SetFields(source);
  }

  // The checked query holds exactly the options that are set, each with its value.
  lemma CheckedQueryKeepsOptions(source: Options, field: string)
    ensures CheckKeys(source).Success? ==> SetTo(CheckKeys(source).value, source, field)
    ensures CheckPositions(source).Success? ==> SetTo(CheckPositions(source).value, source, field)
  {
  }

  ghost predicate SetTo(query: Options, source: Options, field: string) {
    && (field in query <==> field in source && source[field] != Atom(Missing))
    && (field in query ==> query[field] == source[field])
  }

  // What an argument stands for. No argument is no option, and a string is a direction. An object is its entries.
  // `null`, a number, and any other value are rejected, and so is an array that is not empty.
  lemma ArgumentMeaning(options: Value)
    ensures match options
      case Undefined => Source(options) == Some(map[])
      case Text(text) => Source(options) == Some(map["direction" := Atom(TextAtom(text))])
      case Object(o) => Source(options) == Some(Snapshot(o.fields))
      case Array(a) => ArrayIsRejected(Source(options), a.elements)
      case _ => Source(options) == None
  {
    match options
    case Undefined => assert Snapshot(map[]) == map[];
    case Text(text) => assert Snapshot(map["direction" := options]) == map["direction" := Atom(TextAtom(text))];
    case Array(a) =>
      if a.elements == [] {
        assert Snapshot(map[]) == map[];
      } else {
        assert "0" in Source(options).value;
      }
    case _ =>
  }

  ghost predicate ArrayIsRejected(source: Option<Options>, elements: seq<Value>) {
    && source.Some?
    && (elements == [] ==> source.value == map[])
    && (elements != [] ==> CheckKeys(source.value) == Failure(TypeError))
    && (elements != [] ==> CheckPositions(source.value) == Failure(TypeError))
  }

  // What the entries of an object stand for: an array as its elements in order, which only a range may be, and any
  // other value as itself.
  lemma EntryMeaning(fields: map<string, Value>, field: string)
    requires field in fields
    ensures field in Snapshot(fields)
    ensures var plain := Snapshot(fields)[field];
      match fields[field]
      case Undefined => plain == Atom(Missing)
      case Null => plain == Atom(NullAtom)
      case Text(text) => plain == Atom(TextAtom(text))
      case Num(number) => plain == Atom(NumberAtom(number))
      case Array(a) => if field == "range" then ArrayMeaning(a.elements, plain) else plain == Atom(OtherAtom)
      case _ => plain == Atom(OtherAtom)
  {
  }

  ghost predicate ArrayMeaning(elements: seq<Value>, plain: Plain) {
    && plain.List? && |plain.items| == |elements|
    && forall i :: 0 <= i < |elements| ==> ElementMeaning(elements[i], plain.items[i])
  }

  ghost predicate ElementMeaning(element: Value, atom: Atom) {
    match element
    case Undefined => atom == Missing
    case Null => atom == NullAtom
    case Text(text) => atom == TextAtom(text)
    case Num(number) => atom == NumberAtom(number)
    case _ => atom == OtherAtom
  }

  // The documented shape of the options: known names, at most one edge of each pair, a range of two bounds,
  // and a known direction.
  ghost predicate Shaped(source: Options, accepted: set<string>) {
    && source.Keys <= accepted
    && !(IsSet(source, "from") && IsSet(source, "after"))
    && !(IsSet(source, "to") && IsSet(source, "before"))
    && (IsSet(source, "range") ==>
        Get(source, "range").List? && |Get(source, "range").items| == 2 && Missing !in Get(source, "range").items)
    && (IsSet(source, "direction") ==>
        Get(source, "direction") in {Atom(TextAtom("forward")), Atom(TextAtom("backward"))})
  }

  ghost predicate IsNumber(value: Plain) {
    value.Atom? && value.atom.NumberAtom?
  }

  ghost predicate IsCount(value: Plain, min: int) {
    && IsNumber(value) && value.atom.number.Finite?
    && value.atom.number.value == value.atom.number.value.Floor as real
    && min <= value.atom.number.value.Floor <= 9_007_199_254_740_991
  }

  ghost predicate IsText(value: Plain) {
    value.Atom? && value.atom.TextAtom?
  }

  // Every named option that is set satisfies a test.
  ghost predicate EachSet(source: Options, names: set<string>, test: Plain -> bool) {
    forall field :: field in names && IsSet(source, field) ==> test(Get(source, field))
  }

  // Every closed bound of the range satisfies a test.
  ghost predicate Bounds(source: Options, test: Plain -> bool) {
    Get(source, "range").List? ==>
      forall i :: 0 <= i < |Get(source, "range").items| && !Get(source, "range").items[i].NullAtom?
        ==> test(Atom(Get(source, "range").items[i]))
  }

  lemma SharedDecides(source: Options, accepted: set<string>)
    ensures CheckShared(source, accepted).None?
       <==> Shaped(source, accepted) && (IsSet(source, "limit") ==> IsCount(Get(source, "limit"), 1))
    ensures CheckShared(source, accepted) == Some(RangeError)
       <==> Shaped(source, accepted) && IsNumber(Get(source, "limit")) && !IsCount(Get(source, "limit"), 1)
  {
    var query := SetFields(source);
    assert forall field :: Get(query, field) == Get(source, field);
    assert CheckPairs(query).None? <==>
      !(IsSet(source, "from") && IsSet(source, "after")) && !(IsSet(source, "to") && IsSet(source, "before")) by {
      assert PAIRS[0] == ("from", "after") && PAIRS[1] == ("to", "before");
    }
  }

  lemma {:induction false} CheckAllPasses(values: seq<Plain>, check: Plain -> Option<ErrorKind>)
    requires forall i :: 0 <= i < |values| ==> check(values[i]).None?
    ensures CheckAll(values, check).None?
  {
    if values != [] {
      CheckAllPasses(values[1..], check);
    }
  }

  lemma {:induction false} NonNullMembers(items: seq<Atom>, k: nat)
    requires k < |NonNull(items)|
    ensures exists i :: 0 <= i < |items| && !items[i].NullAtom? && NonNull(items)[k] == Atom(items[i])
  {
    var rest := NonNull(items[1..]);
    if items[0].NullAtom? {
      assert NonNull(items) == rest;
      NonNullMembers(items[1..], k);
    } else if k > 0 {
      assert NonNull(items)[k] == rest[k - 1];
      NonNullMembers(items[1..], k - 1);
    }
    if items[0].NullAtom? || k > 0 {
      var i :| 0 <= i < |items[1..]| && !items[1..][i].NullAtom? && NonNull(items)[k] == Atom(items[1..][i]);
      assert items[1..][i] == items[i + 1];
    }
  }

  // The checks of the bounds pass exactly when every closed bound passes.
  lemma BoundsDecide(source: Options, check: Plain -> Option<ErrorKind>)
    ensures CheckAll(RangeBounds(SetFields(source)), check).None? <==> Bounds(source, p => check(p).None?)
  {
    assert Get(SetFields(source), "range") == Get(source, "range");
    if Get(source, "range").List? {
      var items := Get(source, "range").items;
      if CheckAll(NonNull(items), check).None? {
        forall i | 0 <= i < |items| && !items[i].NullAtom?
          ensures check(Atom(items[i])).None?
        {
          BoundCovered(items, check, i);
        }
      }
      if Bounds(source, p => check(p).None?) {
        forall k | 0 <= k < |NonNull(items)|
          ensures check(NonNull(items)[k]).None?
        {
          NonNullMembers(items, k);
        }
        CheckAllPasses(NonNull(items), check);
      }
    }
  }

  lemma FieldsDecide(source: Options, names: seq<string>, check: Plain -> Option<ErrorKind>)
    ensures CheckAll(Fields(SetFields(source), names), check).None?
       <==> forall i :: 0 <= i < |names| ==> check(Get(source, names[i])).None?
  {
    var values := Fields(SetFields(source), names);
    assert forall i :: 0 <= i < |names| ==> values[i] == Get(source, names[i]);
    if CheckAll(values, check).None? {
      forall i | 0 <= i < |names|
        ensures check(Get(source, names[i])).None?
      {
        CheckAllCovers(values, check, i);
      }
    } else if forall i :: 0 <= i < |names| ==> check(Get(source, names[i])).None? {
      CheckAllPasses(values, check);
    }
  }

  // A key query is accepted exactly when it has the documented shape, a positive safe limit, and strings for
  // every key and closed bound. It is a RangeError exactly when only its limit, a number, is out of range
  // among the shared checks.
  lemma KeyCheckDecides(source: Options)
    ensures CheckKeys(source).Success? <==>
      (&& Shaped(source, {"direction", "limit", "prefix", "from", "after", "to", "before", "range"})
       && (IsSet(source, "limit") ==> IsCount(Get(source, "limit"), 1))
       && EachSet(source, {"prefix", "from", "after", "to", "before"}, IsText)
       && Bounds(source, IsText))
    ensures CheckKeys(source) == Failure(RangeError) <==>
      (&& Shaped(source, {"direction", "limit", "prefix", "from", "after", "to", "before", "range"})
       && IsNumber(Get(source, "limit")) && !IsCount(Get(source, "limit"), 1))
  {
    var names := ["prefix"] + EDGES;
    SharedDecides(source, KEY_FIELDS);
    FieldsDecide(source, names, CheckKey);
    BoundsDecide(source, CheckKey);
    KeyErrors(Fields(SetFields(source), names));
    KeyErrors(RangeBounds(SetFields(source)));
    assert names[0] == "prefix" && names[1] == "from" && names[2] == "after" && names[3] == "to";
    assert names[4] == "before";
    if Shaped(source, KEY_FIELDS) {
      assert Bounds(source, p => CheckKey(p).None?) <==> Bounds(source, IsText);
    }
  }

  lemma {:induction false} KeyErrors(values: seq<Plain>)
    ensures CheckAll(values, CheckKey) != Some(RangeError)
  {
    if values != [] {
      KeyErrors(values[1..]);
    }
  }

  // The first of some values that fails the check of positions is a number out of range.
  ghost predicate OutOfRangeFirst(values: seq<Plain>) {
    exists i :: OutOfRangeAt(values, i)
  }

  ghost predicate OutOfRangeAt(values: seq<Plain>, i: int) {
    && 0 <= i < |values| && IsNumber(values[i]) && !IsCount(values[i], 0)
    && forall j :: 0 <= j < i ==> values[j] == Atom(Missing) || IsCount(values[j], 0)
  }

  lemma {:induction false} PositionErrors(values: seq<Plain>)
    ensures CheckAll(values, CheckPosition) == Some(RangeError) <==> OutOfRangeFirst(values)
  {
    if values != [] {
      PositionErrors(values[1..]);
      if CheckPosition(values[0]).None? {
        forall i
          ensures i > 0 ==> (OutOfRangeAt(values, i) <==> OutOfRangeAt(values[1..], i - 1))
        {
          assert forall j :: 0 < j < |values| ==> values[j] == values[1..][j - 1];
        }
        assert forall i :: OutOfRangeAt(values[1..], i) ==> OutOfRangeAt(values, i + 1);
      } else if CheckPosition(values[0]) == Some(RangeError) {
        assert OutOfRangeAt(values, 0);
      }
    }
  }

  lemma {:induction false} CheckAllConcat(a: seq<Plain>, b: seq<Plain>, check: Plain -> Option<ErrorKind>)
    ensures CheckAll(a + b, check) == First(CheckAll(a, check), CheckAll(b, check))
  {
    if a == [] {
      assert a + b == b;
    } else {
      assert (a + b)[1..] == a[1..] + b;
      CheckAllConcat(a[1..], b, check);
    }
  }

  // A position query is accepted exactly when it has the documented shape, a positive safe limit, and
  // non-negative safe integers for every position and closed bound. It is a RangeError exactly when it has the
  // shape and the first of the limit, the edges, and the closed bounds that fails is a number out of range.
  lemma PositionCheckDecides(source: Options)
    ensures CheckPositions(source).Success? <==>
      (&& Shaped(source, {"direction", "limit", "from", "after", "to", "before", "range"})
       && (IsSet(source, "limit") ==> IsCount(Get(source, "limit"), 1))
       && EachSet(source, {"from", "after", "to", "before"}, p => IsCount(p, 0))
       && Bounds(source, p => IsCount(p, 0)))
    ensures CheckPositions(source) == Failure(RangeError) <==>
      (&& Shaped(source, {"direction", "limit", "from", "after", "to", "before", "range"})
       && if IsSet(source, "limit") && !IsCount(Get(source, "limit"), 1) then IsNumber(Get(source, "limit"))
          else OutOfRangeFirst(Fields(source, EDGES) + RangeBounds(source)))
  {
    PositionRangeErrors(source);
    SharedDecides(source, POSITION_FIELDS);
    FieldsDecide(source, EDGES, CheckPosition);
    BoundsDecide(source, CheckPosition);
    assert EDGES[0] == "from" && EDGES[1] == "after" && EDGES[2] == "to" && EDGES[3] == "before";
    if Shaped(source, POSITION_FIELDS) {
      assert Bounds(source, p => CheckPosition(p).None?) <==> Bounds(source, p => IsCount(p, 0));
    }
  }

  lemma PositionRangeErrors(source: Options)
    ensures First(CheckAll(Fields(SetFields(source), EDGES), CheckPosition),
                  CheckAll(RangeBounds(SetFields(source)), CheckPosition)) == Some(RangeError)
       <==> OutOfRangeFirst(Fields(source, EDGES) + RangeBounds(source))
  {
    assert forall field :: Get(SetFields(source), field) == Get(source, field);
    assert Fields(SetFields(source), EDGES) == Fields(source, EDGES);
    CheckAllConcat(Fields(source, EDGES), RangeBounds(source), CheckPosition);
    PositionErrors(Fields(source, EDGES) + RangeBounds(source));
  }

  // ----- Across the native boundary -----

  function CodePoints(text: string): Key {
    seq(|text|, i requires 0 <= i < |text| => text[i] as nat)
  }

  function NativeKey(value: Plain): Option<Key> {
    if value.Atom? && value.atom.TextAtom? then Some(CodePoints(value.atom.text)) else None
  }

  function NativeNumber(value: Plain): Option<Number> {
    if value.Atom? && value.atom.NumberAtom? then Some(value.atom.number) else None
  }

  function NativeDirection(value: Plain): Option<Direction> {
    if value == Atom(TextAtom("forward")) then Some(Forward)
    else if value == Atom(TextAtom("backward")) then Some(Backward)
    else None
  }

  function NativeQuery<B>(query: Options, bound: Plain -> Option<B>): Query<B> {
    Query(NativeDirection(Get(query, "direction")),
          bound(Get(query, "from")), bound(Get(query, "after")), bound(Get(query, "to")), bound(Get(query, "before")),
          match Get(query, "range")
          case List(items) => if |items| == 2 then Some((bound(Atom(items[0])), bound(Atom(items[1])))) else None
          case _ => None,
          NativeNumber(Get(query, "limit")))
  }

  function NativeKeyQuery(query: Options): KeyQuery {
    KeyQuery(NativeKey(Get(query, "prefix")), NativeQuery(query, NativeKey))
  }

  function NativePositionQuery(query: Options): PositionQuery {
    NativeQuery(query, NativeNumber)
  }

  lemma {:induction false} CheckAllCovers(values: seq<Plain>, check: Plain -> Option<ErrorKind>, i: nat)
    requires CheckAll(values, check).None? && i < |values|
    ensures check(values[i]).None?
  {
    if i > 0 {
      CheckAllCovers(values[1..], check, i - 1);
    }
  }

  // A checked count crosses the boundary as the same number.
  lemma CountConverts(count: Plain, min: nat)
    requires CheckCount(count, min).None? && min <= 1
    ensures count == Atom(Missing) <==> NativeNumber(count).None?
    ensures NativeNumber(count).Some? ==>
      var target := if min == 1 then NON_ZERO_USIZE else USIZE;
      && Whole(NativeNumber(count).value, target).Success?
      && count == Atom(NumberAtom(Finite(Whole(NativeNumber(count).value, target).value as real)))
  {
  }

  lemma {:induction false} BoundCovered(items: seq<Atom>, check: Plain -> Option<ErrorKind>, i: nat)
    requires CheckAll(NonNull(items), check).None? && i < |items| && !items[i].NullAtom?
    ensures check(Atom(items[i])).None?
  {
    if items[0].NullAtom? {
      assert NonNull(items) == NonNull(items[1..]);
      BoundCovered(items[1..], check, i - 1);
    } else {
      assert NonNull(items)[1..] == NonNull(items[1..]);
      if i > 0 {
        BoundCovered(items[1..], check, i - 1);
      }
    }
  }

  // The range of a checked query has two bounds, each null or accepted by the check of a bound.
  lemma RangeCovered(query: Options, check: Plain -> Option<ErrorKind>)
    requires CheckRange(query).None? && CheckAll(RangeBounds(query), check).None?
    ensures Get(query, "range") != Atom(Missing) ==>
      var range := Get(query, "range");
      && range.List? && |range.items| == 2
      && forall i :: 0 <= i < 2 ==>
        !range.items[i].Missing? && (!range.items[i].NullAtom? ==> check(Atom(range.items[i])).None?)
  {
    if Get(query, "range").List? {
      var items := Get(query, "range").items;
      forall i | 0 <= i < 2 && !items[i].NullAtom?
        ensures check(Atom(items[i])).None?
      {
        BoundCovered(items, check, i);
      }
    }
  }

  // The native form of a range keeps each closed bound, and only those.
  ghost predicate RangeCrosses<B>(range: Plain, native: Option<(Option<B>, Option<B>)>, bound: Plain -> Option<B>) {
    && (native.Some? <==> range != Atom(Missing))
    && (native.Some? ==>
        && range.List? && |range.items| == 2
        && native.value == (bound(Atom(range.items[0])), bound(Atom(range.items[1])))
        && (native.value.0.None? <==> range.items[0].NullAtom?)
        && (native.value.1.None? <==> range.items[1].NullAtom?))
  }

  // Every key query the check accepts lowers without an error, and no set option is lost on the way. The
  // native limit is the number the caller wrote.
  lemma AcceptedKeysLower(source: Options)
    requires CheckKeys(source).Success?
    ensures var query := CheckKeys(source).value;
      var native := NativeKeyQuery(query);
      && LowerKeyQuery(native).Success?
      && (forall field :: field in ["prefix"] + EDGES ==> (NativeKey(Get(query, field)).Some? <==> IsSet(query, field)))
      && RangeCrosses(Get(query, "range"), native.options.range, NativeKey)
      && (native.options.direction.Some? <==> IsSet(query, "direction"))
      && (match LowerKeyQuery(native).value.limit
          case None => !IsSet(query, "limit")
          case Some(n) => Get(query, "limit") == Atom(NumberAtom(Finite(n as real))))
  {
    var query := CheckKeys(source).value;
    var names := ["prefix"] + EDGES;
    forall field | field in names
      ensures NativeKey(Get(query, field)).Some? <==> IsSet(query, field)
    {
      var i :| 0 <= i < |names| && names[i] == field;
      CheckAllCovers(Fields(query, names), CheckKey, i);
    }
    RangeCovered(query, CheckKey);
    CountConverts(Get(query, "limit"), 1);
    KeyLoweringIsCorrect(NativeKeyQuery(query));
  }

  // A position crosses as the number the caller wrote.
  ghost predicate PositionCrosses(position: Plain, native: Option<nat>) {
    match native
    case None => position == Atom(Missing) || position == Atom(NullAtom)
    case Some(n) => position == Atom(NumberAtom(Finite(n as real)))
  }

  // Every position query the check accepts lowers without an error, and each native integer equals the
  // number the caller wrote.
  lemma AcceptedPositionsLower(source: Options)
    requires CheckPositions(source).Success?
    ensures var query := CheckPositions(source).value;
      && LowerPositionQuery(NativePositionQuery(query)).Success?
      && var positions := ConvertPositions(NativePositionQuery(query)).value;
      && PositionCrosses(Get(query, "from"), positions.from)
      && PositionCrosses(Get(query, "after"), positions.after)
      && PositionCrosses(Get(query, "to"), positions.to)
      && PositionCrosses(Get(query, "before"), positions.before)
      && (positions.range.None? <==> !IsSet(query, "range"))
      && (positions.range.Some? ==>
          && PositionCrosses(Atom(Get(query, "range").items[0]), positions.range.value.0)
          && PositionCrosses(Atom(Get(query, "range").items[1]), positions.range.value.1))
      && PositionCrosses(Get(query, "limit"), LowerPositionQuery(NativePositionQuery(query)).value.limit)
  {
    var query := CheckPositions(source).value;
    var native := NativePositionQuery(query);
    forall i: nat | i < |EDGES|
      ensures CheckCount(Get(query, EDGES[i]), 0).None?
    {
      CheckAllCovers(Fields(query, EDGES), CheckPosition, i);
    }
    PositionConverts(Get(query, EDGES[0]));
    PositionConverts(Get(query, EDGES[1]));
    PositionConverts(Get(query, EDGES[2]));
    PositionConverts(Get(query, EDGES[3]));
    RangeCovered(query, CheckPosition);
    if IsSet(query, "range") {
      PositionConverts(Atom(Get(query, "range").items[0]));
      PositionConverts(Atom(Get(query, "range").items[1]));
    }
    assert ConvertPositions(native).Success?;
    CountConverts(Get(query, "limit"), 1);
    assert ConvertLimit(native.limit).Success?;
    PositionLoweringIsCorrect(native);
  }

  lemma PositionConverts(value: Plain)
    requires value == Atom(NullAtom) || CheckPosition(value).None?
    ensures ConvertPosition(NativeNumber(value)).Success?
    ensures PositionCrosses(value, ConvertPosition(NativeNumber(value)).value)
  {
  }
}
