/** ItemCollection: a keyed, insertion-ordered container that coerces its
    elements to a declared model when it is built, with the read-only
    queries, array access, `pluck`, `unique` and `raw`. The object is a
    class over its `$items`; the queries are functions that read it. */
module ItemCollections {
  import opened PhpArrays
  import opened Models

  // ------------------------------------------------------------ pluck

  /** How `pluck` sees an element: an array (looked up by key), an object
      with its accessible properties and its public zero-argument methods
      (already applied), or anything else. */
  datatype Shape =
    | ArrayShape(entries: seq<(Key, Value)>)
    | ObjectShape(properties: map<string, Value>, methods: map<string, Value>)
    | ScalarShape

  /** Public methods that need arguments: `pluck` calls them with none, so
      PHP raises an ArgumentCountError. */
  const ArgMethods: set<string> := {"__construct", "isInViewport"}

  function AddressMethods(a: Address): map<string, Value> {
    map[
      "getFormatted" := a.formatted,
      "isPartialMatch" := a.partialMatch,
      "getPlaceId" := a.placeId,
      "getTypes" := a.types,
      "getComponents" := CollectionObj(a.components),
      "getGeometry" := GeometryObj(a.geometry),
      "getLatitude" := a.geometry.latitude,
      "getLongitude" := a.geometry.longitude,
      "getRaw" := Arr(a.raw)]
  }

  function ComponentMethods(c: Component): map<string, Value> {
    map[
      "getLongName" := c.longName,
      "getShortName" := c.shortName,
      "getTypes" := c.types,
      "getRaw" := Arr(c.raw)]
  }

  function GeometryMethods(g: Geometry): map<string, Value> {
    map[
      "getType" := g.locationType,
      "getLatitude" := g.latitude,
      "getLongitude" := g.longitude,
      "getLocation" := Location(g),
      "getBounds" := g.bounds,
      "getViewport" := g.viewport,
      "getRelevancyTypes" := TypesValue(),
      "getTypes" := TypesValue(),
      "getRaw" := Arr(g.raw)]
  }

  /** The models' properties are all protected, so `isset($item->{$k})`
      never sees one from inside ItemCollection. */
  function ShapeOf(v: Value): Shape
    requires !v.CollectionObj?
  {
    match v
    case Arr(e) => ArrayShape(e)
    case AddressObj(a) => ObjectShape(map[], AddressMethods(a))
    case ComponentObj(c) => ObjectShape(map[], ComponentMethods(c))
    case GeometryObj(g) => ObjectShape(map[], GeometryMethods(g))
    case _ => ScalarShape
  }

  /** `pluck` can resolve `name` on `v` without raising. */
  predicate Pluckable(v: Value, name: string) {
    !v.CollectionObj? && (IsModel(v) ==> name !in ArgMethods)
  }

  /** The value `pluck` stores for one element, tried in the source's order. */
  function Resolve(s: Shape, name: string): (r: Value)
    ensures s.ArrayShape? && Has(s.entries, StrKey(name)) ==> r == Lookup(s.entries, StrKey(name)).value
    ensures s.ArrayShape? && !Has(s.entries, StrKey(name)) ==> r == Null
    ensures s.ObjectShape? && name in s.properties && s.properties[name] != Null ==> r == s.properties[name]
    ensures s.ObjectShape? && !(name in s.properties && s.properties[name] != Null) && name in s.methods
      ==> r == s.methods[name]
    ensures s.ObjectShape? && !(name in s.properties && s.properties[name] != Null) && name !in s.methods
      ==> r == Null
    ensures s.ScalarShape? ==> r == Null
  {
    match s
    case ArrayShape(e) => if Has(e, StrKey(name)) then Lookup(e, StrKey(name)).value else Null
    case ObjectShape(props, methods) =>
      if name in props && props[name] != Null then props[name]
      else if name in methods then methods[name]
      else Null
    case ScalarShape => Null
  }

  /** The `foreach` of `pluck` from element `i` on: `key` is the current
      `$key` (None while it is still null) and `out` the `$items` built so far. */
  function PluckFrom(items: seq<(Key, Value)>, name: string, key: Option<Key>, i: nat, out: seq<(Key, Value)>): seq<(Key, Value)>
    requires forall j :: 0 <= j < |items| ==> Pluckable(items[j].1, name)
    decreases |items| - i
  {
    if i >= |items| then out
    else
      var k := if key.Some? then key.value else IntKey(i);
      assert Pluckable(items[i].1, name);
      PluckFrom(items, name, Some(k), i + 1, Put(out, k, Resolve(ShapeOf(items[i].1), name)))
  }

  function InitialKey(key: Option<string>): Option<Key> {
    if key.Some? then Some(StrKey(key.value)) else None
  }

  /** What `pluck` amounts to once `$key` has stuck: nothing for no elements,
      otherwise one entry under 0 (or the given key) holding the last
      element's value. */
  function PluckResult(items: seq<(Key, Value)>, name: string, key: Option<string>): seq<(Key, Value)>
    requires forall j :: 0 <= j < |items| ==> Pluckable(items[j].1, name)
  {
    if |items| == 0 then []
    else
      assert Pluckable(items[|items| - 1].1, name);
      [(if key.Some? then StrKey(key.value) else IntKey(0), Resolve(ShapeOf(items[|items| - 1].1), name))]
  }

  lemma {:induction false} PluckSticks(items: seq<(Key, Value)>, name: string, k: Key, i: nat, x: Value)
    requires forall j :: 0 <= j < |items| ==> Pluckable(items[j].1, name)
    requires 1 <= i <= |items| && Pluckable(items[i - 1].1, name) && Pluckable(items[|items| - 1].1, name)
    requires x == Resolve(ShapeOf(items[i - 1].1), name)
    ensures PluckFrom(items, name, Some(k), i, [(k, x)]) == [(k, Resolve(ShapeOf(items[|items| - 1].1), name))]
    decreases |items| - i
  {
    if i < |items| {
      assert Pluckable(items[i].1, name);
      var y := Resolve(ShapeOf(items[i].1), name);
      assert IndexOf([(k, x)], k) == Some(0);
      assert Put([(k, x)], k, y) == [(k, y)];
      PluckSticks(items, name, k, i + 1, y);
    }
  }

  /** `pluck` as written (`$key = $key ?? $i` on every pass) yields at most
      one entry: the last element's value, under 0 or the explicit key. */
  lemma PluckCollapses(items: seq<(Key, Value)>, name: string, key: Option<string>)
    requires forall j :: 0 <= j < |items| ==> Pluckable(items[j].1, name)
    ensures PluckFrom(items, name, InitialKey(key), 0, []) == PluckResult(items, name, key)
    ensures |PluckResult(items, name, key)| == if |items| == 0 then 0 else 1
  {
    if |items| > 0 {
      var k := if key.Some? then StrKey(key.value) else IntKey(0);
      assert Pluckable(items[0].1, name) && Pluckable(items[|items| - 1].1, name);
      var x := Resolve(ShapeOf(items[0].1), name);
      var empty: seq<(Key, Value)> := [];
      assert Put(empty, k, x) == [(k, x)];
      PluckSticks(items, name, k, 1, x);
    }
  }

  /** The plucked array is a well-formed array that `new self` keeps as it is. */
  lemma PluckedArray(items: seq<(Key, Value)>, name: string, key: Option<string>)
    requires forall j :: 0 <= j < |items| ==> Pluckable(items[j].1, name)
    ensures PluckFrom(items, name, InitialKey(key), 0, []) == PluckResult(items, name, key)
    ensures DistinctKeys(PluckResult(items, name, key))
    ensures SetItems(NoModel, PluckResult(items, name, key)) == PluckResult(items, name, key)
  {
    PluckCollapses(items, name, key);
    SetItemsCoerces(NoModel, PluckResult(items, name, key));
  }

  // ------------------------------------------------------------ unique

  predicate AllStringable(items: seq<(Key, Value)>) {
    forall i :: 0 <= i < |items| ==> HasStringForm(items[i].1)
  }

  function Forms(items: seq<(Key, Value)>): set<string>
    requires AllStringable(items)
  {
    set i | 0 <= i < |items| :: StringForm(items[i].1)
  }

  /** Entry `i` is the first with its string form. */
  predicate FirstOfForm(items: seq<(Key, Value)>, i: int)
    requires AllStringable(items)
  {
    0 <= i < |items| && forall j :: 0 <= j < i ==> StringForm(items[j].1) != StringForm(items[i].1)
  }

  predicate DistinctForms(items: seq<(Key, Value)>)
    requires AllStringable(items)
  {
    forall i, j :: 0 <= i < j < |items| ==> StringForm(items[i].1) != StringForm(items[j].1)
  }

  /** `array_unique($items)`: each entry, with its key, unless an earlier one
      has the same string form. */
  function UniqueItems(items: seq<(Key, Value)>): (r: seq<(Key, Value)>)
    requires AllStringable(items)
    ensures AllStringable(r)
    ensures forall e :: e in r ==> e in items
  {
    if |items| == 0 then []
    else
      var init := items[..|items| - 1];
      var last := items[|items| - 1];
      if StringForm(last.1) in Forms(init) then UniqueItems(init) else UniqueItems(init) + [last]
  }

  lemma FormsSnoc(items: seq<(Key, Value)>)
    requires AllStringable(items) && |items| > 0
    ensures Forms(items) == Forms(items[..|items| - 1]) + {StringForm(items[|items| - 1].1)}
  {
    var init := items[..|items| - 1];
    forall f | f in Forms(items) ensures f in Forms(init) + {StringForm(items[|items| - 1].1)} {
      var i :| 0 <= i < |items| && StringForm(items[i].1) == f;
      if i < |items| - 1 { assert init[i] == items[i]; }
    }
    forall f | f in Forms(init) ensures f in Forms(items) {
      var i :| 0 <= i < |init| && StringForm(init[i].1) == f;
      assert items[i] == init[i];
    }
  }

  /** `unique()` keeps exactly one entry per string form and loses none. */
  lemma {:induction false} UniqueForms(items: seq<(Key, Value)>)
    requires AllStringable(items)
    ensures DistinctForms(UniqueItems(items))
    ensures Forms(UniqueItems(items)) == Forms(items)
    decreases |items|
  {
    if |items| > 0 {
      var init := items[..|items| - 1];
      var last := items[|items| - 1];
      UniqueForms(init);
      FormsSnoc(items);
      var u := UniqueItems(init);
      if StringForm(last.1) !in Forms(init) {
        var r := u + [last];
        assert r[..|r| - 1] == u;
        FormsSnoc(r);
        forall i, j | 0 <= i < j < |r| ensures StringForm(r[i].1) != StringForm(r[j].1) {
          if j == |r| - 1 {
            assert StringForm(r[i].1) in Forms(u) by { assert u[i] == r[i]; }
          } else {
            assert r[i] == u[i] && r[j] == u[j];
          }
        }
      }
    }
  }

  /** The entries `unique()` keeps are exactly the first of each string form. */
  lemma {:induction false} UniqueKeepsFirst(items: seq<(Key, Value)>, i: int)
    requires AllStringable(items) && 0 <= i < |items|
    ensures FirstOfForm(items, i) ==> items[i] in UniqueItems(items)
    ensures items[i] in UniqueItems(items) && DistinctKeys(items) ==> FirstOfForm(items, i)
    decreases |items|
  {
    var init := items[..|items| - 1];
    var last := items[|items| - 1];
    var u := UniqueItems(init);
    assert forall j :: 0 <= j < |init| ==> init[j] == items[j];
    if i < |items| - 1 {
      UniqueKeepsFirst(init, i);
      assert FirstOfForm(items, i) == FirstOfForm(init, i);
      assert DistinctKeys(items) ==> DistinctKeys(init);
      assert DistinctKeys(items) ==> items[i] != last by {
        if DistinctKeys(items) { assert items[i].0 != items[|items| - 1].0; }
      }
    } else {
      var absent := forall j :: 0 <= j < |init| ==> StringForm(init[j].1) != StringForm(last.1);
      assert absent ==> StringForm(last.1) !in Forms(init);
      assert !absent ==> StringForm(last.1) in Forms(init);
      if DistinctKeys(items) {
        forall e | e in u ensures e != last {
          assert e in init;
          var m :| 0 <= m < |init| && init[m] == e;
          assert items[m].0 != items[|items| - 1].0;
        }
      }
    }
  }

  /** An array without repeated string forms is its own `array_unique`. */
  lemma {:induction false} UniqueOfDistinct(items: seq<(Key, Value)>)
    requires AllStringable(items) && DistinctForms(items)
    ensures UniqueItems(items) == items
    decreases |items|
  {
    if |items| > 0 {
      var init := items[..|items| - 1];
      var last := items[|items| - 1];
      assert forall j :: 0 <= j < |init| ==> init[j] == items[j];
      assert DistinctForms(init);
      UniqueOfDistinct(init);
      assert forall j :: 0 <= j < |init| ==> StringForm(init[j].1) != StringForm(last.1);
      assert StringForm(last.1) !in Forms(init);
      assert init + [last] == items;
    }
  }

  /** `unique()` keeps first-occurrence order: what it keeps of a prefix
      is a prefix of what it keeps of the whole. */
  lemma {:induction false} UniquePrefix(items: seq<(Key, Value)>, i: nat)
    requires AllStringable(items) && i <= |items|
    ensures UniqueItems(items[..i]) <= UniqueItems(items)
    decreases |items|
  {
    if i < |items| {
      var init := items[..|items| - 1];
      assert items[..i] == init[..i];
      UniquePrefix(init, i);
    } else {
      assert items[..i] == items;
    }
  }

  /** `unique()` is idempotent. */
  lemma UniqueIdempotent(items: seq<(Key, Value)>)
    requires AllStringable(items)
    ensures UniqueItems(UniqueItems(items)) == UniqueItems(items)
  {
    UniqueForms(items);
    UniqueOfDistinct(UniqueItems(items));
  }

  // -------------------------------------------------------------- raw

  /** What `raw()` stores for one element: a nested collection's own `raw()`,
      a model's `getRaw()`, anything else as it is. */
  function RawValue(v: Value): Value
    decreases v
  {
    match v
    case CollectionObj(c) =>
      Arr(seq(|c.items|, i requires 0 <= i < |c.items| => (c.items[i].0, RawValue(c.items[i].1))))
    case AddressObj(a) => Arr(a.raw)
    case ComponentObj(c) => Arr(c.raw)
    case GeometryObj(g) => Arr(g.raw)
    case _ => v
  }

  /** `raw()` of a collection holding `items`. */
  function RawItems(items: seq<(Key, Value)>): (r: seq<(Key, Value)>)
    ensures |r| == |items|
    ensures forall i :: 0 <= i < |items| ==> r[i].0 == items[i].0 && r[i].1 == RawValue(items[i].1)
  {
    RawValue(CollectionObj(Collection(NoModel, items))).entries
  }

  /** Building a modelled collection from an array of arrays and taking
      `raw()` gives the array back: keys, order and payloads. */
  lemma RawRoundTrip(model: ModelKind, x: seq<(Key, Value)>)
    requires model != NoModel
    requires forall i :: 0 <= i < |x| ==> x[i].1.Arr?
    requires Coercible(model, x)
    ensures RawItems(SetItems(model, x)) == x
  {
    var s := SetItems(model, x);
    var r := RawItems(s);
    forall i | 0 <= i < |x| ensures r[i] == x[i] {
      assert s[i].1 == CoerceItem(model, x[i].1);
    }
  }

  /** Elements that are neither models nor collections come out of `raw()`
      unchanged, so without a model and without objects `raw()` is `all()`. */
  lemma RawOfPlainItems(items: seq<(Key, Value)>)
    requires forall i :: 0 <= i < |items| ==> !IsObject(items[i].1)
    ensures RawItems(items) == items
  {
    var r := RawItems(items);
    assert forall i :: 0 <= i < |items| ==> r[i] == items[i];
  }

  // ---------------------------------------------------------- the class

  /** The element `get`/`offsetGet` may return: a model or null. */
  predicate ModelOrNull(v: Value) {
    v.Null? || IsModel(v)
  }

  /** The by-reference loop of `setItems`: each element that is not an
      instance of `model` is replaced by `new $this->model($item)`. */
  method Coerce(model: ModelKind, src: seq<(Key, Value)>) returns (arr: seq<(Key, Value)>)
    requires Coercible(model, src)
    ensures arr == SetItems(model, src)
  {
    arr := src;
    var i := 0;
    while i < |arr|
      invariant 0 <= i <= |arr| == |src|
      invariant forall j :: 0 <= j < i ==> arr[j] == (src[j].0, CoerceItem(model, src[j].1))
      invariant forall j :: i <= j < |src| ==> arr[j] == src[j]
    {
      if !IsInstance(model, arr[i].1) {
        arr := arr[i := (arr[i].0, Make(model, arr[i].1.entries))];
      }
      i := i + 1;
    }
  }

  class ItemCollection {
    const model: ModelKind
    var items: seq<(Key, Value)>

    /** A PHP array never repeats a key. */
    ghost predicate Valid()
      reads this
    {
      DistinctKeys(items)
    }

    /** `new ItemCollection($items)` for a collection class declaring `model`:
        `setItems` rewrites each element that is not already a model
        instance, through a by-reference loop. */
    constructor (model: ModelKind, input: Value)
      requires !IsModel(input) && Coercible(model, ArrayableOf(input))
      requires DistinctKeys(ArrayableOf(input))
      ensures this.model == model
      ensures items == SetItems(model, ArrayableOf(input))
      ensures Valid()
    {
      var src := ArrayableOf(input);
      var arr := src;
      if model != NoModel {
        arr := Coerce(model, src);
      } else {
        SetItemsCoerces(model, src);
      }
      this.model := model;
      items := arr;
    }

    /** `first()`: the first-inserted value, or null. */
    function First(): (r: Value)
      reads this
      ensures |items| == 0 ==> r == Null
      ensures |items| > 0 ==> r == items[0].1
    {
      if |items| == 0 then Null else items[0].1
    }

    function Count(): nat
      reads this
    {
      |items|
    }

    /** `empty($this->items)`. */
    predicate IsEmpty()
      reads this
    {
      IsFalsy(Arr(items))
    }

    predicate IsNotEmpty()
      reads this
    {
      !IsEmpty()
    }

    function All(): seq<(Key, Value)>
      reads this
    {
      items
    }

    /** `offsetExists`: `isset`, so a key holding null is absent. */
    predicate OffsetExists(k: Key)
      reads this
    {
      IssetKey(items, k)
    }

    /** `offsetGet`: the stored model, or null for an absent or null entry.
        The `?ItemModel` return type rejects any other stored value. */
    function OffsetGet(k: Key): (r: Value)
      reads this
      requires OffsetExists(k) ==> IsModel(Lookup(items, k).value)
      ensures ModelOrNull(r)
      ensures !OffsetExists(k) ==> r == Null
      ensures OffsetExists(k) ==> Lookup(items, k) == Some(r)
    {
      if OffsetExists(k) then Lookup(items, k).value else Null
    }

    /** `get` is `offsetGet`. */
    function Get(k: Key): (r: Value)
      reads this
      requires OffsetExists(k) ==> IsModel(Lookup(items, k).value)
      ensures r == OffsetGet(k)
    {
      OffsetGet(k)
    }

    /** `offsetSet`: `$this->items[$offset] = $value`, no coercion. */
    method OffsetSet(k: Key, v: Value)
      requires Valid()
      modifies this
      ensures items == Put(old(items), k, v)
      ensures Valid()
      ensures Lookup(items, k) == Some(v)
      ensures forall k' :: k' != k ==> Lookup(items, k') == Lookup(old(items), k')
    {
      PutDistinct(items, k, v);
      PutLookup(items, k, v);
      forall k' | k' != k ensures Lookup(Put(items, k, v), k') == Lookup(items, k') {
        PutOther(items, k, v, k');
      }
      items := Put(items, k, v);
    }

    /** `offsetUnset`: only an entry that `isset` sees is removed. */
    method OffsetUnset(k: Key)
      requires Valid()
      modifies this
      ensures IssetKey(old(items), k) ==> items == Remove(old(items), k) && Lookup(items, k) == None
      ensures !IssetKey(old(items), k) ==> items == old(items)
      ensures forall k' :: k' != k ==> Lookup(items, k') == Lookup(old(items), k')
      ensures Valid()
    {
      if OffsetExists(k) {
        forall k' | k' != k ensures Lookup(Remove(items, k), k') == Lookup(items, k') {
          RemoveLookup(items, k, k');
        }
        RemoveLookup(items, k, k);
        RemoveDistinct(items, k);
        items := Remove(items, k);
      }
    }

    /** `pluck($valueKey, $key)`: a new unmodelled collection. */
    method Pluck(name: string, key: Option<string>) returns (r: ItemCollection)
      requires forall j :: 0 <= j < |items| ==> Pluckable(items[j].1, name)
      ensures fresh(r) && r.model == NoModel && r.Valid()
      ensures r.items == PluckResult(items, name, key)
    {
      var k := InitialKey(key);
      var out: seq<(Key, Value)> := [];
      var i := 0;
      while i < |items|
        invariant 0 <= i <= |items|
        invariant PluckFrom(items, name, k, i, out) == PluckFrom(items, name, InitialKey(key), 0, [])
      {
        var current := if k.Some? then k.value else IntKey(i);
        k := Some(current);
        out := Put(out, current, Resolve(ShapeOf(items[i].1), name));
        i := i + 1;
      }
      PluckedArray(items, name, key);
      r := new ItemCollection(NoModel, Arr(out));
    }

    /** `unique()`: a new unmodelled collection of `array_unique($items)`. */
    method Unique() returns (r: ItemCollection)
      requires Valid() && AllStringable(items)
      ensures fresh(r) && r.model == NoModel && r.Valid()
      ensures r.items == UniqueItems(items)
    {
      var u := UniqueItems(items);
      UniqueDistinctKeys(items);
      SetItemsCoerces(NoModel, u);
      r := new ItemCollection(NoModel, Arr(u));
    }

    /** `raw()`: built in a loop with `$raw[$key] = ...`. */
    method Raw() returns (r: seq<(Key, Value)>)
      requires Valid()
      ensures r == RawItems(items)
    {
      r := [];
      var i := 0;
      while i < |items|
        invariant 0 <= i <= |items|
        invariant |r| == i
        invariant forall j :: 0 <= j < i ==> r[j] == (items[j].0, RawValue(items[j].1))
      {
        var key := items[i].0;
        var item := items[i].1;
        var value;
        if item.CollectionObj? {
          value := Arr(RawItems(item.collection.items));
        } else if IsModel(item) {
          value := Arr(RawOf(item));
        } else {
          value := item;
        }
        assert value == RawValue(item);
        assert !Has(r, key) by {
          forall j | 0 <= j < |r| ensures r[j].0 != key {
            assert r[j].0 == items[j].0;
          }
        }
        PutShape(r, key, value);
        r := Put(r, key, value);
        i := i + 1;
      }
    }
  }

  /** `array_unique` keeps a subset of the entries, so keys stay distinct. */
  lemma UniqueDistinctKeys(items: seq<(Key, Value)>)
    requires AllStringable(items) && DistinctKeys(items)
    ensures DistinctKeys(UniqueItems(items))
  {
    var u := UniqueItems(items);
    UniqueForms(items);
    forall i, j | 0 <= i < j < |u| ensures u[i].0 != u[j].0 {
      assert StringForm(u[i].1) != StringForm(u[j].1);
      assert u[i] in items && u[j] in items;
      var a :| 0 <= a < |items| && items[a] == u[i];
      var b :| 0 <= b < |items| && items[b] == u[j];
      assert a != b;
    }
  }

  // ------------------------------------------------------------- lemmas

  /** `count()` is 0 exactly when `isEmpty()`, `isNotEmpty()` is its
      negation, and an empty collection's `first()` is null. */
  lemma Emptiness(c: ItemCollection)
    ensures c.Count() == 0 <==> c.IsEmpty()
    ensures c.IsNotEmpty() <==> !c.IsEmpty()
    ensures c.IsEmpty() ==> c.First() == Null
    ensures !c.IsEmpty() ==> c.First() == c.All()[0].1
  {
  }

  /** In a modelled collection every element is a model, so `first()` is null
      exactly when the collection is empty. */
  lemma FirstOfModelled(c: ItemCollection)
    requires c.model != NoModel
    requires forall i :: 0 <= i < |c.items| ==> IsInstance(c.model, c.items[i].1)
    ensures c.First() == Null <==> c.IsEmpty()
  {
  }

  /** A modelled collection keeps the keys, their order and the count of its
      input, and every element ends up a model instance. */
  lemma ModelledConstruction(model: ModelKind, x: seq<(Key, Value)>, i: int)
    requires model != NoModel && Coercible(model, x) && 0 <= i < |x|
    ensures |SetItems(model, x)| == |x|
    ensures SetItems(model, x)[i].0 == x[i].0
    ensures IsInstance(model, SetItems(model, x)[i].1) && IsModel(SetItems(model, x)[i].1)
    ensures IsInstance(model, x[i].1) ==> SetItems(model, x)[i].1 == x[i].1
  {
    assert SetItems(model, x)[i].1 == CoerceItem(model, x[i].1);
  }
}
