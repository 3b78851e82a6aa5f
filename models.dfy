/** The typed entities built from a decoded geocoding response (Address,
    Geometry, Component, all carrying the ItemModel `raw` payload), the PHP
    values they are built from and hold, and the model coercion that
    ItemCollection applies at construction. The entities and collections
    contain each other (an Address owns a ComponentCollection, a collection
    holds Addresses), so their datatypes are declared together here. */
module Models {
  import opened PhpArrays

  /** The `$model` a collection class declares: none for ItemCollection,
      Address for AddressCollection, Component for ComponentCollection. */
  datatype ModelKind = NoModel | AddressModel | ComponentModel

  /** A PHP value as this library handles it: the decoded JSON scalars, PHP
      arrays (JSON arrays and objects alike), and the library's own objects. */
  datatype Value =
    | Null
    | Bool(b: bool)
    | Num(n: real)
    | Str(s: string)
    | Arr(entries: seq<(Key, Value)>)
    | AddressObj(address: Address)
    | ComponentObj(component: Component)
    | GeometryObj(geometry: Geometry)
    | CollectionObj(collection: Collection)

  /** Component: `raw` is the ItemModel payload; the other fields hold
      exactly what the constructor's `??` expressions produced. */
  datatype Component = Component(raw: seq<(Key, Value)>, longName: Value, shortName: Value, types: Value)

  /** Geometry; `locationType` is the source's `type` property. */
  datatype Geometry = Geometry(
    raw: seq<(Key, Value)>,
    locationType: Value,
    latitude: Value,
    longitude: Value,
    bounds: Value,
    viewport: Value)

  datatype Address = Address(
    raw: seq<(Key, Value)>,
    formatted: Value,
    partialMatch: Value,
    placeId: Value,
    types: Value,
    components: Collection,
    geometry: Geometry)

  /** The state of an ItemCollection object: its declared model and `$items`. */
  datatype Collection = Collection(model: ModelKind, items: seq<(Key, Value)>)

  predicate IsModel(v: Value) {
    v.AddressObj? || v.ComponentObj? || v.GeometryObj?
  }

  predicate IsObject(v: Value) {
    IsModel(v) || v.CollectionObj?
  }

  /** `getRaw()` of a model object. */
  function RawOf(v: Value): seq<(Key, Value)>
    requires IsModel(v)
  {
    match v
    case AddressObj(a) => a.raw
    case ComponentObj(c) => c.raw
    case GeometryObj(g) => g.raw
  }

  /** PHP's `empty($v)` and `!$v`. */
  predicate IsFalsy(v: Value) {
    match v
    case Null => true
    case Bool(b) => !b
    case Num(n) => n == 0.0
    case Str(s) => s == "" || s == "0"
    case Arr(e) => |e| == 0
    case _ => false
  }

  /** The values with a definite string form (arrays convert with a notice,
      objects without `__toString` not at all, and non-integral floats
      depend on PHP's float formatting). */
  predicate HasStringForm(v: Value) {
    v.Null? || v.Bool? || v.Str? || (v.Num? && v.n == v.n.Floor as real)
  }

  /** `(string) $v` and string interpolation. */
  function StringForm(v: Value): string
    requires HasStringForm(v)
  {
    match v
    case Null => ""
    case Bool(b) => if b then "1" else ""
    case Str(s) => s
    case Num(n) => IntToString(n.Floor)
  }

  /** `isset($a[$k])`: present and not null. */
  predicate IssetKey(a: seq<(Key, Value)>, k: Key) {
    Lookup(a, k).Some? && Lookup(a, k).value != Null
  }

  predicate Isset(a: seq<(Key, Value)>, k: string) {
    IssetKey(a, StrKey(k))
  }

  /** `$a[$k] ?? $default`. */
  function Coalesce(a: seq<(Key, Value)>, k: string, default: Value): (r: Value)
    ensures Isset(a, k) ==> r == Lookup(a, StrKey(k)).value
    ensures !Isset(a, k) ==> r == default
  {
    match Lookup(a, StrKey(k))
    case Some(v) => if v.Null? then default else v
    case None => default
  }

  // ------------------------------------------------------------ Component

  /** `new Component($item)`. Never fails; every missing or null field takes
      its default. */
  function NewComponent(raw: seq<(Key, Value)>): (c: Component)
    ensures c.raw == raw
    ensures Isset(raw, "long_name") ==> c.longName == Lookup(raw, StrKey("long_name")).value
    ensures !Isset(raw, "long_name") ==> c.longName == Str("")
    ensures Isset(raw, "short_name") ==> c.shortName == Lookup(raw, StrKey("short_name")).value
    ensures !Isset(raw, "short_name") ==> c.shortName == Str("")
    ensures Isset(raw, "types") ==> c.types == Lookup(raw, StrKey("types")).value
    ensures !Isset(raw, "types") ==> c.types == Arr([])
  {
    Component(
      raw,
      Coalesce(raw, "long_name", Str("")),
      Coalesce(raw, "short_name", Str("")),
      Coalesce(raw, "types", Arr([])))
  }

  // ------------------------------------------------------------- Geometry

  const ROOFTOP: string := "ROOFTOP"
  const RANGE_INTERPOLATED: string := "RANGE_INTERPOLATED"
  const GEOMETRIC_CENTER: string := "GEOMETRIC_CENTER"
  const APPROXIMATE: string := "APPROXIMATE"

  /** `Geometry::getRelevancyTypes()`: the precision levels, most precise first. */
  function RelevancyTypes(): (r: seq<string>)
    ensures r == [ROOFTOP, RANGE_INTERPOLATED, GEOMETRIC_CENTER, APPROXIMATE]
    ensures |r| == 4
    ensures forall i, j :: 0 <= i < j < |r| ==> r[i] != r[j]
    ensures ROOFTOP in r && RANGE_INTERPOLATED in r && GEOMETRIC_CENTER in r && APPROXIMATE in r
  {
    [ROOFTOP, RANGE_INTERPOLATED, GEOMETRIC_CENTER, APPROXIMATE]
  }

  /** `Geometry::getTypes()`: the same list. */
  function Types(): (r: seq<string>)
    ensures r == RelevancyTypes()
  {
    RelevancyTypes()
  }

  /** The PHP array these static methods return. */
  function TypesValue(): Value {
    Arr(Reindex([Str(ROOFTOP), Str(RANGE_INTERPOLATED), Str(GEOMETRIC_CENTER), Str(APPROXIMATE)]))
  }

  /** `$item['location']['lat']` is only read when `location` is not an object
      (a decoded payload never holds one). */
  predicate GeometryBuildable(raw: seq<(Key, Value)>) {
    Lookup(raw, StrKey("location")).Some? ==> !IsObject(Lookup(raw, StrKey("location")).value)
  }

  /** The `location` array, if the payload has one. */
  function LocationOf(raw: seq<(Key, Value)>): Option<seq<(Key, Value)>> {
    var l := Lookup(raw, StrKey("location"));
    if l.Some? && l.value.Arr? then Some(l.value.entries) else None
  }

  /** `$item['location'][$k] ?? 0.0`. */
  function Coordinate(raw: seq<(Key, Value)>, k: string): (r: Value)
    requires GeometryBuildable(raw)
    ensures LocationOf(raw).Some? && Isset(LocationOf(raw).value, k) ==> r == Lookup(LocationOf(raw).value, StrKey(k)).value
    ensures !(LocationOf(raw).Some? && Isset(LocationOf(raw).value, k)) ==> r == Num(0.0)
  {
    match LocationOf(raw)
    case Some(loc) => Coalesce(loc, k, Num(0.0))
    case None => Num(0.0)
  }

  /** `new Geometry($item)`. */
  function NewGeometry(raw: seq<(Key, Value)>): (g: Geometry)
    requires GeometryBuildable(raw)
    ensures g.raw == raw
    ensures Isset(raw, "location_type") ==> g.locationType == Lookup(raw, StrKey("location_type")).value
    ensures !Isset(raw, "location_type") ==> g.locationType == Str("")
    ensures g.latitude == Coordinate(raw, "lat") && g.longitude == Coordinate(raw, "lng")
    ensures Isset(raw, "bounds") ==> g.bounds == Lookup(raw, StrKey("bounds")).value
    ensures !Isset(raw, "bounds") ==> g.bounds == Arr([])
    ensures Isset(raw, "viewport") ==> g.viewport == Lookup(raw, StrKey("viewport")).value
    ensures !Isset(raw, "viewport") ==> g.viewport == Arr([])
  {
    Geometry(
      raw,
      Coalesce(raw, "location_type", Str("")),
      Coordinate(raw, "lat"),
      Coordinate(raw, "lng"),
      Coalesce(raw, "bounds", Arr([])),
      Coalesce(raw, "viewport", Arr([])))
  }

  /** A viewport corner `['lat' => x, 'lng' => y]` with numeric coordinates. */
  function Corner(viewport: Value, name: string): Option<(real, real)> {
    if !viewport.Arr? then None
    else
      var corner := Lookup(viewport.entries, StrKey(name));
      if corner.None? || !corner.value.Arr? then None
      else
        var lat := Lookup(corner.value.entries, StrKey("lat"));
        var lng := Lookup(corner.value.entries, StrKey("lng"));
        if lat.Some? && lat.value.Num? && lng.Some? && lng.value.Num?
        then Some((lat.value.n, lng.value.n))
        else None
  }

  /** The viewport has both corners, so `isInViewport` can read them. */
  predicate HasViewportBox(viewport: Value) {
    Corner(viewport, "southwest").Some? && Corner(viewport, "northeast").Some?
  }

  /** `Geometry::isInViewport`: inclusive on all four sides. */
  function IsInViewport(g: Geometry, latitude: real, longitude: real): (r: bool)
    requires HasViewportBox(g.viewport)
    ensures r <==>
      var sw := Corner(g.viewport, "southwest").value;
      var ne := Corner(g.viewport, "northeast").value;
      sw.0 <= latitude <= ne.0 && sw.1 <= longitude <= ne.1
  {
    var sw := Corner(g.viewport, "southwest").value;
    var ne := Corner(g.viewport, "northeast").value;
    latitude >= sw.0 && latitude <= ne.0 && longitude >= sw.1 && longitude <= ne.1
  }

  /** `Geometry::getLocation()`. */
  function Location(g: Geometry): (r: Value)
    ensures r.Arr? && |r.entries| == 2
    ensures Lookup(r.entries, StrKey("lat")) == Some(g.latitude)
    ensures Lookup(r.entries, StrKey("lng")) == Some(g.longitude)
  {
    var e := [(StrKey("lat"), g.latitude), (StrKey("lng"), g.longitude)];
    IndexOfAt(e, StrKey("lng"), 1);
    Arr(e)
  }

  // ------------------------------------------------------------- Address

  /** `$item['address_components'] ?? []`. */
  function ComponentsArg(raw: seq<(Key, Value)>): Value {
    Coalesce(raw, "address_components", Arr([]))
  }

  /** `$item['geometry'] ?? []`. */
  function GeometryArg(raw: seq<(Key, Value)>): Value {
    Coalesce(raw, "geometry", Arr([]))
  }

  /** `getArrayableItems`: an array as it is, a collection's `all()`, and
      the `(array)` cast of anything else (null gives `[]`, a scalar a
      one-element list). Casting a model object is not modelled. */
  function ArrayableOf(v: Value): (r: seq<(Key, Value)>)
    requires !IsModel(v)
    ensures v.Arr? ==> r == v.entries
    ensures v.CollectionObj? ==> r == v.collection.items
    ensures v.Null? ==> r == []
    ensures !v.Arr? && !v.CollectionObj? && !v.Null? ==> r == [(IntKey(0), v)]
  {
    match v
    case Arr(e) => e
    case CollectionObj(c) => c.items
    case Null => []
    case _ => [(IntKey(0), v)]
  }

  /** `new Address($item)` runs without a TypeError: the components are an
      array of arrays or Components, and the geometry is an array. */
  predicate AddressBuildable(raw: seq<(Key, Value)>) {
    && !IsModel(ComponentsArg(raw))
    && (forall i :: 0 <= i < |ArrayableOf(ComponentsArg(raw))| ==>
          ArrayableOf(ComponentsArg(raw))[i].1.ComponentObj? ||
          ArrayableOf(ComponentsArg(raw))[i].1.Arr?)
    && GeometryArg(raw).Arr?
    && GeometryBuildable(GeometryArg(raw).entries)
  }

  /** An Address as its constructor leaves it: a ComponentCollection of Components. */
  predicate ValidAddress(a: Address) {
    a.components.model == ComponentModel &&
    forall i :: 0 <= i < |a.components.items| ==> a.components.items[i].1.ComponentObj?
  }

  /** `new Address($item)`. */
  function NewAddress(raw: seq<(Key, Value)>): (a: Address)
    requires AddressBuildable(raw)
    ensures a.raw == raw
    ensures Isset(raw, "formatted_address") ==> a.formatted == Lookup(raw, StrKey("formatted_address")).value
    ensures !Isset(raw, "formatted_address") ==> a.formatted == Str("")
    ensures Isset(raw, "partial_match") ==> a.partialMatch == Lookup(raw, StrKey("partial_match")).value
    ensures !Isset(raw, "partial_match") ==> a.partialMatch == Bool(false)
    ensures Isset(raw, "place_id") ==> a.placeId == Lookup(raw, StrKey("place_id")).value
    ensures !Isset(raw, "place_id") ==> a.placeId == Str("")
    ensures Isset(raw, "types") ==> a.types == Lookup(raw, StrKey("types")).value
    ensures !Isset(raw, "types") ==> a.types == Arr([])
    ensures a.components == Collection(ComponentModel, SetItems(ComponentModel, ArrayableOf(ComponentsArg(raw))))
    ensures |a.components.items| == |ArrayableOf(ComponentsArg(raw))|
    ensures ValidAddress(a)
    ensures a.geometry == NewGeometry(GeometryArg(raw).entries)
    decreases 1, 2, 0
  {
    Address(
      raw,
      Coalesce(raw, "formatted_address", Str("")),
      Coalesce(raw, "partial_match", Bool(false)),
      Coalesce(raw, "place_id", Str("")),
      Coalesce(raw, "types", Arr([])),
      Collection(ComponentModel, SetItems(ComponentModel, ArrayableOf(ComponentsArg(raw)))),
      NewGeometry(GeometryArg(raw).entries))
  }

  /** `Address::isInViewport` delegates to the geometry. */
  function AddressIsInViewport(a: Address, latitude: real, longitude: real): (r: bool)
    requires HasViewportBox(a.geometry.viewport)
    ensures r == IsInViewport(a.geometry, latitude, longitude)
  {
    IsInViewport(a.geometry, latitude, longitude)
  }

  // ------------------------------------------- ItemCollection model binding

  function Rank(m: ModelKind): nat {
    match m
    case NoModel => 0
    case ComponentModel => 1
    case AddressModel => 2
  }

  /** `$item instanceof $this->model`; with no model nothing is coerced. */
  predicate IsInstance(model: ModelKind, v: Value) {
    match model
    case NoModel => true
    case AddressModel => v.AddressObj?
    case ComponentModel => v.ComponentObj?
  }

  /** `new $this->model($item)` does not raise a TypeError for this element. */
  predicate CoercibleItem(model: ModelKind, v: Value) {
    IsInstance(model, v) || (v.Arr? && (model == AddressModel ==> AddressBuildable(v.entries)))
  }

  predicate Coercible(model: ModelKind, items: seq<(Key, Value)>) {
    forall i :: 0 <= i < |items| ==> CoercibleItem(model, items[i].1)
  }

  /** The per-collection factory that stands for `new $this->model($item)`. */
  function Make(model: ModelKind, raw: seq<(Key, Value)>): (v: Value)
    requires model != NoModel
    requires model == AddressModel ==> AddressBuildable(raw)
    ensures IsInstance(model, v) && IsModel(v) && RawOf(v) == raw
    ensures model == AddressModel ==> ValidAddress(v.address)
    decreases Rank(model), 0, 0
  {
    if model == AddressModel then AddressObj(NewAddress(raw)) else ComponentObj(NewComponent(raw))
  }

  /** One step of `setItems`' by-reference loop. */
  function CoerceItem(model: ModelKind, v: Value): (r: Value)
    requires CoercibleItem(model, v)
    ensures IsInstance(model, r)
    ensures IsInstance(model, v) ==> r == v
    ensures !IsInstance(model, v) ==> IsModel(r) && RawOf(r) == v.entries
    decreases Rank(model), 0, 1
  {
    if IsInstance(model, v) then v else Make(model, v.entries)
  }

  /** `setItems`: every element coerced in place; keys and order kept. */
  function SetItems(model: ModelKind, items: seq<(Key, Value)>): (r: seq<(Key, Value)>)
    requires Coercible(model, items)
    ensures |r| == |items|
    ensures forall i :: 0 <= i < |items| ==> r[i].0 == items[i].0
    ensures forall i :: 0 <= i < |items| ==> r[i].1 == CoerceItem(model, items[i].1)
    decreases Rank(model), 1, |items|
  {
    seq(|items|, i requires 0 <= i < |items| => (items[i].0, CoerceItem(model, items[i].1)))
  }

  // -------------------------------------------------------------- lemmas

  /** The ItemModel contract: every entity's `getRaw()` is its constructor
      argument, unchanged. */
  lemma RawIsConstructorArgument(raw: seq<(Key, Value)>)
    ensures NewComponent(raw).raw == raw
    ensures GeometryBuildable(raw) ==> NewGeometry(raw).raw == raw
    ensures AddressBuildable(raw) ==> NewAddress(raw).raw == raw
  {
  }

  /** With a declared model, `setItems` leaves only instances of it, keeps the
      instances it was given, and keeps every key in place. */
  lemma {:induction false} SetItemsCoerces(model: ModelKind, items: seq<(Key, Value)>)
    requires Coercible(model, items)
    ensures |SetItems(model, items)| == |items|
    ensures forall i :: 0 <= i < |items| ==> SetItems(model, items)[i].0 == items[i].0
    ensures forall i :: 0 <= i < |items| ==> IsInstance(model, SetItems(model, items)[i].1)
    ensures forall i :: 0 <= i < |items| && IsInstance(model, items[i].1) ==> SetItems(model, items)[i] == items[i]
    ensures model == NoModel ==> SetItems(model, items) == items
  {
    var r := SetItems(model, items);
    forall i | 0 <= i < |items| && IsInstance(model, items[i].1)
      ensures r[i] == items[i]
    {
      assert r[i].1 == CoerceItem(model, items[i].1);
    }
  }

  /** An address array with no geometry gets type '' and coordinates 0.0. */
  lemma AddressWithoutGeometry(raw: seq<(Key, Value)>)
    requires AddressBuildable(raw) && !Isset(raw, "geometry")
    ensures NewAddress(raw).geometry.locationType == Str("")
    ensures NewAddress(raw).geometry.latitude == Num(0.0)
    ensures NewAddress(raw).geometry.longitude == Num(0.0)
    ensures NewAddress(raw).geometry.raw == []
  {
    assert GeometryArg(raw) == Arr([]);
    var e: seq<(Key, Value)> := [];
    assert Lookup(e, StrKey("location")) == None;
    assert Lookup(e, StrKey("location_type")) == None;
  }

  /** An empty array builds an Address with every field defaulted. */
  lemma EmptyAddress()
    ensures AddressBuildable([])
    ensures var a := NewAddress([]);
      a.formatted == Str("") && a.partialMatch == Bool(false) && a.placeId == Str("") &&
      a.types == Arr([]) && a.components == Collection(ComponentModel, []) &&
      a.geometry.locationType == Str("") && a.geometry.latitude == Num(0.0) && a.geometry.longitude == Num(0.0) &&
      a.geometry.bounds == Arr([]) && a.geometry.viewport == Arr([])
  {
    var e: seq<(Key, Value)> := [];
    assert Lookup(e, StrKey("address_components")) == None;
    assert Lookup(e, StrKey("geometry")) == None;
    assert ComponentsArg(e) == Arr([]) && GeometryArg(e) == Arr([]);
    assert AddressBuildable(e);
    AddressWithoutGeometry(e);
  }

  /** An Address reports the coordinates found under `geometry.location`. */
  lemma AddressCoordinates(raw: seq<(Key, Value)>, g: seq<(Key, Value)>)
    requires AddressBuildable(raw)
    requires Lookup(raw, StrKey("geometry")) == Some(Arr(g))
    ensures NewAddress(raw).geometry == NewGeometry(g)
    ensures NewAddress(raw).geometry.latitude == Coordinate(g, "lat")
    ensures NewAddress(raw).geometry.longitude == Coordinate(g, "lng")
  {
    assert GeometryArg(raw) == Arr(g);
  }

  /** A viewport box from (10,10) to (20,20): its centre and corners are
      inside, points beyond an edge are not. */
  lemma ViewportExample(g: Geometry)
    requires g.viewport == Arr([
      (StrKey("southwest"), Arr([(StrKey("lat"), Num(10.0)), (StrKey("lng"), Num(10.0))])),
      (StrKey("northeast"), Arr([(StrKey("lat"), Num(20.0)), (StrKey("lng"), Num(20.0))]))])
    ensures HasViewportBox(g.viewport)
    ensures IsInViewport(g, 15.0, 15.0) && IsInViewport(g, 10.0, 10.0) && IsInViewport(g, 20.0, 20.0)
    ensures !IsInViewport(g, 9.0, 15.0) && !IsInViewport(g, 15.0, 25.0)
  {
    var sw := Arr([(StrKey("lat"), Num(10.0)), (StrKey("lng"), Num(10.0))]);
    var ne := Arr([(StrKey("lat"), Num(20.0)), (StrKey("lng"), Num(20.0))]);
    assert Lookup(g.viewport.entries, StrKey("southwest")) == Some(sw);
    assert Lookup(g.viewport.entries, StrKey("northeast")) == Some(ne);
    assert Lookup(sw.entries, StrKey("lat")) == Some(Num(10.0));
    assert Lookup(sw.entries, StrKey("lng")) == Some(Num(10.0));
    assert Lookup(ne.entries, StrKey("lat")) == Some(Num(20.0));
    assert Lookup(ne.entries, StrKey("lng")) == Some(Num(20.0));
    assert Corner(g.viewport, "southwest") == Some((10.0, 10.0));
    assert Corner(g.viewport, "northeast") == Some((20.0, 20.0));
  }
}
