# Google Geocoding API client: response model

This project is a Dafny model of the part of the PHP library
`mcmatters/google-geocoding-api` that does not touch the network:

- the collections (ItemCollection, AddressCollection, ComponentCollection);
- the models (Address, Geometry, Component and their ItemModel base);
- the `UrlBuilder` that produces the request URL;
- the decisions `HttpClient` makes around its HTTP call: validating the API
  key, merging it into the query, mapping a response status to an
  exception, and turning a decoded payload into an AddressCollection.

PHP values are one datatype, `Models.Value`. A PHP array is an
insertion-ordered association list `seq<(Key, Value)>` (module `PhpArrays`).
That module gives the language's array semantics:

- `$a[$k] = $v` overwrites in place or appends;
- `unset` removes the entry;
- `$a + $b` keeps the left side's entries;
- `array_merge` renumbers integer keys;
- `$r[] = $v` appends under the next integer key.

The PHP operators the library relies on are written out: `??`, `empty()`,
`isset` and the `(string)` cast.

A collection whose items the code updates in place is a class:
`ItemCollections.ItemCollection`, with `offsetSet` and `offsetUnset`. So are
`Urls.UrlBuilder` and `Http.HttpClient`. The source's loops are methods with
loop invariants, each proved equal to a specification function:

- `setItems`' by-reference coercion loop;
- `pluck`;
- `raw`;
- the two loops of `getExactMatch`;
- `getMatched`;
- `getComponents`;
- `buildArrayComponents`.

The properties are proved about those functions:

- `pluck` collapses to at most one entry;
- `unique` keeps the first entry of each string form and is idempotent;
- `raw` inverts the model coercion;
- full and partial matches partition the addresses;
- `getExactMatch` prefers the first full match, then the most precise
  location type;
- the URL length limit is inclusive;
- the API key overrides caller query entries;
- the status decision table.

Exceptions are values of `Errors.GeoError`, returned through `Result`.

Two things are parameters:

- the HTTP round trip and JSON decoding: `transport` in `HttpClient.Get`;
- PHP's `http_build_query`: `httpBuildQuery` in `UrlBuilder.BuildUrl`.

`pluck` is modelled as written. Its `$key = $key ?? $i` runs on every pass,
so after the first element `$key` never changes again. Every later element
overwrites the same entry. `pluck` therefore returns at most one entry: the
last element's value. The name projections built on it inherit this:

- `getFormattedNames`, `getLongNames` and `getShortNames` return one name;
- `getComponents` returns the components of the last address only.

## Model

| member | source | states |
|---|---|---|
| PhpArrays.PutLookup | src/Collections/ItemCollection.php:183 | after `$a[$k] = $v`, reading `$a[$k]` gives `v` |
| PhpArrays.PutOther | src/Collections/ItemCollection.php:183 | an assignment leaves every other key's value as it was |
| PhpArrays.PutShape | src/Collections/ItemCollection.php:183 | assigning an existing key keeps length and key order; assigning a new key appends it at the end |
| PhpArrays.PutDistinct | src/Collections/ItemCollection.php:183 | assignment never duplicates a key |
| PhpArrays.RemoveLookup | src/Collections/ItemCollection.php:194 | after `unset($a[$k])` the key is absent and every other key reads as before |
| PhpArrays.RemoveConcat | src/Collections/ItemCollection.php:194 | unset keeps the surviving entries in their order: removing from a concatenation removes from each part |
| PhpArrays.RemoveMissing | src/Collections/ItemCollection.php:194 | unsetting a key that is not there changes nothing |
| PhpArrays.RemoveDistinct | src/Collections/ItemCollection.php:194 | unset keeps the keys distinct |
| PhpArrays.UnionLookup | src/Components/HttpClient.php:61 | in `$a + $b` a key of `a` reads from `a`, and any other key reads from `b` |
| PhpArrays.MergeIntKeys | src/Collections/AddressCollection.php:61 | `array_merge` onto an array keyed 0..n-1 of an integer-keyed array appends its values under n, n+1, ... |
| PhpArrays.MergeSingle | src/Collections/AddressCollection.php:61 | `array_merge([], $a)` of an integer-keyed array is its values renumbered from 0 |
| PhpArrays.ArrayMergeKeeps | src/Collections/AddressCollection.php:61 | `array_merge` keeps keys distinct, and a property every input value has holds for every output value |
| PhpArrays.MergeEmptyFirst | src/Collections/AddressCollection.php:61 | the leading `[]` argument of `array_merge([], ...$items)` changes nothing |
| PhpArrays.NatToString | src/Components/UrlBuilder.php:119 | an integer key interpolates as a string of decimal digits with no leading zero, a single digit exactly when it is below 10 |
| PhpArrays.NatToStringValue | src/Components/UrlBuilder.php:119 | the digits an integer key interpolates as denote that integer |
| Models.Coalesce | src/Models/Component.php:74 | `$a[$k] ?? $d` is the stored value when it is set and not null, and otherwise the default |
| Models.NewComponent | src/Models/Component.php:34-98 | keeps the raw payload; each of long_name, short_name and types is the payload's value when set, else `''`, `''` and `[]` |
| Models.RelevancyTypes | src/Models/Geometry.php:128-136 | the four location types, in order ROOFTOP, RANGE_INTERPOLATED, GEOMETRIC_CENTER, APPROXIMATE, with no repeats |
| Models.Types | src/Models/Geometry.php:144-147 | `getTypes()` lists the same types as `getRelevancyTypes()` |
| Models.NewGeometry | src/Models/Geometry.php:49-204 | keeps the raw payload; location_type defaults to `''`, lat and lng come from `location` or default to 0.0, and bounds and viewport default to `[]` |
| Models.IsInViewport | src/Models/Geometry.php:66-72 | true exactly when the point lies inside the southwest/northeast box, edges included |
| Models.Location | src/Models/Geometry.php:101-107 | a two-entry array whose `lat` and `lng` are the geometry's coordinates |
| Models.ArrayableOf | src/Collections/ItemCollection.php:241-256 | an array is kept, a collection gives its items, null gives `[]`, and a scalar gives a one-element list |
| Models.NewAddress | src/Models/Address.php:52-208 | keeps the raw payload and defaults each field; its components become a ComponentCollection of Components with one entry per input component; its geometry is built from the `geometry` entry |
| Models.AddressIsInViewport | src/Models/Address.php:70-73 | delegates to the geometry's viewport test |
| Models.Make | src/Collections/ItemCollection.php:226 | `new $this->model($item)` gives an instance of the declared model whose `getRaw()` is the item |
| Models.CoerceItem | src/Collections/ItemCollection.php:225-227 | an instance of the model is kept as it is; any other element is replaced by a model built from it |
| Models.SetItems | src/Collections/ItemCollection.php:219-234 | coercion keeps length, keys and order, and coerces each element |
| Models.RawIsConstructorArgument | src/Models/ItemModel.php:24-35 | every model's `getRaw()` is exactly its constructor argument |
| Models.SetItemsCoerces | src/Collections/ItemCollection.php:223-233 | after coercion every element is an instance of the model, given instances are kept, keys stay in place, and without a model nothing changes |
| Models.AddressWithoutGeometry | src/Models/Address.php:208 | an address without geometry gets location type `''`, coordinates 0.0 and an empty raw geometry |
| Models.EmptyAddress | src/Models/Address.php:52-62 | an empty array builds an Address with every field at its default |
| Models.AddressCoordinates | src/Models/Address.php:78-89 | an address reports the latitude and longitude under `geometry.location` |
| Models.ViewportExample | src/Models/Geometry.php:66-72 | a box from (10,10) to (20,20) contains its centre and its corners, but not (9,15) or (15,25) |
| ItemCollections.Resolve | src/Collections/ItemCollection.php:85-93 | the value `pluck` takes, tried in order: an array's value for the key (even null); then a set property; then a callable method's result; otherwise null |
| ItemCollections.PluckSticks | src/Collections/ItemCollection.php:81 | once `$key` is set, every later element overwrites the same single entry |
| ItemCollections.PluckCollapses | src/Collections/ItemCollection.php:75-99 | `pluck` yields nothing for no elements, and otherwise exactly one entry: the last element's value, under 0 or the given key |
| ItemCollections.PluckedArray | src/Collections/ItemCollection.php:98 | the plucked array has distinct keys and passes through `new self` unchanged |
| ItemCollections.UniqueItems | src/Collections/ItemCollection.php:66 | `array_unique` keeps only entries of the input, each with its key |
| ItemCollections.UniqueForms | src/Collections/ItemCollection.php:66 | the result has no two entries with the same string form, and has every string form of the input |
| ItemCollections.UniqueKeepsFirst | src/Collections/ItemCollection.php:66 | an entry is kept exactly when no earlier entry has its string form |
| ItemCollections.UniqueOfDistinct | src/Collections/ItemCollection.php:66 | an array with no repeated string forms is its own `array_unique` |
| ItemCollections.UniquePrefix | src/Collections/ItemCollection.php:66 | `array_unique` keeps first-occurrence order: what it keeps of any prefix is a prefix of what it keeps of the whole |
| ItemCollections.UniqueIdempotent | src/Collections/ItemCollection.php:64-67 | applying `unique` twice gives the same items as applying it once |
| ItemCollections.UniqueDistinctKeys | src/Collections/ItemCollection.php:66 | `array_unique` keeps keys distinct |
| ItemCollections.RawItems | src/Collections/ItemCollection.php:138-153 | `raw()` keeps keys and order; it takes a nested collection's `raw()`, a model's `getRaw()`, and keeps anything else |
| ItemCollections.RawRoundTrip | src/Collections/ItemCollection.php:138-153 | building a modelled collection from arrays and taking `raw()` gives the input array back |
| ItemCollections.RawOfPlainItems | src/Collections/ItemCollection.php:147-148 | without objects `raw()` equals `all()` |
| ItemCollections.Coerce | src/Collections/ItemCollection.php:223-231 | the by-reference loop computes the coerced array |
| ItemCollections.Emptiness | src/Collections/ItemCollection.php:52-59 | `count()` is 0 exactly when `isEmpty()`; `isNotEmpty()` is its negation; `first()` is null on an empty collection and the first value otherwise |
| ItemCollections.FirstOfModelled | src/Collections/ItemCollection.php:52-59 | in a modelled collection `first()` is null exactly when the collection is empty |
| ItemCollections.ModelledConstruction | src/Collections/ItemCollection.php:36-39 | a modelled collection keeps its input's count and keys, and every element becomes a model instance |
| ItemCollections.ItemCollection.constructor | src/Collections/ItemCollection.php:36-39 | the items are the coerced input array, with distinct keys |
| ItemCollections.ItemCollection.First | src/Collections/ItemCollection.php:52-59 | the first-inserted value, or null when empty |
| ItemCollections.ItemCollection.OffsetGet | src/Collections/ItemCollection.php:170-173 | the stored model when the key is set, otherwise null; never anything else |
| ItemCollections.ItemCollection.Get | src/Collections/ItemCollection.php:130-133 | `get` returns what `offsetGet` returns |
| ItemCollections.ItemCollection.OffsetSet | src/Collections/ItemCollection.php:181-184 | the key now holds the value, every other key is unchanged, and keys stay distinct |
| ItemCollections.ItemCollection.OffsetUnset | src/Collections/ItemCollection.php:191-196 | a set key is removed; an absent or null entry is left as it is; other keys are unchanged |
| ItemCollections.ItemCollection.Pluck | src/Collections/ItemCollection.php:75-99 | a fresh unmodelled collection holding the single-entry pluck result |
| ItemCollections.ItemCollection.Unique | src/Collections/ItemCollection.php:64-67 | a fresh unmodelled collection holding `array_unique` of the items |
| ItemCollections.ItemCollection.Raw | src/Collections/ItemCollection.php:138-153 | the loop computes `raw()` of the items |
| AddressCollections.FirstFull | src/Collections/AddressCollection.php:76-79 | the position of the first address that is not a partial match, or none exactly when every address is partial |
| AddressCollections.FirstOfType | src/Collections/AddressCollection.php:81 | the first address with the given location type, which is the head of that type's bucket |
| AddressCollections.BestRanked | src/Collections/AddressCollection.php:84-88 | a position in range, found by taking the types in relevancy order |
| AddressCollections.ExactMatchIndex | src/Collections/AddressCollection.php:67-91 | a single address is returned as it is; any result is a position in range |
| AddressCollections.ExactMatchPrefersFull | src/Collections/AddressCollection.php:76-79 | with any full match present, the result is the first full match |
| AddressCollections.ExactMatchRanked | src/Collections/AddressCollection.php:84-90 | with only partial matches, the result is null exactly when no address has a known location type; otherwise it is the first address of the most precise type that occurs |
| AddressCollections.BestRankedSome | src/Collections/AddressCollection.php:84-88 | a ranked result is the first address of some type, and every more precise type is absent |
| AddressCollections.FillBuckets | src/Collections/AddressCollection.php:76-82 | the first loop returns the first full match; when there is none, it returns one bucket per location type seen, holding exactly that type's addresses in input order |
| AddressCollections.ContentsStep | src/Collections/AddressCollection.php:81 | `$addresses[$type][] = $item` appends the address to its own type's bucket and leaves the other buckets as they were |
| AddressCollections.PickRanked | src/Collections/AddressCollection.php:84-90 | the second loop returns the head of the first non-empty bucket in relevancy order, or null |
| AddressCollections.GetExactMatch | src/Collections/AddressCollection.php:67-91 | the returned address is the one the selection rule picks, and it comes from the collection |
| AddressCollections.Matched | src/Collections/AddressCollection.php:103-107 | an address is kept exactly when it is in the input and has the requested partial-match flag |
| AddressCollections.MatchedAppend | src/Collections/AddressCollection.php:103-107 | the filter distributes over concatenation, so relative order is kept |
| AddressCollections.MatchedPartition | src/Collections/AddressCollection.php:37-48 | full and partial matches together are the input as a multiset, and their counts add up |
| AddressCollections.GetMatched | src/Collections/AddressCollection.php:98-110 | a fresh AddressCollection holding the matching addresses in order, keyed 0, 1, ... |
| AddressCollections.CollectStep | src/Collections/AddressCollection.php:104-106 | one pass of the loop appends a matching address under the next integer key and leaves the array as it is otherwise |
| AddressCollections.GetFullMatched | src/Collections/AddressCollection.php:37-40 | the addresses that are not partial matches, in order |
| AddressCollections.GetPartialMatched | src/Collections/AddressCollection.php:45-48 | the partial matches, in order |
| AddressCollections.GetFormattedNames | src/Collections/AddressCollection.php:29-32 | empty for no addresses; otherwise only the last address's formatted string, under 0 |
| AddressCollections.GetComponents | src/Collections/AddressCollection.php:53-62 | a ComponentCollection that is empty for no addresses, and otherwise holds the last address's components merged with `array_merge` |
| AddressCollections.PluckedComponents | src/Collections/AddressCollection.php:57 | `pluck('getComponents')` is the last address's ComponentCollection under key 0 |
| AddressCollections.MergedComponents | src/Collections/AddressCollection.php:57-61 | the merged array has distinct keys, and the new ComponentCollection keeps it unchanged |
| AddressCollections.ComponentLists | src/Collections/AddressCollection.php:57-59 | the `all()` of each plucked collection, in order |
| AddressCollections.ComponentsMerge | src/Collections/AddressCollection.php:61 | merging Component lists gives Components under distinct keys, which coercion keeps |
| ComponentCollections.ComponentCoercion | src/Collections/ComponentCollection.php:19 | building a ComponentCollection makes every element a Component and keeps keys and count |
| ComponentCollections.GetLongNames | src/Collections/ComponentCollection.php:24-27 | empty for no components; otherwise only the last component's long name, under 0 |
| ComponentCollections.GetShortNames | src/Collections/ComponentCollection.php:32-35 | empty for no components; otherwise only the last component's short name, under 0 |
| Urls.BaseUrl | src/Components/UrlBuilder.php:130-135 | the base URL ends with the fixed `://maps.googleapis.com/maps/api/geocode/json` |
| Urls.SchemeFollowsSecure | src/Components/UrlBuilder.php:132 | the scheme is https exactly when `secure` is set, and http otherwise |
| Urls.StringComponents | src/Components/UrlBuilder.php:97-108 | a string without `:` is refused; one starting with `components=` is kept; any other is prefixed |
| Urls.StringComponentsIdempotent | src/Components/UrlBuilder.php:105-107 | a built components string is accepted again unchanged |
| Urls.ColonCheckedFirst | src/Components/UrlBuilder.php:99-103 | the `:` check comes before the prefix test, so a bare `components=` is refused |
| Urls.Pairs | src/Components/UrlBuilder.php:118-120 | one `key:value` string per array entry, in order |
| Urls.BuildArrayComponents | src/Components/UrlBuilder.php:114-123 | the loop builds `components=` followed by the pairs joined by a pipe character, or `''` for no entries |
| Urls.OneArrayComponent | src/Components/UrlBuilder.php:114-123 | a single entry gives `components=key:value` |
| Urls.ComponentsPart | src/Components/UrlBuilder.php:76-91 | empty components give `''`, a string gets the colon check and prefix, an array gives its joined pairs, and any other value is refused |
| Urls.EmptyComponents | src/Components/UrlBuilder.php:78-80 | `''`, `'0'`, `[]` and null all give no components part |
| Urls.NonEmpty | src/Components/UrlBuilder.php:63 | `array_filter` keeps exactly the non-empty strings (neither `''` nor `'0'`) |
| Urls.QueryOrder | src/Components/UrlBuilder.php:60-65 | the components part comes before the query, joined by `&`; an empty piece is dropped with no stray `&` |
| Urls.UrlFor | src/Components/UrlBuilder.php:58-70 | an accepted URL is at most 8192 characters; otherwise the error is the URL-length exception |
| Urls.LengthLimit | src/Components/UrlBuilder.php:142-147 | the limit is inclusive: a URL of exactly 8192 characters passes, and a longer one is refused |
| Urls.UrlBuilder.constructor | src/Components/UrlBuilder.php:43-51 | stores the params and components and sets the base URL from `secure` |
| Urls.UrlBuilder.BuildComponents | src/Components/UrlBuilder.php:76-91 | computes the components part |
| Urls.UrlBuilder.BuildUrl | src/Components/UrlBuilder.php:58-70 | a components error is passed on; otherwise the result is the URL for the base, the components and the encoded params, with the length check |
| Http.KeyFor | src/Components/HttpClient.php:120-140 | a string key becomes `['key' => s]`; an array is refused only when both `client` and `signature` are empty, and is otherwise kept; any other type is refused |
| Http.KeyValidation | src/Components/HttpClient.php:120-140 | a key is accepted exactly when it is a string or an array with `client` or `signature` set; refusals are InvalidArgument |
| Http.StatusError | src/Components/HttpClient.php:96-111 | each of the four error statuses maps to its exception with the given message, and every other status passes |
| Http.StatusErrorsDistinct | src/Components/HttpClient.php:98-110 | the four exceptions are distinct and carry the given message; OK and ZERO_RESULTS pass |
| Http.MissingErrorMessage | src/Components/HttpClient.php:69 | an error payload without `error_message` raises with the empty message |
| Http.Respond | src/Components/HttpClient.php:58-86 | a successful response is always an AddressCollection |
| Http.ResponseShapes | src/Components/HttpClient.php:65-85 | empty data and ZERO_RESULTS give an empty collection; a failing status gives its exception; a passing status gives one Address per result, keys kept |
| Http.KeyWins | src/Components/HttpClient.php:61 | in the sent query the API key's entries override the caller's, and the caller's other entries pass through |
| Http.StringKeySent | src/Components/HttpClient.php:61 | with a string key, the request always carries that key |
| Http.HttpClient.Init | src/Components/HttpClient.php:41-48 | the client starts with no key entries |
| Http.HttpClient.SetKey | src/Components/HttpClient.php:120-140 | an accepted key is stored as its key entries; a refused key returns the error and leaves the key unchanged |
| Http.HttpClient.Get | src/Components/HttpClient.php:58-72 | sends `key + query`; returns the status exception or a fresh AddressCollection with the response's items |
| Http.HttpClient.GetResponseResults | src/Components/HttpClient.php:79-86 | ZERO_RESULTS gives an empty AddressCollection; otherwise the results cast to an array and coerced to Addresses |
| Http.NewHttpClient | src/Components/HttpClient.php:41-48 | a refused key raises before any client exists; an accepted one is stored |

## Left out

- The HTTP request and JSON decoding: `HttpClient.Get` receives them as the `transport` parameter, and the HTTP client object the constructor creates is not modelled.
- `http_build_query` is the `httpBuildQuery` parameter of `UrlBuilder.BuildUrl`, because its percent-encoding rules are outside this library.
- `mb_strlen` counts characters; the model counts the elements of a `seq<char>`, with no encoding.
- GeoCoder.php (the facade that wires HttpClient and UrlBuilder together) is not part of this model, and neither are the tests.
- Getter return-type errors under strict types are not modelled as exceptions:
  - `getExactMatch` requires `Typed` addresses (a bool partial-match flag, a string location type);
  - `HttpClient.Get` requires a `PayloadWellFormed` payload;
  - the collections' constructor requires coercible items.
- `checkResponseStatus` takes `string` parameters: a non-string status or message would be a TypeError; `PayloadWellFormed` requires both to be strings.
- PHP method names are case-insensitive and numeric string keys become integer keys; both are left out, and keys are taken as given.
- Floats are reals. Float-to-string formatting is left out, so only integral numbers have a string form; the int/float distinction is not kept.
- `pluck` with a method name that needs arguments (`isInViewport`, `__construct`) is excluded by a precondition, because PHP raises an ArgumentCountError there.
- `pluck` over elements that are collections is excluded by a precondition to keep the model simple; PHP would read the nested collection's protected `$items` or call its public methods and store the result.
- Nested collections (an Address's ComponentCollection) are held by value, so aliasing between objects is not modelled.
- `get`/`offsetGet` of a stored value that is not a model would be a return-type TypeError; a precondition excludes it.
- `getModel`, `getIterator`, Traversables and `(array)` casts of objects are left out.
- `unique` is modelled for elements with a string form; PHP's comparison of arrays and objects there is left out.
- `offsetSet` with a null offset (`$c[] = $v`) is left out.
- The PHP notices and warnings that some inputs raise are not modelled.
- `Urls.ComponentsPart`: an array filter whose values have no string form (arrays, objects, non-integral floats) is excluded by a precondition, because PHP's conversion there emits a notice, raises, or depends on float formatting.
- The `UrlBuilder` constructor's defaults (`$components = []`, `$secure = true`) are not modelled: Dafny's constructor takes all three arguments.
- `ItemCollections.ItemCollection.Pluck`: its contract names `PluckResult`; that this is what the source's loop computes is stated by `PluckCollapses` and `PluckedArray`.
