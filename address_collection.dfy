/** AddressCollection: an ItemCollection whose model is Address, with
    exact-match disambiguation, the full/partial partition and the
    flattened projections. Its methods take the collection object. */
module AddressCollections {
  import opened PhpArrays
  import opened Models
  import opened ItemCollections

  predicate AllAddresses(items: seq<(Key, Value)>) {
    forall i :: 0 <= i < |items| ==> items[i].1.AddressObj?
  }

  /** Under strict types `isPartialMatch()` must return a bool and
      `getGeometry()->getType()` a string. */
  predicate Typed(a: Address) {
    a.partialMatch.Bool? && a.geometry.locationType.Str?
  }

  predicate AllTyped(items: seq<(Key, Value)>) {
    AllAddresses(items) && forall i :: 0 <= i < |items| ==> Typed(items[i].1.address)
  }

  /** `isPartialMatch() === false`. */
  predicate IsFull(a: Address) {
    a.partialMatch == Bool(false)
  }

  function TypeName(a: Address): string
    requires Typed(a)
  {
    a.geometry.locationType.s
  }

  // --------------------------------------------------------- exact match

  /** The first address that is not a partial match. */
  function FirstFull(items: seq<(Key, Value)>): (r: Option<nat>)
    requires AllTyped(items)
    ensures r.Some? ==> r.value < |items| && IsFull(items[r.value].1.address)
    ensures r.Some? ==> forall j :: 0 <= j < r.value ==> !IsFull(items[j].1.address)
    ensures r.None? <==> forall j :: 0 <= j < |items| ==> !IsFull(items[j].1.address)
  {
    if |items| == 0 then None
    else if IsFull(items[0].1.address) then Some(0)
    else
      assert forall j :: 0 <= j < |items[1..]| ==> items[1..][j] == items[j + 1];
      match FirstFull(items[1..])
      case None => None
      case Some(i) => Some(i + 1)
  }

  lemma FirstFullAt(items: seq<(Key, Value)>, i: nat)
    requires AllTyped(items) && i < |items| && IsFull(items[i].1.address)
    requires forall j :: 0 <= j < i ==> !IsFull(items[j].1.address)
    ensures FirstFull(items) == Some(i)
  {
  }

  /** The first address whose geometry has location type `t`: the head of
      the bucket `$addresses[t]`. */
  function FirstOfType(items: seq<(Key, Value)>, t: string): (r: Option<nat>)
    requires AllTyped(items)
    ensures r.Some? ==> r.value < |items| && TypeName(items[r.value].1.address) == t
    ensures r.Some? ==> forall j :: 0 <= j < r.value ==> TypeName(items[j].1.address) != t
    ensures r.None? <==> forall j :: 0 <= j < |items| ==> TypeName(items[j].1.address) != t
  {
    if |items| == 0 then None
    else if TypeName(items[0].1.address) == t then Some(0)
    else
      assert forall j :: 0 <= j < |items[1..]| ==> items[1..][j] == items[j + 1];
      match FirstOfType(items[1..], t)
      case None => None
      case Some(i) => Some(i + 1)
  }

  /** The head of the first non-empty bucket, taking the types in order. */
  function BestRanked(items: seq<(Key, Value)>, types: seq<string>): (r: Option<nat>)
    requires AllTyped(items)
    ensures r.Some? ==> r.value < |items|
    decreases |types|
  {
    if |types| == 0 then None
    else match FirstOfType(items, types[0])
      case Some(i) => Some(i)
      case None => BestRanked(items, types[1..])
  }

  lemma {:induction false} BestRankedAt(items: seq<(Key, Value)>, types: seq<string>, k: nat)
    requires AllTyped(items) && k < |types|
    requires forall k' :: 0 <= k' < k ==> FirstOfType(items, types[k']).None?
    requires FirstOfType(items, types[k]).Some?
    ensures BestRanked(items, types) == FirstOfType(items, types[k])
    decreases k
  {
    if k > 0 {
      assert forall k' :: 0 <= k' < k - 1 ==> types[1..][k'] == types[k' + 1];
      BestRankedAt(items, types[1..], k - 1);
    }
  }

  lemma {:induction false} BestRankedNone(items: seq<(Key, Value)>, types: seq<string>)
    requires AllTyped(items)
    ensures BestRanked(items, types).None? <==>
      forall k :: 0 <= k < |types| ==> FirstOfType(items, types[k]).None?
    decreases |types|
  {
    if |types| > 0 {
      assert forall k :: 0 <= k < |types[1..]| ==> types[1..][k] == types[k + 1];
      BestRankedNone(items, types[1..]);
    }
  }

  /** Which element `getExactMatch` returns, by position. */
  function ExactMatchIndex(items: seq<(Key, Value)>): (r: Option<nat>)
    requires AllTyped(items)
    ensures r.Some? ==> r.value < |items|
    ensures |items| == 1 ==> r == Some(0)
  {
    if |items| == 1 then Some(0)
    else match FirstFull(items)
      case Some(i) => Some(i)
      case None => BestRanked(items, RelevancyTypes())
  }

  /** Away from the single-element case, a full match wins: the first one. */
  lemma ExactMatchPrefersFull(items: seq<(Key, Value)>, i: nat)
    requires AllTyped(items) && |items| != 1
    requires i < |items| && IsFull(items[i].1.address)
    ensures ExactMatchIndex(items).Some?
    ensures IsFull(items[ExactMatchIndex(items).value].1.address)
    ensures ExactMatchIndex(items).value <= i
    ensures forall j :: 0 <= j < ExactMatchIndex(items).value ==> !IsFull(items[j].1.address)
  {
  }

  /** When every address is partial, the result is the first address of the
      most precise location type that occurs; null when none occurs. */
  lemma {:induction false} ExactMatchRanked(items: seq<(Key, Value)>)
    requires AllTyped(items) && |items| != 1
    requires forall j :: 0 <= j < |items| ==> !IsFull(items[j].1.address)
    ensures ExactMatchIndex(items).None? <==>
      forall j :: 0 <= j < |items| ==> TypeName(items[j].1.address) !in RelevancyTypes()
    ensures ExactMatchIndex(items).Some? ==>
      exists k :: 0 <= k < |RelevancyTypes()| && ExactMatchIndex(items) == FirstOfType(items, RelevancyTypes()[k]) &&
        forall k' :: 0 <= k' < k ==> FirstOfType(items, RelevancyTypes()[k']).None?
  {
    var rt := RelevancyTypes();
    assert FirstFull(items).None?;
    BestRankedNone(items, rt);
    BestRankedSome(items, rt);
    if ExactMatchIndex(items).None? {
      forall j | 0 <= j < |items| ensures TypeName(items[j].1.address) !in rt {
        forall k | 0 <= k < |rt| ensures TypeName(items[j].1.address) != rt[k] {
          assert FirstOfType(items, rt[k]).None?;
        }
      }
    } else {
      var j := ExactMatchIndex(items).value;
      var k :| 0 <= k < |rt| && ExactMatchIndex(items) == FirstOfType(items, rt[k]);
      assert TypeName(items[j].1.address) == rt[k];
    }
  }

  lemma {:induction false} BestRankedSome(items: seq<(Key, Value)>, types: seq<string>)
    requires AllTyped(items)
    ensures BestRanked(items, types).Some? ==>
      exists k :: 0 <= k < |types| && BestRanked(items, types) == FirstOfType(items, types[k]) &&
        forall k' :: 0 <= k' < k ==> FirstOfType(items, types[k']).None?
    decreases |types|
  {
    if |types| > 0 && FirstOfType(items, types[0]).None? {
      BestRankedSome(items, types[1..]);
      if BestRanked(items, types[1..]).Some? {
        var k :| 0 <= k < |types[1..]| && BestRanked(items, types[1..]) == FirstOfType(items, types[1..][k]) &&
          forall k' :: 0 <= k' < k ==> FirstOfType(items, types[1..][k']).None?;
        assert types[1..][k] == types[k + 1];
        forall k' | 0 <= k' < k + 1 ensures FirstOfType(items, types[k']).None? {
          if k' > 0 { assert types[k'] == types[1..][k' - 1]; }
        }
      }
    }
  }

  /** The addresses of location type `t` among the first `i`, in order. */
  function OfType(items: seq<(Key, Value)>, i: nat, t: string): seq<Address>
    requires AllTyped(items) && i <= |items|
    decreases i
  {
    if i == 0 then []
    else OfType(items, i - 1, t) + (if TypeName(items[i - 1].1.address) == t then [items[i - 1].1.address] else [])
  }

  /** The state of `getExactMatch`'s first loop after `i` partial
      addresses: `$addresses` maps each location type seen to its addresses
      in order, and the ghost `first` records where each bucket began. */
  ghost predicate Buckets(items: seq<(Key, Value)>, i: nat, buckets: map<string, seq<Address>>, first: map<string, nat>)
    requires AllTyped(items) && i <= |items|
  {
    && buckets.Keys == first.Keys
    && (forall j :: 0 <= j < i ==> TypeName(items[j].1.address) in first)
    && (forall t :: t in first ==> first[t] < i && TypeName(items[first[t]].1.address) == t)
    && (forall t, j :: t in first && 0 <= j < first[t] ==> TypeName(items[j].1.address) != t)
    && (forall t :: t in buckets ==> |buckets[t]| > 0 && buckets[t][0] == items[first[t]].1.address)
  }

  /** Each bucket holds every address of its type among the first `i`, in
      order, and a type with no bucket has none. */
  ghost predicate BucketContents(items: seq<(Key, Value)>, i: nat, buckets: map<string, seq<Address>>)
    requires AllTyped(items) && i <= |items|
  {
    && (forall t :: t in buckets ==> buckets[t] == OfType(items, i, t))
    && (forall t :: t !in buckets ==> OfType(items, i, t) == [])
  }

  /** `$addresses[$type][] = $item` appends to the address's own bucket. */
  lemma ContentsStep(items: seq<(Key, Value)>, i: nat, buckets: map<string, seq<Address>>)
    requires AllTyped(items) && i < |items| && BucketContents(items, i, buckets)
    ensures
      var a := items[i].1.address;
      var t := TypeName(a);
      BucketContents(items, i + 1, buckets[t := if t in buckets then buckets[t] + [a] else [a]])
  {
    var a := items[i].1.address;
    var t := TypeName(a);
    var b := buckets[t := if t in buckets then buckets[t] + [a] else [a]];
    forall u | u in b ensures b[u] == OfType(items, i + 1, u) {
      assert OfType(items, i + 1, u) == OfType(items, i, u) + (if t == u then [a] else []);
    }
    forall u | u !in b ensures OfType(items, i + 1, u) == [] {
      assert OfType(items, i + 1, u) == OfType(items, i, u);
    }
  }

  /** `$addresses[$type][] = $item` keeps the bucket heads. */
  lemma BucketsStep(items: seq<(Key, Value)>, i: nat, buckets: map<string, seq<Address>>, first: map<string, nat>)
    requires AllTyped(items) && i < |items| && Buckets(items, i, buckets, first)
    ensures
      var a := items[i].1.address;
      var t := TypeName(a);
      Buckets(items, i + 1,
        buckets[t := if t in buckets then buckets[t] + [a] else [a]],
        if t in first then first else first[t := i])
  {
  }

  /** After the loop the bucket heads are exactly the first addresses of
      each type. */
  lemma BucketsDone(items: seq<(Key, Value)>, buckets: map<string, seq<Address>>, first: map<string, nat>, t: string)
    requires AllTyped(items) && Buckets(items, |items|, buckets, first)
    ensures t in buckets ==> FirstOfType(items, t) == Some(first[t]) && buckets[t][0] == items[first[t]].1.address
    ensures t !in buckets ==> FirstOfType(items, t).None?
  {
    if t in buckets {
      FirstOfTypeAt(items, t, first[t]);
    } else {
      forall j | 0 <= j < |items| ensures TypeName(items[j].1.address) != t {
        assert TypeName(items[j].1.address) in first;
      }
      FirstOfTypeAbsent(items, t);
    }
  }

  lemma FirstOfTypeAt(items: seq<(Key, Value)>, t: string, k: nat)
    requires AllTyped(items) && k < |items| && TypeName(items[k].1.address) == t
    requires forall j :: 0 <= j < k ==> TypeName(items[j].1.address) != t
    ensures FirstOfType(items, t) == Some(k)
  {
  }

  lemma FirstOfTypeAbsent(items: seq<(Key, Value)>, t: string)
    requires AllTyped(items)
    requires forall j :: 0 <= j < |items| ==> TypeName(items[j].1.address) != t
    ensures FirstOfType(items, t).None?
  {
  }

  /** No full match among the first `i` addresses. */
  ghost predicate NoFullBefore(items: seq<(Key, Value)>, i: nat)
    requires AllAddresses(items) && i <= |items|
  {
    forall j :: 0 <= j < i ==> !IsFull(items[j].1.address)
  }

  lemma NoFullStep(items: seq<(Key, Value)>, i: nat)
    requires AllAddresses(items) && i < |items| && NoFullBefore(items, i) && !IsFull(items[i].1.address)
    ensures NoFullBefore(items, i + 1)
  {
  }

  /** The first loop of `getExactMatch`: returns the first full match (at
      the ghost index `at`), or fills `$addresses` from a run of partial ones. */
  method FillBuckets(items: seq<(Key, Value)>)
    returns (full: Option<Address>, buckets: map<string, seq<Address>>, ghost first: map<string, nat>, ghost at: nat)
    requires AllTyped(items)
    ensures full.Some? ==>
      at < |items| && IsFull(items[at].1.address) && full.value == items[at].1.address && NoFullBefore(items, at)
    ensures full.None? ==> NoFullBefore(items, |items|) && Buckets(items, |items|, buckets, first)
    ensures full.None? ==> BucketContents(items, |items|, buckets)
  {
    buckets := map[];
    first := map[];
    var i := 0;
    while i < |items|
      invariant 0 <= i <= |items|
      invariant NoFullBefore(items, i)
      invariant Buckets(items, i, buckets, first)
      invariant BucketContents(items, i, buckets)
    {
      if IsFull(items[i].1.address) {
        return Some(items[i].1.address), buckets, first, i;
      }
      NoFullStep(items, i);
      buckets, first := AddToBucket(items, i, buckets, first);
      i := i + 1;
    }
    full, at := None, 0;
  }

  /** `$addresses[$type][] = $item` for the partial address at `i`. */
  method AddToBucket(items: seq<(Key, Value)>, i: nat, buckets: map<string, seq<Address>>, ghost first: map<string, nat>)
    returns (buckets': map<string, seq<Address>>, ghost first': map<string, nat>)
    requires AllTyped(items) && i < |items| && Buckets(items, i, buckets, first)
    requires BucketContents(items, i, buckets)
    ensures Buckets(items, i + 1, buckets', first')
    ensures BucketContents(items, i + 1, buckets')
  {
    BucketsStep(items, i, buckets, first);
    ContentsStep(items, i, buckets);
    var item := items[i].1.address;
    var t := TypeName(item);
    if t in buckets {
      buckets' := buckets[t := buckets[t] + [item]];
      first' := first;
    } else {
      buckets' := buckets[t := [item]];
      first' := first[t := i];
    }
  }

  /** The second loop of `getExactMatch`: the head of the first non-empty
      bucket in relevancy order. */
  method PickRanked(items: seq<(Key, Value)>, buckets: map<string, seq<Address>>, ghost first: map<string, nat>) returns (r: Option<Address>)
    requires AllTyped(items) && Buckets(items, |items|, buckets, first)
    ensures BestRanked(items, RelevancyTypes()).None? ==> r.None?
    ensures BestRanked(items, RelevancyTypes()).Some? ==> r == Some(items[BestRanked(items, RelevancyTypes()).value].1.address)
  {
    var types := RelevancyTypes();
    var k := 0;
    while k < |types|
      invariant 0 <= k <= |types|
      invariant forall k' :: 0 <= k' < k ==> FirstOfType(items, types[k']).None?
    {
      var t := types[k];
      BucketsDone(items, buckets, first, t);
      if t in buckets && |buckets[t]| > 0 {
        BestRankedAt(items, types, k);
        return Some(buckets[t][0]);
      }
      k := k + 1;
    }
    BestRankedNone(items, types);
    return None;
  }

  /** `getExactMatch()`. */
  method GetExactMatch(c: ItemCollection) returns (r: Option<Address>)
    requires AllTyped(c.items)
    ensures ExactMatchIndex(c.items).None? ==> r.None?
    ensures ExactMatchIndex(c.items).Some? ==> r == Some(c.items[ExactMatchIndex(c.items).value].1.address)
    ensures r.Some? ==> exists i :: 0 <= i < |c.items| && c.items[i].1 == AddressObj(r.value)
  {
    if c.Count() == 1 {
      return Some(c.First().address);
    }
    var full, buckets, first, at := FillBuckets(c.items);
    if full.Some? {
      FirstFullAt(c.items, at);
      return full;
    }
    assert FirstFull(c.items).None?;
    r := PickRanked(c.items, buckets, first);
  }

  // ----------------------------------------------------- full / partial

  /** The addresses whose `isPartialMatch()` is `flag`, in order. */
  function Matched(vs: seq<Value>, flag: bool): (r: seq<Value>)
    requires forall i :: 0 <= i < |vs| ==> vs[i].AddressObj?
    ensures forall i :: 0 <= i < |r| ==> r[i].AddressObj? && r[i].address.partialMatch == Bool(flag)
    ensures forall x :: x in r <==> x in vs && x.address.partialMatch == Bool(flag)
  {
    if |vs| == 0 then []
    else
      var init := Matched(vs[..|vs| - 1], flag);
      var last := vs[|vs| - 1];
      if last.address.partialMatch == Bool(flag) then init + [last] else init
  }

  /** Filtering distributes over concatenation, so relative order is kept. */
  lemma {:induction false} MatchedAppend(vs: seq<Value>, ws: seq<Value>, flag: bool)
    requires forall i :: 0 <= i < |vs| ==> vs[i].AddressObj?
    requires forall i :: 0 <= i < |ws| ==> ws[i].AddressObj?
    ensures Matched(vs + ws, flag) == Matched(vs, flag) + Matched(ws, flag)
    decreases |ws|
  {
    if |ws| > 0 {
      var w := ws[..|ws| - 1];
      assert (vs + ws)[..|vs + ws| - 1] == vs + w;
      MatchedAppend(vs, w, flag);
    } else {
      assert vs + ws == vs;
    }
  }

  /** `getFullMatched()` and `getPartialMatched()` split the addresses: each
      one lands in exactly one of them, as often as it occurs. */
  lemma {:induction false} MatchedPartition(vs: seq<Value>)
    requires forall i :: 0 <= i < |vs| ==> vs[i].AddressObj? && vs[i].address.partialMatch.Bool?
    ensures multiset(Matched(vs, true)) + multiset(Matched(vs, false)) == multiset(vs)
    ensures |Matched(vs, true)| + |Matched(vs, false)| == |vs|
    decreases |vs|
  {
    if |vs| > 0 {
      var init := vs[..|vs| - 1];
      var x := vs[|vs| - 1];
      MatchedPartition(init);
      assert vs == init + [x];
      MatchedStep(init, x, true);
      MatchedStep(init, x, false);
    }
  }

  /** One more element: kept at the end when it matches, dropped otherwise. */
  lemma MatchedStep(vs: seq<Value>, x: Value, flag: bool)
    requires forall i :: 0 <= i < |vs| ==> vs[i].AddressObj?
    requires x.AddressObj?
    ensures Matched(vs + [x], flag) == if x.address.partialMatch == Bool(flag) then Matched(vs, flag) + [x] else Matched(vs, flag)
  {
    assert (vs + [x])[..|vs|] == vs;
  }

  /** `getMatched($flag)`: `$items[] = $item` for each matching address,
      then `new static($items)`. */
  method GetMatched(c: ItemCollection, flag: bool) returns (r: ItemCollection)
    requires AllAddresses(c.items)
    ensures fresh(r) && r.model == AddressModel && r.Valid()
    ensures r.items == Reindex(Matched(Values(c.items), flag))
  {
    var out := CollectMatched(Values(c.items), flag);
    MatchedInstances(out);
    r := new ItemCollection(AddressModel, Arr(out));
  }

  /** The loop of `getMatched`: `$items[] = $item` for each match. */
  method CollectMatched(vs: seq<Value>, flag: bool) returns (out: seq<(Key, Value)>)
    requires forall i :: 0 <= i < |vs| ==> vs[i].AddressObj?
    ensures out == Reindex(Matched(vs, flag))
  {
    out := [];
    var i := 0;
    while i < |vs|
      invariant 0 <= i <= |vs|
      invariant out == Reindex(Matched(vs[..i], flag))
    {
      var item := vs[i];
      CollectStep(vs, i, flag, out);
      if item.address.partialMatch == Bool(flag) {
        out := out + [(IntKey(|out|), item)];
      }
      i := i + 1;
    }
    assert vs[..i] == vs;
  }

  /** One pass of `getMatched`'s loop: a match is appended under the next
      integer key, anything else leaves the array as it is. */
  lemma CollectStep(vs: seq<Value>, i: nat, flag: bool, out: seq<(Key, Value)>)
    requires forall j :: 0 <= j < |vs| ==> vs[j].AddressObj?
    requires i < |vs| && out == Reindex(Matched(vs[..i], flag))
    ensures Reindex(Matched(vs[..i + 1], flag)) ==
      if vs[i].address.partialMatch == Bool(flag) then out + [(IntKey(|out|), vs[i])] else out
  {
    MatchedStep(vs[..i], vs[i], flag);
    assert vs[..i + 1] == vs[..i] + [vs[i]];
    ReindexSnoc(Matched(vs[..i], flag), vs[i]);
  }

  /** An array of Addresses under keys 0, 1, ... passes through `setItems`
      of an AddressCollection unchanged. */
  lemma MatchedInstances(out: seq<(Key, Value)>)
    requires forall i :: 0 <= i < |out| ==> out[i].1.AddressObj? && out[i].0 == IntKey(i)
    ensures Coercible(AddressModel, out) && DistinctKeys(out)
    ensures SetItems(AddressModel, out) == out
  {
    SetItemsCoerces(AddressModel, out);
  }

  method GetFullMatched(c: ItemCollection) returns (r: ItemCollection)
    requires AllAddresses(c.items)
    ensures fresh(r) && r.model == AddressModel && r.Valid()
    ensures r.items == Reindex(Matched(Values(c.items), false))
  {
    r := GetMatched(c, false);
  }

  method GetPartialMatched(c: ItemCollection) returns (r: ItemCollection)
    requires AllAddresses(c.items)
    ensures fresh(r) && r.model == AddressModel && r.Valid()
    ensures r.items == Reindex(Matched(Values(c.items), true))
  {
    r := GetMatched(c, true);
  }

  // --------------------------------------------------------- projections

  /** What `pluck` finds on an Address for the names this class plucks. */
  lemma AddressGetters(a: Address)
    ensures Resolve(ShapeOf(AddressObj(a)), "getFormatted") == a.formatted
    ensures Resolve(ShapeOf(AddressObj(a)), "getComponents") == CollectionObj(a.components)
  {
    assert "getFormatted" in AddressMethods(a);
    assert "getComponents" in AddressMethods(a);
  }

  /** `getFormattedNames()`: `pluck('getFormatted')->all()`, which keeps only
      the last address's formatted string, under key 0. */
  method GetFormattedNames(c: ItemCollection) returns (r: seq<(Key, Value)>)
    requires AllAddresses(c.items)
    ensures |c.items| == 0 ==> r == []
    ensures |c.items| > 0 ==> r == [(IntKey(0), c.items[|c.items| - 1].1.address.formatted)]
  {
    var p := c.Pluck("getFormatted", None);
    if |c.items| > 0 {
      AddressGetters(c.items[|c.items| - 1].1.address);
    }
    r := p.All();
  }

  /** `getComponents()`: the `all()` of every plucked ComponentCollection,
      merged with `array_merge`. Since `pluck` keeps only the last address,
      this is that address's components alone. */
  method GetComponents(c: ItemCollection) returns (r: ItemCollection)
    requires AllAddresses(c.items)
    requires forall i :: 0 <= i < |c.items| ==> ValidAddress(c.items[i].1.address)
    ensures fresh(r) && r.model == ComponentModel && r.Valid()
    ensures |c.items| == 0 ==> r.items == []
    ensures |c.items| > 0 ==> r.items == ArrayMerge([c.items[|c.items| - 1].1.address.components.items])
  {
    var items := c.items;
    PluckedComponents(items);
    var p := c.Pluck("getComponents", None);
    var plucked := p.items;
    var lists := ComponentLists(plucked);
    var merged := ArrayMerge([[]] + lists);
    MergedComponents(items, plucked, lists);
    r := new ItemCollection(ComponentModel, Arr(merged));
  }

  /** `pluck('getComponents')` over addresses: the last address's
      ComponentCollection under key 0. */
  lemma PluckedComponents(items: seq<(Key, Value)>)
    requires AllAddresses(items)
    ensures forall j :: 0 <= j < |items| ==> Pluckable(items[j].1, "getComponents")
    ensures |items| == 0 ==> PluckResult(items, "getComponents", None) == []
    ensures |items| > 0 ==>
      PluckResult(items, "getComponents", None) == [(IntKey(0), CollectionObj(items[|items| - 1].1.address.components))]
  {
    if |items| > 0 {
      AddressGetters(items[|items| - 1].1.address);
    }
  }

  /** The lists `getComponents` merges: the last address's components. */
  lemma PluckedLists(items: seq<(Key, Value)>, plucked: seq<(Key, Value)>, lists: seq<seq<(Key, Value)>>)
    requires AllAddresses(items)
    requires |items| == 0 ==> plucked == []
    requires |items| > 0 ==> plucked == [(IntKey(0), CollectionObj(items[|items| - 1].1.address.components))]
    requires |lists| == |plucked| && forall j :: 0 <= j < |plucked| ==> plucked[j].1.CollectionObj? && lists[j] == plucked[j].1.collection.items
    ensures |items| == 0 ==> lists == []
    ensures |items| > 0 ==> lists == [items[|items| - 1].1.address.components.items]
  {
  }

  /** What `new ComponentCollection(array_merge([], ...$lists))` receives and
      keeps: the last address's components, renumbered. */
  lemma MergedComponents(items: seq<(Key, Value)>, plucked: seq<(Key, Value)>, lists: seq<seq<(Key, Value)>>)
    requires AllAddresses(items)
    requires forall i :: 0 <= i < |items| ==> ValidAddress(items[i].1.address)
    requires |items| == 0 ==> plucked == []
    requires |items| > 0 ==> plucked == [(IntKey(0), CollectionObj(items[|items| - 1].1.address.components))]
    requires |lists| == |plucked| && forall j :: 0 <= j < |plucked| ==> plucked[j].1.CollectionObj? && lists[j] == plucked[j].1.collection.items
    ensures var m := ArrayableOf(Arr(ArrayMerge([[]] + lists)));
      && Coercible(ComponentModel, m) && DistinctKeys(m)
      && (|items| == 0 ==> SetItems(ComponentModel, m) == [])
      && (|items| > 0 ==> SetItems(ComponentModel, m) == ArrayMerge([items[|items| - 1].1.address.components.items]))
  {
    PluckedLists(items, plucked, lists);
    if |items| > 0 {
      assert ValidAddress(items[|items| - 1].1.address);
    }
    ComponentsMerge(lists);
  }

  /** The `->all()` of each plucked collection, in order. */
  method ComponentLists(plucked: seq<(Key, Value)>) returns (lists: seq<seq<(Key, Value)>>)
    requires forall j :: 0 <= j < |plucked| ==> plucked[j].1.CollectionObj?
    ensures |lists| == |plucked|
    ensures forall j :: 0 <= j < |plucked| ==> lists[j] == plucked[j].1.collection.items
  {
    lists := [];
    var i := 0;
    while i < |plucked|
      invariant 0 <= i <= |plucked|
      invariant |lists| == i
      invariant forall j :: 0 <= j < i ==> lists[j] == plucked[j].1.collection.items
    {
      lists := lists + [plucked[i].1.collection.items];
      i := i + 1;
    }
  }

  /** Components merged from ComponentCollections are all Components, so the
      new ComponentCollection keeps them as they are. */
  lemma ComponentsMerge(lists: seq<seq<(Key, Value)>>)
    requires forall k, i :: 0 <= k < |lists| && 0 <= i < |lists[k]| ==> lists[k][i].1.ComponentObj?
    ensures ArrayMerge([[]] + lists) == ArrayMerge(lists)
    ensures Coercible(ComponentModel, ArrayMerge(lists)) && DistinctKeys(ArrayMerge(lists))
    ensures SetItems(ComponentModel, ArrayMerge(lists)) == ArrayMerge(lists)
  {
    MergeEmptyFirst(lists);
    ArrayMergeKeeps((v: Value) => v.ComponentObj?, lists);
    SetItemsCoerces(ComponentModel, ArrayMerge(lists));
  }
}
