/** ComponentCollection: an ItemCollection whose model is Component, with
    the two name projections. */
module ComponentCollections {
  import opened PhpArrays
  import opened Models
  import opened ItemCollections

  predicate AllComponents(items: seq<(Key, Value)>) {
    forall i :: 0 <= i < |items| ==> items[i].1.ComponentObj?
  }

  /** What `pluck` finds on a Component for the two names. */
  lemma ComponentGetters(c: Component)
    ensures Resolve(ShapeOf(ComponentObj(c)), "getLongName") == c.longName
    ensures Resolve(ShapeOf(ComponentObj(c)), "getShortName") == c.shortName
  {
    assert "getLongName" in ComponentMethods(c);
    assert "getShortName" in ComponentMethods(c);
  }

  /** Building a ComponentCollection turns every element into a Component
      and keeps keys, order and count. */
  lemma ComponentCoercion(x: seq<(Key, Value)>)
    requires Coercible(ComponentModel, x)
    ensures AllComponents(SetItems(ComponentModel, x))
    ensures |SetItems(ComponentModel, x)| == |x|
    ensures forall i :: 0 <= i < |x| ==> SetItems(ComponentModel, x)[i].0 == x[i].0
  {
    SetItemsCoerces(ComponentModel, x);
  }

  /** `getLongNames()`: `pluck('getLongName')->all()`, so only the last
      component's long name, under key 0. */
  method GetLongNames(c: ItemCollection) returns (r: seq<(Key, Value)>)
    requires AllComponents(c.items)
    ensures |c.items| == 0 ==> r == []
    ensures |c.items| > 0 ==> r == [(IntKey(0), c.items[|c.items| - 1].1.component.longName)]
  {
    var p := c.Pluck("getLongName", None);
    if |c.items| > 0 {
      ComponentGetters(c.items[|c.items| - 1].1.component);
    }
    r := p.All();
  }

  /** `getShortNames()`: only the last component's short name, under key 0. */
  method GetShortNames(c: ItemCollection) returns (r: seq<(Key, Value)>)
    requires AllComponents(c.items)
    ensures |c.items| == 0 ==> r == []
    ensures |c.items| > 0 ==> r == [(IntKey(0), c.items[|c.items| - 1].1.component.shortName)]
  {
    var p := c.Pluck("getShortName", None);
    if |c.items| > 0 {
      ComponentGetters(c.items[|c.items| - 1].1.component);
    }
    r := p.All();
  }

  /** Both projections have the same length, at most one, since both are
      `pluck` of the same elements. */
  lemma NamesSameLength(items: seq<(Key, Value)>)
    requires AllComponents(items)
    ensures forall j :: 0 <= j < |items| ==> Pluckable(items[j].1, "getLongName") && Pluckable(items[j].1, "getShortName")
    ensures |PluckResult(items, "getLongName", None)| == |PluckResult(items, "getShortName", None)| <= 1
  {
  }
}
