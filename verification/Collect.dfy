/**
 * The listing loops of internal/controller/routemap_controller.go. The answers of the API reads are
 * parameters: one per List call, absent when the call failed.
 */
module Collect {
  import opened Kube
  import opened Sums
  import opened Discovery
  import I = IngressInventory
  import R = HTTPRouteInventory

  function MapAll<T>(items: seq<T>, f: T -> seq<Endpoint>): seq<Endpoint> {
    if items == [] then [] else MapAll(items[..|items| - 1], f) + f(items[|items| - 1])
  }

  function MapLists<T>(lists: seq<Option<seq<T>>>, f: T -> seq<Endpoint>): seq<Endpoint>
    requires forall i | 0 <= i < |lists| :: lists[i].Some?
  {
    if lists == [] then [] else MapLists(lists[..|lists| - 1], f) + MapAll(lists[|lists| - 1].value, f)
  }

  /** The endpoints come in the order of the items, those of one item together. */
  lemma {:induction false} MapAllInOrder<T>(items: seq<T>, more: seq<T>, f: T -> seq<Endpoint>)
    ensures MapAll(items + more, f) == MapAll(items, f) + MapAll(more, f)
    ensures |items| == 1 ==> MapAll(items, f) == f(items[0])
  {
    if |items| == 1 {
      assert items[..0] == [];
    }
    if more == [] {
      assert items + more == items;
    } else {
      var n := |more| - 1;
      MapAllInOrder(items, more[..n], f);
      assert (items + more)[..|items| + n] == items + more[..n];
    }
  }

  /** The lists come in the order of their calls. */
  lemma {:induction false} MapListsInOrder<T>(
    lists: seq<Option<seq<T>>>, more: seq<Option<seq<T>>>, f: T -> seq<Endpoint>)
    requires forall i | 0 <= i < |lists| :: lists[i].Some?
    requires forall i | 0 <= i < |more| :: more[i].Some?
    ensures MapLists(lists + more, f) == MapLists(lists, f) + MapLists(more, f)
    ensures |lists| == 1 ==> MapLists(lists, f) == MapAll(lists[0].value, f)
  {
    if |lists| == 1 {
      assert lists[..0] == [];
    }
    if more == [] {
      assert lists + more == lists;
    } else {
      var n := |more| - 1;
      MapListsInOrder(lists, more[..n], f);
      assert (lists + more)[..|lists| + n] == lists + more[..n];
    }
  }

  method MapIngresses(items: seq<I.Ingress>, key: Key, annotationKey: string) returns (out: seq<Endpoint>)
    ensures out == MapAll(items, IngressMapper(key, annotationKey))
  {
    out := [];
    for i := 0 to |items|
      invariant out == MapAll(items[..i], IngressMapper(key, annotationKey))
    {
      var eps := I.IngressToEndpoints(items[i], key, annotationKey);
      out := out + eps;
      assert items[..i + 1][..i] == items[..i];
    }
    assert items[..|items|] == items;
  }

  method MapHTTPRoutes(items: seq<R.HTTPRoute>, key: Key, annotationKey: string) returns (out: seq<Endpoint>)
    ensures out == MapAll(items, RouteMapper(key, annotationKey))
  {
    out := [];
    for i := 0 to |items|
      invariant out == MapAll(items[..i], RouteMapper(key, annotationKey))
    {
      var eps := R.HTTPRouteToEndpoints(items[i], key, annotationKey);
      out := out + eps;
      assert items[..i + 1][..i] == items[..i];
    }
    assert items[..|items|] == items;
  }

  method CollectIngresses(
    lists: seq<Option<seq<I.Ingress>>>, key: Key, namespaces: seq<string>, annotationKey: string, watchAll: bool)
    returns (found: Option<seq<Endpoint>>)
    requires |lists| == if watchAll then 1 else |namespaces|
    ensures found.Some? <==> forall i | 0 <= i < |lists| :: lists[i].Some?
    ensures found.Some? ==> found.value == MapLists(lists, IngressMapper(key, annotationKey))
  {
    if watchAll {
      if lists[0].None? {
        return None;
      }
      var all := MapIngresses(lists[0].value, key, annotationKey);
      assert lists[..0] == [];
      return Some(all);
    }
    var endpoints: seq<Endpoint> := [];
    for i := 0 to |namespaces|
      invariant forall j | 0 <= j < i :: lists[j].Some?
      invariant endpoints == MapLists(lists[..i], IngressMapper(key, annotationKey))
    {
      if lists[i].None? {
        return None;
      }
      var eps := MapIngresses(lists[i].value, key, annotationKey);
      endpoints := endpoints + eps;
      assert lists[..i + 1][..i] == lists[..i];
    }
    assert lists[..|lists|] == lists;
    return Some(endpoints);
  }

  method CollectHTTPRoutes(
    lists: seq<Option<seq<R.HTTPRoute>>>, key: Key, namespaces: seq<string>, annotationKey: string, watchAll: bool)
    returns (found: Option<seq<Endpoint>>)
    requires |lists| == if watchAll then 1 else |namespaces|
    ensures found.Some? <==> forall i | 0 <= i < |lists| :: lists[i].Some?
    ensures found.Some? ==> found.value == MapLists(lists, RouteMapper(key, annotationKey))
  {
    if watchAll {
      if lists[0].None? {
        return None;
      }
      var all := MapHTTPRoutes(lists[0].value, key, annotationKey);
      assert lists[..0] == [];
      return Some(all);
    }
    var endpoints: seq<Endpoint> := [];
    for i := 0 to |namespaces|
      invariant forall j | 0 <= j < i :: lists[j].Some?
      invariant endpoints == MapLists(lists[..i], RouteMapper(key, annotationKey))
    {
      if lists[i].None? {
        return None;
      }
      var eps := MapHTTPRoutes(lists[i].value, key, annotationKey);
      endpoints := endpoints + eps;
      assert lists[..i + 1][..i] == lists[..i];
    }
    assert lists[..|lists|] == lists;
    return Some(endpoints);
  }

  /** `items` are the objects of `m`, each once, in the order of their keys in `order`. */
  ghost predicate ListedAs<T>(items: seq<T>, order: seq<Key>, m: map<Key, T>) {
    && Enumerates(order, m.Keys)
    && |items| == |order|
    && forall i | 0 <= i < |order| :: order[i] in order && items[i] == m[order[i]]
  }

  ghost predicate ListingOf<T>(items: seq<T>, m: map<Key, T>) {
    exists order :: ListedAs(items, order, m)
  }

  lemma {:induction false} MapAllIsFlatten<T>(items: seq<T>, order: seq<Key>, m: map<Key, T>, f: T -> seq<Endpoint>)
    requires |items| == |order| && forall i | 0 <= i < |order| :: order[i] in m && items[i] == m[order[i]]
    ensures forall k | k in order :: k in EndpointsOf(m, f)
    ensures MapAll(items, f) == Flatten(order, EndpointsOf(m, f))
  {
    if items != [] {
      MapAllIsFlatten(items[..|items| - 1], order[..|order| - 1], m, f);
    }
  }

  lemma ListedSum<T>(items: seq<T>, order: seq<Key>, m: map<Key, T>, f: T -> seq<Endpoint>)
    requires ListedAs(items, order, m)
    ensures multiset(MapAll(items, f)) == SumOver(EndpointsOf(m, f))
  {
    MapAllIsFlatten(items, order, m, f);
    SumFlatten(order, EndpointsOf(m, f));
  }

  lemma ListingSum<T>(items: seq<T>, m: map<Key, T>, f: T -> seq<Endpoint>)
    requires ListingOf(items, m)
    ensures multiset(MapAll(items, f)) == SumOver(EndpointsOf(m, f))
  {
    var order :| ListedAs(items, order, m);
    ListedSum(items, order, m, f);
  }

  lemma {:induction false} NamespaceListingsSum<T>(
    lists: seq<Option<seq<T>>>, objects: map<Key, T>, namespaces: seq<string>, f: T -> seq<Endpoint>)
    requires |lists| == |namespaces|
    requires forall i | 0 <= i < |lists| ::
      lists[i].Some? && ListingOf(lists[i].value, InNamespace(objects, namespaces[i]))
    ensures multiset(MapLists(lists, f)) == SumByNamespace(EndpointsOf(objects, f), namespaces)
  {
    if lists != [] {
      var n := |lists| - 1;
      var all := EndpointsOf(objects, f);
      NamespaceListingsSum(lists[..n], objects, namespaces[..n], f);
      ListingSum(lists[n].value, InNamespace(objects, namespaces[n]), f);
      assert EndpointsOf(InNamespace(objects, namespaces[n]), f) == InNamespace(all, namespaces[n]);
      TotalSameFunction(namespaces, all);
    }
  }

  lemma TotalSameFunction(namespaces: seq<string>, all: map<Key, seq<Endpoint>>)
    requires namespaces != []
    ensures var n := |namespaces| - 1;
      SumByNamespace(all, namespaces)
      == SumByNamespace(all, namespaces[..n]) + SumOver(InNamespace(all, namespaces[n]))
  {
  }

  /** Every object counts exactly as often as the list names its namespace. */
  lemma ListingMultiplicity<T>(
    lists: seq<Option<seq<T>>>, objects: map<Key, T>, namespaces: seq<string>, f: T -> seq<Endpoint>)
    requires |lists| == |namespaces|
    requires forall i | 0 <= i < |lists| ::
      lists[i].Some? && ListingOf(lists[i].value, InNamespace(objects, namespaces[i]))
    ensures multiset(MapLists(lists, f)) == SumOver(Weighted(EndpointsOf(objects, f), namespaces))
  {
    NamespaceListingsSum(lists, objects, namespaces, f);
    SumByNamespaceIsWeighted(EndpointsOf(objects, f), namespaces);
  }

  /**
   * Listing strategy independence: over a duplicate-free list that covers every object's namespace, listing
   * namespace by namespace yields the endpoints that one listing of everything yields, in any two orders.
   */
  lemma ListingStrategy<T>(
    lists: seq<Option<seq<T>>>, all: seq<T>, objects: map<Key, T>, namespaces: seq<string>, f: T -> seq<Endpoint>)
    requires |lists| == |namespaces|
    requires forall i | 0 <= i < |lists| ::
      lists[i].Some? && ListingOf(lists[i].value, InNamespace(objects, namespaces[i]))
    requires ListingOf(all, objects)
    requires forall i, j | 0 <= i < j < |namespaces| :: namespaces[i] != namespaces[j]
    requires forall o | o in objects :: o.ns in namespaces
    ensures multiset(MapLists(lists, f)) == multiset(MapLists([Some(all)], f))
  {
    ListingMultiplicity(lists, objects, namespaces, f);
    WeightedOnce(EndpointsOf(objects, f), namespaces);
    ListingSum(all, objects, f);
    SingleList(all, f);
  }

  lemma WeightedOnce(m: map<Key, seq<Endpoint>>, namespaces: seq<string>)
    requires forall i, j | 0 <= i < j < |namespaces| :: namespaces[i] != namespaces[j]
    requires forall o | o in m :: o.ns in namespaces
    ensures Weighted(m, namespaces) == m
  {
    forall o | o in m ensures Weighted(m, namespaces)[o] == m[o] {
      CountDistinct(namespaces, o.ns);
      assert Repeat(m[o], 0) == [];
    }
  }

  lemma SingleList<T>(all: seq<T>, f: T -> seq<Endpoint>)
    ensures MapLists([Some(all)], f) == MapAll(all, f)
  {
    assert [Some(all)][..0] == [];
  }
}
