/**
 * `InterfaceImplementationsInvoker.GetOrderedPlugins` / `GetOrderedMethods`:
 * plugins sorted stably by the `Order` of an attribute, where a missing
 * attribute (or a missing method) counts as `int.MaxValue`. The attribute
 * lookup by reflection is a parameter returning the optional order.
 */
module PluginOrder {
  import opened Wrappers
  import opened Text
  import opened StableSort

  /** `attribute?.Order ?? int.MaxValue`. */
  function OrderKey(order: Option<int>): (k: int)
    ensures order.None? ==> k == IntMax
    ensures order.Some? ==> k == order.value
  {
    order.GetOr(IntMax)
  }

  /** The sort key of a plugin. */
  function PluginKey<P(!new)>(pluginOrder: P -> Option<int>): (key: P -> int)
    ensures forall p :: key(p) == OrderKey(pluginOrder(p))
  {
    p => OrderKey(pluginOrder(p))
  }

  /** The sort key of a plugin for the method `methodName`. */
  function MethodKey<P(!new)>(methodOrder: (P, string) -> Option<int>, methodName: string): (key: P -> int)
    ensures forall p :: key(p) == OrderKey(methodOrder(p, methodName))
  {
    p => OrderKey(methodOrder(p, methodName))
  }

  /** `GetOrderedPlugins`: `pluginOrder(p)` is the `PluginOrder` attribute's
      order on `p`'s type, if it has one. The input is not changed (it is a
      value); the result is a new sequence. */
  function GetOrderedPlugins<P(!new)>(plugins: seq<P>, pluginOrder: P -> Option<int>): (r: seq<P>)
    ensures |r| == |plugins| && multiset(r) == multiset(plugins)
    ensures SortedBy(r, PluginKey(pluginOrder))
    ensures forall k :: WithKey(r, PluginKey(pluginOrder), k) == WithKey(plugins, PluginKey(pluginOrder), k)
  {
    SortBy(plugins, PluginKey(pluginOrder))
  }

  /** `GetOrderedMethods`: `methodOrder(p, name)` is the `MethodOrder`
      attribute's order on the method `name` of `p`'s type, absent when the
      method or the attribute is missing. */
  function GetOrderedMethods<P(!new)>(plugins: seq<P>, methodName: string, methodOrder: (P, string) -> Option<int>): (r: seq<P>)
    ensures |r| == |plugins| && multiset(r) == multiset(plugins)
    ensures SortedBy(r, MethodKey(methodOrder, methodName))
    ensures forall k :: WithKey(r, MethodKey(methodOrder, methodName), k) == WithKey(plugins, MethodKey(methodOrder, methodName), k)
  {
    SortBy(plugins, MethodKey(methodOrder, methodName))
  }

  /** Every plugin with an explicit order below `int.MaxValue` comes before
      every plugin without the attribute. */
  lemma ExplicitBeforeUnattributed<P(!new)>(plugins: seq<P>, pluginOrder: P -> Option<int>, i: nat, j: nat)
    requires var r := GetOrderedPlugins(plugins, pluginOrder);
      i < |r| && j < |r| && pluginOrder(r[i]).Some? && pluginOrder(r[i]).value < IntMax && pluginOrder(r[j]).None?
    ensures i < j
  {
    var key := PluginKey(pluginOrder);
    SortedSeparates(GetOrderedPlugins(plugins, pluginOrder), key, IntMax, i, j);
  }

  /** Unattributed plugins keep their input order. */
  lemma UnattributedKeepOrder<P(!new)>(plugins: seq<P>, pluginOrder: P -> Option<int>)
    requires forall p :: pluginOrder(p).None?
    ensures GetOrderedPlugins(plugins, pluginOrder) == plugins
  {
    var key := PluginKey(pluginOrder);
    AllKeyedAlike(plugins, key, IntMax);
    AllKeyedAlike(GetOrderedPlugins(plugins, pluginOrder), key, IntMax);
  }

  /** When every key is `k`, selecting key `k` keeps the whole sequence. */
  lemma {:induction false} AllKeyedAlike<T>(s: seq<T>, key: T -> int, k: int)
    requires forall x :: key(x) == k
    ensures WithKey(s, key, k) == s
    decreases |s|
  {
    if |s| > 0 {
      AllKeyedAlike(s[1..], key, k);
      assert s == [s[0]] + s[1..];
    }
  }

  /** The orders of the example below: 10 has order 2, 30 has order 1. */
  function ExampleOrder(p: int): Option<int> {
    if p == 10 then Some(2) else if p == 30 then Some(1) else None
  }

  lemma ExampleKeys()
    ensures PluginKey(ExampleOrder)(10) == 2 && PluginKey(ExampleOrder)(20) == IntMax
    ensures PluginKey(ExampleOrder)(30) == 1 && PluginKey(ExampleOrder)(40) == IntMax
  {
  }

  /** Sorting `[x] + s` inserts `x` into the sorted `s`. */
  lemma SortCons<T>(x: T, s: seq<T>, key: T -> int)
    ensures SortBy([x] + s, key) == Insert(x, SortBy(s, key), key)
  {
    assert ([x] + s)[1..] == s;
  }

  lemma ExampleLastTwo()
    ensures SortBy([30, 40], PluginKey(ExampleOrder)) == [30, 40]
  {
    var key := PluginKey(ExampleOrder);
    ExampleKeys();
    SortCons(40, [], key);
    assert [40] == [40] + [];
    SortCons(30, [40], key);
  }

  lemma ExampleTail()
    ensures SortBy([20, 30, 40], PluginKey(ExampleOrder)) == [30, 20, 40]
  {
    var key := PluginKey(ExampleOrder);
    ExampleKeys();
    ExampleLastTwo();
    assert [20, 30, 40] == [20] + [30, 40];
    SortCons(20, [30, 40], key);
    ExampleInsert();
  }

  lemma ExampleInsert()
    ensures Insert(20, [30, 40], PluginKey(ExampleOrder)) == [30, 20, 40]
  {
    var key := PluginKey(ExampleOrder);
    ExampleKeys();
    assert [30, 40][1..] == [40];
    assert Insert(20, [40], key) == [20] + [40];
  }

  lemma ExampleHead()
    ensures Insert(10, [30, 20, 40], PluginKey(ExampleOrder)) == [30, 10, 20, 40]
  {
    var key := PluginKey(ExampleOrder);
    ExampleKeys();
    assert [30, 20, 40][1..] == [20, 40];
    assert Insert(10, [20, 40], key) == [10, 20, 40];
  }

  /** A concrete case: plugins 10, 20, 30, 40 with orders 2, none, 1, none come
      out as 30, 10, then the two unattributed plugins in input order. */
  lemma OrderExample()
    ensures GetOrderedPlugins([10, 20, 30, 40], ExampleOrder) == [30, 10, 20, 40]
  {
    var key := PluginKey(ExampleOrder);
    ExampleTail();
    ExampleHead();
    var s := [10, 20, 30, 40];
    assert s[1..] == [20, 30, 40];
    assert SortBy(s, key) == Insert(s[0], SortBy(s[1..], key), key);
  }
}
