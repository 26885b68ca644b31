/**
 * `DataBinder`: the type-keyed registry of build-data instances. The
 * repository is static in the editor, shared by every binder; here it is one
 * `Repository` object that every binder refers to. An instance's own
 * `Clear()` is code this model does not see: the calls made to it are
 * recorded, in order, in `cleared`.
 */
module DataBinders {

  /** A runtime `Type`, the key `typeof(T)`. */
  type DataType(==, !new)

  /** An `IBuildData` instance. */
  type BuildData

  /** `order` lists every key of `keys` exactly once. */
  predicate Enumerates<K>(order: seq<K>, keys: set<K>) {
    (forall i :: 0 <= i < |order| ==> order[i] in keys) &&
    (forall k :: k in keys ==> k in order) &&
    (forall i, j :: 0 <= i < j < |order| ==> order[i] != order[j])
  }

  /** The instances stored under `order`'s keys, in that order. */
  function ValuesAt<K, V>(m: map<K, V>, order: seq<K>): (vs: seq<V>)
    requires forall i :: 0 <= i < |order| ==> order[i] in m
    ensures |vs| == |order| && forall i :: 0 <= i < |order| ==> vs[i] == m[order[i]]
  {
    seq(|order|, i requires 0 <= i < |order| && forall j :: 0 <= j < |order| ==> order[j] in m => m[order[i]])
  }

  /** An enumeration has one position per key. */
  lemma {:induction false} EnumerationSize<K>(order: seq<K>, keys: set<K>)
    requires Enumerates(order, keys)
    ensures |order| == |keys|
    decreases |order|
  {
    if |order| > 0 {
      var k := order[|order| - 1];
      var p := order[..|order| - 1];
      assert k !in p by {
        forall i | 0 <= i < |p| ensures p[i] != k {
          assert p[i] == order[i];
        }
      }
      forall x | x in keys - {k} ensures x in p {
        var i :| 0 <= i < |order| && order[i] == x;
        assert i < |order| - 1;
        assert p[i] == x;
      }
      EnumerationSize(p, keys - {k});
    }
  }

  /** `Clear`'s loop: visits the keys in some order and collects the
      instance stored under each; `order` is the order chosen. */
  method ClearCalls<K(==), V>(m: map<K, V>) returns (calls: seq<V>, ghost order: seq<K>)
    ensures Enumerates(order, m.Keys)
    ensures calls == ValuesAt(m, order)
    ensures |calls| == |m.Keys|
  {
    var keys := m.Keys;
    calls, order := [], [];
    while keys != {}
      invariant keys <= m.Keys
      invariant forall i :: 0 <= i < |order| ==> order[i] in m.Keys && order[i] !in keys
      invariant forall k :: k in m.Keys ==> k in keys || k in order
      invariant forall i, j :: 0 <= i < j < |order| ==> order[i] != order[j]
      invariant calls == ValuesAt(m, order)
      decreases keys
    {
      var k :| k in keys;
      calls := calls + [m[k]];
      order := order + [k];
      keys := keys - {k};
    }
    EnumerationSize(order, m.Keys);
  }

  /** The static `dataRepository`, and the `Clear()` calls made on the
      instances it held. */
  class Repository {
    var dataRepository: map<DataType, BuildData>
    var cleared: seq<BuildData>

    constructor()
      ensures dataRepository == map[] && cleared == []
    {
      dataRepository := map[];
      cleared := [];
    }

    /** `RegisteredData`: the types registered. */
    function RegisteredData(): (r: set<DataType>)
      reads this
      ensures forall t :: t in r <==> t in dataRepository
    {
      dataRepository.Keys
    }

    /** `GetData<T>`: an unregistered type throws, so it is a precondition. */
    function GetData(t: DataType): BuildData
      reads this
      requires t in dataRepository
    {
      dataRepository[t]
    }
  }

  class DataBinder {
    /** The repository every binder shares. */
    const repository: Repository

    /** Creating a binder replaces the shared repository by an empty one. */
    constructor(repository: Repository)
      modifies repository`dataRepository
      ensures this.repository == repository
      ensures repository.dataRepository == map[]
    {
      this.repository := repository;
      repository.dataRepository := map[];
    }

    /** `RegisterData<T>`: stores `service` under `t`, replacing any earlier one. */
    method RegisterData(t: DataType, service: BuildData)
      modifies repository`dataRepository
      ensures repository.dataRepository == old(repository.dataRepository)[t := service]
      ensures repository.GetData(t) == service
      ensures forall u :: u != t ==> (u in repository.dataRepository <==> u in old(repository.dataRepository))
      ensures forall u :: u != t && u in old(repository.dataRepository) ==>
        repository.GetData(u) == old(repository.dataRepository)[u]
    {
      repository.dataRepository := repository.dataRepository[t := service];
    }

    /** `UnregisterData<T>`: removes `t`'s entry; an absent `t` is a no-op. */
    method UnregisterData(t: DataType)
      modifies repository`dataRepository
      ensures repository.dataRepository == old(repository.dataRepository) - {t}
      ensures t !in repository.RegisteredData()
      ensures t !in old(repository.dataRepository) ==> repository.dataRepository == old(repository.dataRepository)
    {
      repository.dataRepository := repository.dataRepository - {t};
    }

    /** `Dispose`, through `Clear`: calls `Clear()` once on every registered
        instance, in the dictionary's order, then empties the repository. */
    method Dispose() returns (ghost order: seq<DataType>)
      modifies repository
      ensures Enumerates(order, old(repository.dataRepository).Keys)
      ensures repository.cleared == old(repository.cleared) + ValuesAt(old(repository.dataRepository), order)
      ensures repository.dataRepository == map[]
    {
      var calls;
      calls, order := ClearCalls(repository.dataRepository);
      repository.cleared := repository.cleared + calls;
      repository.dataRepository := map[];
    }
  }
}
