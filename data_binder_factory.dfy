/**
 * `DataBinderFactory`: owns the current `DataBinder` and forwards
 * registrations to it, returning itself for chaining. The static `Instance`
 * property is held by a `FactoryInstance` object.
 */
module DataBinderFactories {
  import opened DataBinders

  /** The static `DataBinderFactory.Instance`. */
  class FactoryInstance {
    var Instance: DataBinderFactory?

    constructor()
      ensures Instance == null
    {
      Instance := null;
    }
  }

  class DataBinderFactory {
    /** The static repository every binder shares. */
    const repository: Repository
    /** `dataBinder`: null until `CreateDataBinder`. */
    var dataBinder: DataBinder?

    /** Any binder the factory holds works on the shared repository. */
    predicate Valid()
      reads this
    {
      dataBinder != null ==> dataBinder.repository == repository
    }

    /** Constructing a factory makes it the `Instance`. */
    constructor(statics: FactoryInstance, repository: Repository)
      modifies statics
      ensures statics.Instance == this
      ensures this.repository == repository && dataBinder == null && Valid()
    {
      this.repository := repository;
      dataBinder := null;
      new;
      statics.Instance := this;
    }

    /** `CreateDataBinder`: a fresh binder, which empties the repository and
        so discards every earlier registration. */
    method CreateDataBinder()
      modifies this`dataBinder, repository`dataRepository
      ensures dataBinder != null && fresh(dataBinder) && Valid()
      ensures repository.dataRepository == map[]
    {
      dataBinder := new DataBinder(repository);
    }

    /** `RegisterData<T>`: forwards to the binder and returns this factory. */
    method RegisterData(t: DataType, data: BuildData) returns (r: DataBinderFactory)
      requires Valid() && dataBinder != null
      modifies repository`dataRepository
      ensures r == this
      ensures repository.dataRepository == old(repository.dataRepository)[t := data]
    {
      dataBinder.RegisterData(t, data);
      r := this;
    }

    /** `UnregisterData<T>(data)`: removes by the type `t` alone; `data` is
        not looked at. */
    method UnregisterData(t: DataType, data: BuildData) returns (r: DataBinderFactory)
      requires Valid() && dataBinder != null
      modifies repository`dataRepository
      ensures r == this
      ensures repository.dataRepository == old(repository.dataRepository) - {t}
    {
      dataBinder.UnregisterData(t);
      r := this;
    }

    /** `Cleanup`: disposes the binder, clearing every instance once and
        emptying the repository. */
    method Cleanup() returns (ghost order: seq<DataType>)
      requires Valid() && dataBinder != null
      modifies repository
      ensures Enumerates(order, old(repository.dataRepository).Keys)
      ensures repository.cleared == old(repository.cleared) + ValuesAt(old(repository.dataRepository), order)
      ensures repository.dataRepository == map[]
    {
      order := dataBinder.Dispose();
    }
  }

  /** A chain of registrations on one factory: each call returns the same
      factory, and the last registration for a type wins. */
  method RegisterChain(factory: DataBinderFactory, t: DataType, first: BuildData, second: BuildData, u: DataType, other: BuildData)
    returns (r: DataBinderFactory)
    requires factory.Valid() && factory.dataBinder != null && u != t
    modifies factory.repository`dataRepository
    ensures r == factory
    ensures factory.repository.dataRepository == old(factory.repository.dataRepository)[t := second][u := other]
    ensures factory.repository.GetData(t) == second
  {
    r := factory.RegisterData(t, first);
    r := r.RegisterData(u, other);
    r := r.RegisterData(t, second);
    assert old(factory.repository.dataRepository)[t := first][u := other][t := second]
        == old(factory.repository.dataRepository)[t := second][u := other];
  }
}
