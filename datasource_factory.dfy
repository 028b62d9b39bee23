/**
 * The registry of data source types: each type's key maps to the class that
 * builds its data sources, and instances are made on request. The class's
 * static `factory` field is the `FactorySingleton` object.
 */
module DatasourceFactory {
  import opened Wrappers
  import opened JsValues

  /** `DataSourceType`: a key, a display label and the name the backend uses. */
  datatype DataSourceType = DataSourceType(key: string, displayLabel: string, backendName: string)

  /** A data source class, known by name; its constructor is not part of this model. */
  datatype DataSourceClass = DataSourceClass(className: string)

  /** `new dataSourceClass(config)`: the instance is known by its class and the configuration it was built from. */
  datatype DataSourceInstance = DataSourceInstance(dataSourceClass: DataSourceClass, config: Record)

  /** What the table keeps for a key. */
  datatype Registration = Registration(dataSourceClass: DataSourceClass, dataSourceType: DataSourceType)

  const AlreadyRegistered := "This data source type has already been registered"

  const Unsupported := "Unsupported data source type"

  class DataSourceFactory {
    /** The table from type key to its class and type. */
    var dataSources: map<string, Registration>

    /** Every entry is filed under its own type's key. */
    ghost predicate Valid()
      reads this
    {
      forall k :: k in dataSources ==> dataSources[k].dataSourceType.key == k
    }

    constructor ()
      ensures dataSources == map[] && Valid()
    {
      dataSources := map[];
    }

    /**
     * `registerDataSourceType`: a new key is added with its class and type and
     * nothing else changes; a key already in the table is refused and the
     * table is left as it was.
     */
    method RegisterDataSourceType(dataSourceType: DataSourceType, dataSourceClass: DataSourceClass) returns (r: Outcome<string>)
      requires Valid()
      modifies this
      ensures Valid()
      ensures dataSourceType.key in old(dataSources) ==> r == Fail(AlreadyRegistered) && dataSources == old(dataSources)
      ensures dataSourceType.key !in old(dataSources) ==>
        r == Pass && dataSources == old(dataSources)[dataSourceType.key := Registration(dataSourceClass, dataSourceType)]
    {
      if dataSourceType.key in dataSources {
        return Fail(AlreadyRegistered);
      }
      dataSources := dataSources[dataSourceType.key := Registration(dataSourceClass, dataSourceType)];
      return Pass;
    }

    /**
     * `getDataSourceInstance`: a registered key gives a new instance of its
     * class built from `config`; any other key is unsupported.
     */
    method GetDataSourceInstance(key: string, config: Record) returns (r: Result<DataSourceInstance, string>)
      ensures r.Ok? <==> key in dataSources
      ensures r.Ok? ==> r.value == DataSourceInstance(dataSources[key].dataSourceClass, config)
      ensures r.Err? ==> r.error == Unsupported
    {
      if key !in dataSources {
        return Err(Unsupported);
      }
      var dataSource := dataSources[key];
      return Ok(DataSourceInstance(dataSource.dataSourceClass, config));
    }
  }

  /** The static `factory` field and `getInstance`. */
  class FactorySingleton {
    var factory: DataSourceFactory?

    constructor ()
      ensures factory == null
    {
      factory := null;
    }

    /** The first call makes an empty factory; every call returns that same object. */
    method GetInstance() returns (f: DataSourceFactory)
      modifies this
      ensures factory == f
      ensures old(factory) != null ==> f == old(factory)
      ensures old(factory) == null ==> fresh(f) && f.dataSources == map[] && f.Valid()
    {
      if factory == null {
        factory := new DataSourceFactory();
      }
      return factory;
    }
  }

  /**
   * The check at the head of `registerDataSourceType` as written: whether
   * `this.dataSources[key]` is truthy, which it also is for the names every
   * object inherits.
   */
  predicate LooksRegisteredAsWritten(dataSources: map<string, Registration>, key: string) {
    key in dataSources || key in ObjectPrototypeNames
  }

  /** As written, an empty factory refuses to register a type whose key is `constructor`. */
  lemma InheritedKeyRefusedAsWritten()
    ensures var empty: map<string, Registration> := map[];
      "constructor" !in empty && LooksRegisteredAsWritten(empty, "constructor")
  {
  }
}
