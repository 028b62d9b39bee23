/**
 * The registry of data sources by name. Registration adds a source under a
 * new name and publishes the new registry to the `dataSources$` subject;
 * lookups return the whole registry or the part of it a list of names asks
 * for. The class's static `dataSourceService` field is the `ServiceSingleton`
 * object.
 */
module DatasourceService {
  import opened Wrappers
  import opened JsValues

  /** A data source: `getName()`, `getType()` and `getMetadata()` read these. */
  datatype DataSource = DataSource(name: string, kind: string, metadata: JsValue)

  /** `IDataSourceRegistrationResult`. */
  datatype RegistrationResult = RegistrationResult(success: bool, info: string)

  /** `DataSourceRegistrationError`: its `success` is false and its `info` is the message. */
  datatype RegistrationError = RegistrationError(message: string)

  /** `IDataSourceFilters`. */
  datatype DataSourceFilters = DataSourceFilters(names: seq<string>)

  type Registry = map<string, DataSource>

  function NameExists(name: string): string {
    "Unable to register datasource " + name + ", error: datasource name exists."
  }

  /** What registering `ds` answers, given the registry before it. */
  function RegistrationOutcome(registry: Registry, ds: DataSource): Result<RegistrationResult, RegistrationError> {
    if ds.name in registry then Err(RegistrationError(NameExists(ds.name))) else Ok(RegistrationResult(true, ""))
  }

  /** The registry after `ds` is registered: a new name is added, an existing one refused. */
  function Registered(registry: Registry, ds: DataSource): Registry {
    if ds.name in registry then registry else registry[ds.name := ds]
  }

  /** The registry after each of `dss` is registered, in order. */
  function RegisteredAll(registry: Registry, dss: seq<DataSource>): Registry {
    if dss == [] then registry
    else Registered(RegisteredAll(registry, dss[..|dss| - 1]), dss[|dss| - 1])
  }

  /** What each registration in turn answers. */
  function Outcomes(registry: Registry, dss: seq<DataSource>): (rs: seq<Result<RegistrationResult, RegistrationError>>)
    ensures |rs| == |dss|
  {
    if dss == [] then []
    else Outcomes(registry, dss[..|dss| - 1]) + [RegistrationOutcome(RegisteredAll(registry, dss[..|dss| - 1]), dss[|dss| - 1])]
  }

  /** The registries the subject is given, one per successful registration. */
  function Published(registry: Registry, dss: seq<DataSource>): seq<Registry> {
    if dss == [] then []
    else
      var before := RegisteredAll(registry, dss[..|dss| - 1]);
      Published(registry, dss[..|dss| - 1]) + (if dss[|dss| - 1].name in before then [] else [Registered(before, dss[|dss| - 1])])
  }

  /**
   * `Promise.all` over settled registrations: the results in order when all
   * succeeded, else the first failure in list order.
   */
  function AllOf(rs: seq<Result<RegistrationResult, RegistrationError>>): (r: Result<seq<RegistrationResult>, RegistrationError>)
    ensures r.Ok? <==> forall i :: 0 <= i < |rs| ==> rs[i].Ok?
    ensures r.Ok? ==> |r.value| == |rs| && forall i :: 0 <= i < |rs| ==> rs[i] == Ok(r.value[i])
    ensures r.Err? ==> exists i :: 0 <= i < |rs| && rs[i] == Err(r.error) && forall j :: 0 <= j < i ==> rs[j].Ok?
  {
    if rs == [] then Ok([])
    else if rs[0].Err? then Err(rs[0].error)
    else
      match AllOf(rs[1..])
      case Ok(vs) => Ok([rs[0].value] + vs)
      case Err(e) =>
        assert exists i :: 0 <= i < |rs[1..]| && rs[1..][i] == Err(e) && forall j :: 0 <= j < i ==> rs[1..][j].Ok?;
        var i :| 0 <= i < |rs[1..]| && rs[1..][i] == Err(e) && forall j :: 0 <= j < i ==> rs[1..][j].Ok?;
        assert rs[i + 1] == Err(e);
        Err(e)
  }

  /** The part of the registry under the names asked for, filled in name by name. */
  function Filtered(registry: Registry, names: seq<string>): Registry {
    if names == [] then map[]
    else
      var f := Filtered(registry, names[..|names| - 1]);
      var name := names[|names| - 1];
      if name in registry then f[name := registry[name]] else f
  }

  /** No earlier source in the list has the same name as the `i`-th. */
  ghost predicate FirstOfItsName(dss: seq<DataSource>, i: int)
    requires 0 <= i < |dss|
  {
    forall j :: 0 <= j < i ==> dss[j].name != dss[i].name
  }

  /** After registering a list, the names registered are the old ones and those in the list. */
  lemma {:induction false} RegisteredAllKeys(registry: Registry, dss: seq<DataSource>)
    ensures forall k :: k in RegisteredAll(registry, dss) <==> k in registry || exists i :: 0 <= i < |dss| && dss[i].name == k
  {
    if dss != [] {
      var init, ds := dss[..|dss| - 1], dss[|dss| - 1];
      RegisteredAllKeys(registry, init);
      forall k ensures k in RegisteredAll(registry, dss) <==> k in registry || exists i :: 0 <= i < |dss| && dss[i].name == k {
        if k != ds.name && exists i :: 0 <= i < |dss| && dss[i].name == k {
          var i :| 0 <= i < |dss| && dss[i].name == k;
          assert init[i] == dss[i];
        }
      }
    }
  }

  /** Registering a list never replaces an entry. */
  lemma {:induction false} RegisteredAllKeeps(registry: Registry, dss: seq<DataSource>)
    ensures forall k :: k in registry ==> k in RegisteredAll(registry, dss) && RegisteredAll(registry, dss)[k] == registry[k]
  {
    if dss != [] {
      RegisteredAllKeeps(registry, dss[..|dss| - 1]);
    }
  }

  /** Every name in the list that was not registered ends up mapped to the first source of that name. */
  lemma {:induction false} RegisteredAllAdds(registry: Registry, dss: seq<DataSource>)
    ensures forall i :: 0 <= i < |dss| && dss[i].name !in registry && FirstOfItsName(dss, i) ==>
      dss[i].name in RegisteredAll(registry, dss) && RegisteredAll(registry, dss)[dss[i].name] == dss[i]
  {
    if dss != [] {
      var init, ds := dss[..|dss| - 1], dss[|dss| - 1];
      RegisteredAllAdds(registry, init);
      var before := RegisteredAll(registry, init);
      var after := RegisteredAll(registry, dss);
      forall i | 0 <= i < |init| && init[i].name !in registry && FirstOfItsName(init, i)
        ensures init[i].name in after && after[init[i].name] == init[i]
      {
      }
      if ds.name !in registry && FirstOfItsName(dss, |init|) {
        RegisteredAllKeys(registry, init);
        assert forall j :: 0 <= j < |init| ==> init[j].name != ds.name;
        assert ds.name !in before;
      }
      forall i | 0 <= i < |dss| && dss[i].name !in registry && FirstOfItsName(dss, i)
        ensures dss[i].name in after && after[dss[i].name] == dss[i]
      {
        if i < |init| {
          assert init[i] == dss[i];
          assert FirstOfItsName(init, i);
        }
      }
    }
  }

  /**
   * The `i`-th registration of a list succeeds exactly when its name was
   * neither registered before nor taken by an earlier source in the list.
   */
  lemma OutcomesExactly(registry: Registry, dss: seq<DataSource>)
    ensures var rs := Outcomes(registry, dss);
      forall i :: 0 <= i < |dss| ==>
        (rs[i].Ok? <==> dss[i].name !in registry && FirstOfItsName(dss, i)) &&
        (rs[i].Ok? ==> rs[i].value == RegistrationResult(true, "")) &&
        (rs[i].Err? ==> rs[i].error == RegistrationError(NameExists(dss[i].name)))
  {
    forall i | 0 <= i < |dss|
      ensures Outcomes(registry, dss)[i] == RegistrationOutcome(RegisteredAll(registry, dss[..i]), dss[i])
    {
      OutcomesPrefix(registry, dss, i);
    }
    forall i | 0 <= i < |dss|
      ensures dss[i].name in RegisteredAll(registry, dss[..i]) <==> dss[i].name in registry || !FirstOfItsName(dss, i)
    {
      RegisteredAllKeys(registry, dss[..i]);
      assert forall j :: 0 <= j < i ==> dss[..i][j] == dss[j];
    }
  }

  /** The `i`-th outcome is the answer to the `i`-th registration, after the ones before it. */
  lemma {:induction false} OutcomesPrefix(registry: Registry, dss: seq<DataSource>, i: nat)
    requires i < |dss|
    ensures Outcomes(registry, dss)[i] == RegistrationOutcome(RegisteredAll(registry, dss[..i]), dss[i])
  {
    var init := dss[..|dss| - 1];
    if i < |init| {
      OutcomesPrefix(registry, init, i);
      assert init[..i] == dss[..i];
    }
  }

  /** The filtered registry holds exactly the names asked for that are registered, with their sources. */
  lemma {:induction false} FilteredExactly(registry: Registry, names: seq<string>)
    ensures var f := Filtered(registry, names);
      (forall k :: k in f <==> k in names && k in registry) &&
      forall k :: k in f ==> f[k] == registry[k]
  {
    if names != [] {
      var init := names[..|names| - 1];
      FilteredExactly(registry, init);
      assert names == init + [names[|names| - 1]];
    }
  }

  /** Registering one more source of a list extends each of the three by that registration. */
  lemma RegisterStep(registry: Registry, dss: seq<DataSource>, i: nat)
    requires i < |dss|
    ensures var before := RegisteredAll(registry, dss[..i]);
      RegisteredAll(registry, dss[..i + 1]) == Registered(before, dss[i]) &&
      Outcomes(registry, dss[..i + 1]) == Outcomes(registry, dss[..i]) + [RegistrationOutcome(before, dss[i])] &&
      Published(registry, dss[..i + 1]) ==
        Published(registry, dss[..i]) + (if dss[i].name in before then [] else [Registered(before, dss[i])])
  {
    assert dss[..i + 1][..i] == dss[..i];
  }

  class DataSourceService {
    /** The registered sources by name. */
    var dataSources: Registry
    /** What the `dataSources$` subject has carried: its initial registry, then one per registration. */
    var published: seq<Registry>

    /** The subject's current value is the registry. */
    ghost predicate Valid()
      reads this
    {
      published != [] && published[|published| - 1] == dataSources
    }

    constructor ()
      ensures dataSources == map[] && published == [map[]] && Valid()
    {
      dataSources := map[];
      published := [map[]];
    }

    /**
     * `registerDataSource`: a new name is added with its source, the new
     * registry is published, and the answer is success; a name already
     * registered is refused and nothing changes.
     */
    method RegisterDataSource(ds: DataSource) returns (r: Result<RegistrationResult, RegistrationError>)
      requires Valid()
      modifies this
      ensures Valid()
      ensures ds.name in old(dataSources) ==>
        r == Err(RegistrationError(NameExists(ds.name))) && dataSources == old(dataSources) && published == old(published)
      ensures ds.name !in old(dataSources) ==>
        r == Ok(RegistrationResult(true, "")) && dataSources == old(dataSources)[ds.name := ds] &&
        published == old(published) + [dataSources]
    {
      var dsName := ds.name;
      if dsName in dataSources {
        return Err(RegistrationError(NameExists(dsName)));
      }
      dataSources := dataSources[dsName := ds];
      published := published + [dataSources];
      return Ok(RegistrationResult(true, ""));
    }

    /**
     * `registerMultipleDataSources`: every registration is attempted, in
     * order, whatever the earlier ones answered; the answer is all the
     * results, or the first failure.
     */
    method RegisterMultipleDataSources(dss: seq<DataSource>) returns (r: Result<seq<RegistrationResult>, RegistrationError>)
      requires Valid()
      modifies this
      ensures Valid()
      ensures dataSources == RegisteredAll(old(dataSources), dss)
      ensures published == old(published) + Published(old(dataSources), dss)
      ensures r == AllOf(Outcomes(old(dataSources), dss))
    {
      var results: seq<Result<RegistrationResult, RegistrationError>> := [];
      for i := 0 to |dss|
        invariant Valid()
        invariant dataSources == RegisteredAll(old(dataSources), dss[..i])
        invariant published == old(published) + Published(old(dataSources), dss[..i])
        invariant results == Outcomes(old(dataSources), dss[..i])
      {
        RegisterStep(old(dataSources), dss, i);
        var result := RegisterDataSource(dss[i]);
        results := results + [result];
      }
      assert dss[..|dss|] == dss;
      return AllOf(results);
    }

    /**
     * `getDataSources`: the whole registry without a filter or with no
     * names, else the registered sources under the names asked for.
     */
    method GetDataSources(filters: Option<DataSourceFilters>) returns (r: Registry)
      ensures filters.None? || filters.value.names == [] ==> r == dataSources
      ensures filters.Some? && filters.value.names != [] ==> r == Filtered(dataSources, filters.value.names)
    {
      if filters.None? || filters.value.names == [] {
        return dataSources;
      }
      var names := filters.value.names;
      var filteredDataSources: Registry := map[];
      for i := 0 to |names|
        invariant filteredDataSources == Filtered(dataSources, names[..i])
      {
        var dsName := names[i];
        if dsName in dataSources {
          filteredDataSources := filteredDataSources[dsName := dataSources[dsName]];
        }
        assert names[..i + 1][..i] == names[..i];
      }
      assert names[..|names|] == names;
      return filteredDataSources;
    }
  }

  /** The static `dataSourceService` field and `getInstance`. */
  class ServiceSingleton {
    var dataSourceService: DataSourceService?

    constructor ()
      ensures dataSourceService == null
    {
      dataSourceService := null;
    }

    /** The first call makes an empty service; every call returns that same object. */
    method GetInstance() returns (s: DataSourceService)
      modifies this
      ensures dataSourceService == s
      ensures old(dataSourceService) != null ==> s == old(dataSourceService)
      ensures old(dataSourceService) == null ==> fresh(s) && s.dataSources == map[] && s.Valid()
    {
      if dataSourceService == null {
        dataSourceService := new DataSourceService();
      }
      return dataSourceService;
    }
  }

  /** The `dsName in this.dataSources` test as written: `in` also finds the names every object inherits. */
  predicate InAsWritten(dataSources: Registry, name: string) {
    name in dataSources || name in ObjectPrototypeNames
  }

  /**
   * As written, an empty registry refuses a source named `toString`, and a
   * lookup of `toString` finds an entry in it.
   */
  lemma InheritedNameRefusedAsWritten()
    ensures var empty: Registry := map[];
      "toString" !in empty && InAsWritten(empty, "toString")
  {
  }
}
