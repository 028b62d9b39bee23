/**
 * The registry of search bar extensions: an ordered list of configurations,
 * at most one per id, that can be emptied.
 */
module SearchBarExtensions {
  import opened Wrappers

  /** A search bar extension: its id and display order. */
  datatype SearchBarExtensionConfig = SearchBarExtensionConfig(id: string, order: int)

  /** `configs.some((c) => c.id === id)`. */
  function HasId(configs: seq<SearchBarExtensionConfig>, id: string): (b: bool)
    ensures b <==> exists i :: 0 <= i < |configs| && configs[i].id == id
  {
    if configs == [] then false
    else configs[0].id == id || HasId(configs[1..], id)
  }

  ghost predicate DistinctIds(configs: seq<SearchBarExtensionConfig>) {
    forall i, j :: 0 <= i < j < |configs| ==> configs[i].id != configs[j].id
  }

  function AlreadyRegistered(id: string): string {
    "Search bar extension with id \"" + id + "\" already registered"
  }

  class SearchBarExtensionsRegistry {
    var configs: seq<SearchBarExtensionConfig>

    /** No two configurations share an id. */
    ghost predicate Valid()
      reads this
    {
      DistinctIds(configs)
    }

    constructor ()
      ensures configs == [] && Valid()
    {
      configs := [];
    }

    /**
     * `register`: a configuration with a new id goes at the end and the ones
     * before it keep their order; an id already present is refused and the
     * list is left as it was.
     */
    method Register(config: SearchBarExtensionConfig) returns (r: Outcome<string>)
      requires Valid()
      modifies this
      ensures Valid()
      ensures HasId(old(configs), config.id) ==> r == Fail(AlreadyRegistered(config.id)) && configs == old(configs)
      ensures !HasId(old(configs), config.id) ==> r == Pass && configs == old(configs) + [config]
    {
      if HasId(configs, config.id) {
        return Fail(AlreadyRegistered(config.id));
      }
      configs := configs + [config];
      return Pass;
    }

    /** `getAll`. */
    method GetAll() returns (all: seq<SearchBarExtensionConfig>)
      ensures all == configs
    {
      return configs;
    }

    /** `clear`: the list is emptied, so every id can be registered again. */
    method Clear()
      modifies this
      ensures configs == [] && Valid()
      ensures forall id :: !HasId(configs, id)
    {
      configs := [];
    }
  }
}
