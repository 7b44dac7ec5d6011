/**
  * The project map of the minimal engine: Jira project key -> Solidtime project name.
  * Which order the keys were added in is never observed, so the map is a plain `map`.
  */
module ProjectMapper {
  import opened Wrappers

  class Mapper {
    var mappings: map<string, string>

    /** The mapper starts from the configured map (the source keeps the caller's dict itself). */
    constructor (mappings: map<string, string>)
      ensures this.mappings == mappings
    {
      this.mappings := mappings;
    }

    /** `map_project`: the stored name, or `None` for an unmapped key. */
    function MapProject(jiraKey: string): (r: Option<string>)
      reads this
      ensures r.Some? <==> jiraKey in mappings
      ensures r.Some? ==> r.value == mappings[jiraKey]
    {
      if jiraKey in mappings then Some(mappings[jiraKey]) else None
    }

    /** `add_mapping`: the key now maps to the name, every other key as before. */
    method AddMapping(jiraKey: string, solidtimeName: string)
      modifies this
      ensures mappings == old(mappings)[jiraKey := solidtimeName]
      ensures MapProject(jiraKey) == Some(solidtimeName)
      ensures forall k :: k != jiraKey ==> MapProject(k) == old(MapProject(k))
    {
      mappings := mappings[jiraKey := solidtimeName];
    }

    /**
      * `get_all_mappings`: a copy that answers every lookup as the mapper does.  It is a
      * value, so later changes of the mapper do not reach it.
      */
    function GetAllMappings(): (r: map<string, string>)
      reads this
      ensures forall k :: (k in r) == MapProject(k).Some?
      ensures forall k :: k in r ==> MapProject(k) == Some(r[k])
    {
      mappings
    }
  }
}
