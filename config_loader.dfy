/**
  * `load_config`: the mapping rules are read from a YAML file, the legacy
  * `PROJECT_MAPPINGS` variable (`KEY|Name;KEY|Name`) is parsed and laid over the YAML
  * project mappings, and when no project filter is configured the merged mapping's keys
  * become the filter.  The file's content and the variable are parameters.
  */
module ConfigLoader {
  import opened Wrappers
  import opened Text
  import opened Dicts
  import opened AppConfig

  /** The mapping rules document: its `project_mappings` section and every other section. */
  datatype Rules = Rules(projectMappings: Option<Dict<string, string>>, other: map<string, Json>)

  /** The YAML read: no file, a file that loads as nothing, or a document. */
  datatype YamlFile = NotFound | Loaded(doc: Option<Rules>)

  /** What `load_config` leaves in the application configuration it returns. */
  datatype LoadedConfig = LoadedConfig(mappingRules: Rules, filterProjectKeys: Option<seq<string>>)

  /** A YAML mapping is a well-formed dictionary. */
  ghost predicate WellFormed(yaml: YamlFile) {
    yaml.Loaded? && yaml.doc.Some? && yaml.doc.value.projectMappings.Some?
    ==> yaml.doc.value.projectMappings.value.Valid()
  }

  /**
    * The environment mappings built from the `;`-separated items: an item holding `|` is
    * split at its first `|` and both sides are stripped; any other item is ignored.  A
    * later item for the same key overwrites the earlier value.
    */
  function EnvProjectMappings(items: seq<string>): (d: Dict<string, string>)
    ensures d.Valid()
    decreases |items|
  {
    if items == [] then EmptyDict()
    else
      var d := EnvProjectMappings(items[..|items| - 1]);
      var item := items[|items| - 1];
      if Contains(item, "|") then
        var parts := SplitOnce(item, "|");
        d.Put(Strip(parts[0]), Strip(parts[1]))
      else d
  }

  /** The reference reading: the value of the last item that names `key`. */
  function LastFor(items: seq<string>, key: string): Option<string>
    decreases |items|
  {
    if items == [] then None
    else
      var item := items[|items| - 1];
      if Contains(item, "|") && Strip(SplitOnce(item, "|")[0]) == key then
        Some(Strip(SplitOnce(item, "|")[1]))
      else LastFor(items[..|items| - 1], key)
  }

  /** The parsed mapping holds, for each key, the value of the last item that names it. */
  lemma {:induction false} EnvProjectMappingsLastWins(items: seq<string>, key: string)
    ensures EnvProjectMappings(items).Get(key) == LastFor(items, key)
    decreases |items|
  {
    if items != [] {
      EnvProjectMappingsLastWins(items[..|items| - 1], key);
    }
  }

  /** An item without `|` changes nothing. */
  lemma PlainItemIgnored(items: seq<string>, item: string)
    requires !Contains(item, "|")
    ensures EnvProjectMappings(items + [item]) == EnvProjectMappings(items)
  {
    assert (items + [item])[..|items|] == items;
  }

  /** The items of a non-empty variable; an empty or unset variable gives none. */
  function Items(raw: string): (r: seq<string>)
    ensures raw == "" ==> r == []
  {
    if raw == "" then [] else Split(raw, ";")
  }

  /** `{**yaml_mappings, **env_mappings}` */
  function FinalMappings(rules: Rules, raw: string): (d: Dict<string, string>)
    requires rules.projectMappings.Some? ==> rules.projectMappings.value.Valid()
    ensures d.Valid()
  {
    Merge(rules.projectMappings.GetOr(EmptyDict()), EnvProjectMappings(Items(raw)))
  }

  /** A configured filter is truthy when it is a non-empty list. */
  predicate Truthy(filter: Option<seq<string>>) {
    filter.Some? && filter.value != []
  }

  /** The rules after the merge, and the filter after its default. */
  function Apply(filter: Option<seq<string>>, rules: Rules, raw: string): (r: LoadedConfig)
    requires rules.projectMappings.Some? ==> rules.projectMappings.value.Valid()
    ensures r.mappingRules.other == rules.other
  {
    var final := FinalMappings(rules, raw);
    var keys := if !Truthy(filter) && final.entries != map[] then Some(final.order) else filter;
    LoadedConfig(rules.(projectMappings := Some(final)), keys)
  }

  /**
    * `load_config` from the filter the configuration manager returned, the YAML read and
    * the `PROJECT_MAPPINGS` variable.  A missing file counts as `{"project_mappings": {}}`;
    * a file that loads as nothing makes `.get` raise.
    */
  function LoadConfig(filter: Option<seq<string>>, yaml: YamlFile, projectMappings: Option<string>)
    : (r: Result<LoadedConfig>)
    requires WellFormed(yaml)
    ensures r.Err? <==> yaml == Loaded(None)
  {
    match yaml
    case Loaded(None) => Err("AttributeError: 'NoneType' object has no attribute 'get'")
    case NotFound => Ok(Apply(filter, Rules(Some(EmptyDict()), map[]), projectMappings.GetOr("")))
    case Loaded(Some(rules)) => Ok(Apply(filter, rules, projectMappings.GetOr("")))
  }

  /** The rules `load_config` starts from. */
  function RulesOf(yaml: YamlFile): Rules
    requires yaml != Loaded(None)
  {
    match yaml
    case NotFound => Rules(Some(EmptyDict()), map[])
    case Loaded(Some(rules)) => rules
  }

  /**
    * The merge: every key the variable names takes the variable's value, every other
    * YAML key keeps its value, and no other key appears.
    */
  lemma EnvOverridesYaml(filter: Option<seq<string>>, yaml: YamlFile, raw: string)
    requires WellFormed(yaml) && yaml != Loaded(None)
    ensures var pm := LoadConfig(filter, yaml, Some(raw)).value.mappingRules.projectMappings;
            var env := EnvProjectMappings(Items(raw));
            var base := RulesOf(yaml).projectMappings.GetOr(EmptyDict());
            pm.Some?
            && pm.value.Keys() == base.Keys() + env.Keys()
            && (forall k :: k in env.entries ==> pm.value.entries[k] == env.entries[k])
            && (forall k :: k in base.entries && k !in env.entries ==> pm.value.entries[k] == base.entries[k])
  {
  }

  /** A missing file contributes nothing: the mapping is the variable's alone. */
  lemma MissingFileUsesVariable(filter: Option<seq<string>>, raw: string)
    ensures var pm := LoadConfig(filter, NotFound, Some(raw)).value.mappingRules;
            pm.other == map[]
            && pm.projectMappings.Some?
            && pm.projectMappings.value.entries == EnvProjectMappings(Items(raw)).entries
  {
  }

  /** The other sections of the rules document are kept. */
  lemma OtherSectionsKept(filter: Option<seq<string>>, rules: Rules, raw: Option<string>)
    requires rules.projectMappings.Some? ==> rules.projectMappings.value.Valid()
    ensures LoadConfig(filter, Loaded(Some(rules)), raw).value.mappingRules.other == rules.other
  {
  }

  /**
    * The filter: a configured non-empty list stays; otherwise a non-empty merged mapping's
    * keys, in its order, become the filter; otherwise the configured value stays.
    */
  lemma FilterDefaultsToMappingKeys(filter: Option<seq<string>>, yaml: YamlFile, raw: Option<string>)
    requires WellFormed(yaml) && yaml != Loaded(None)
    ensures var r := LoadConfig(filter, yaml, raw).value;
            var pm := r.mappingRules.projectMappings.value;
            (Truthy(filter) ==> r.filterProjectKeys == filter)
            && (!Truthy(filter) && pm.entries != map[] ==>
                  r.filterProjectKeys == Some(pm.order)
                  && forall k :: k in r.filterProjectKeys.value <==> k in pm.entries)
            && (!Truthy(filter) && pm.entries == map[] ==> r.filterProjectKeys == filter)
  {
  }

  /** The loop that builds the environment mappings. */
  method ParseProjectMappings(raw: string) returns (d: Dict<string, string>)
    ensures d == EnvProjectMappings(Items(raw))
  {
    d := EmptyDict();
    if raw == "" {
      return;
    }
    var items := Split(raw, ";");
    var i := 0;
    while i < |items|
      invariant 0 <= i <= |items|
      invariant d == EnvProjectMappings(items[..i])
    {
      var item := items[i];
      assert items[..i + 1][..i] == items[..i];
      if Contains(item, "|") {
        var parts := SplitOnce(item, "|");
        d := d.Put(Strip(parts[0]), Strip(parts[1]));
      }
      i := i + 1;
    }
    assert items[..i] == items;
  }
}
