/** Configuration: built-in defaults overlaid with the project's YAML file by a recursive merge. */
module Config {
  import opened Wrappers
  import opened Values

  /** `DEFAULT_CONFIG` */
  const DefaultConfig: map<string, Value> := map[
    "token_budget" := Int(2000),
    "consolidation_threshold" := Int(5),
    "active_hooks" := List([Str("SessionEnd"), Str("SessionStart")])
  ]

  /** What opening and decoding the project's configuration file gives. */
  datatype ConfigFile =
    | Missing                // no file at the configuration path
    | Unreadable             // reading or YAML decoding raises
    | Present(parsed: Value) // what `yaml.safe_load` returned

  predicate BothDicts(a: Value, b: Value) {
    a.Dict? && b.Dict?
  }

  /**
   * `_deep_merge(base, override)`: a copy of `base` in which every key of
   * `override` is replaced by its value, except that where both sides hold
   * mappings the two are merged recursively.
   */
  function DeepMerge(base: map<string, Value>, override: map<string, Value>): (r: map<string, Value>)
    decreases Dict(override)
    ensures r.Keys == base.Keys + override.Keys
    ensures forall k :: k in base && k !in override ==> r[k] == base[k]
    ensures forall k :: k in override && !(k in base && BothDicts(base[k], override[k])) ==> r[k] == override[k]
    ensures forall k :: k in override && k in base && BothDicts(base[k], override[k]) ==>
              r[k] == Dict(DeepMerge(base[k].entries, override[k].entries))
  {
    map k | k in base.Keys + override.Keys ::
      if k !in override then base[k]
      else if k in base && BothDicts(base[k], override[k]) then
        Dict(DeepMerge(base[k].entries, override[k].entries))
      else override[k]
  }

  /** Merging with an empty override returns the base unchanged. */
  lemma MergeEmptyOverride(base: map<string, Value>)
    ensures DeepMerge(base, map[]) == base
  {
  }

  /** Merging a mapping with itself changes nothing, at every depth. */
  lemma {:induction false} MergeSelf(m: map<string, Value>)
    ensures DeepMerge(m, m) == m
    decreases Dict(m)
  {
    var r := DeepMerge(m, m);
    forall k | k in m
      ensures r[k] == m[k]
    {
      if m[k].Dict? {
        MergeSelf(m[k].entries);
      }
    }
  }

  /** Applying the same override a second time changes nothing. */
  lemma {:induction false} MergeOverrideTwice(base: map<string, Value>, override: map<string, Value>)
    ensures DeepMerge(DeepMerge(base, override), override) == DeepMerge(base, override)
    decreases Dict(override)
  {
    var once := DeepMerge(base, override);
    var twice := DeepMerge(once, override);
    forall k | k in once
      ensures twice[k] == once[k]
    {
      if k in override && BothDicts(once[k], override[k]) {
        if k in base && BothDicts(base[k], override[k]) {
          MergeOverrideTwice(base[k].entries, override[k].entries);
        } else {
          MergeSelf(override[k].entries);
        }
      }
    }
  }

  /**
   * `load_config`: the defaults when the file is missing or decodes to
   * nothing, the merge of the defaults with the file's mapping otherwise;
   * `None` where the source raises (an unreadable file, or a truthy value
   * that is not a mapping).
   */
  function LoadConfig(file: ConfigFile): (r: Option<map<string, Value>>)
    ensures file.Missing? ==> r == Some(DefaultConfig)
    ensures file.Unreadable? ==> r == None
    ensures file.Present? && !Truthy(file.parsed) ==> r == Some(DefaultConfig)
    ensures file.Present? && file.parsed.Dict? ==> r == Some(DeepMerge(DefaultConfig, file.parsed.entries))
    ensures file.Present? && Truthy(file.parsed) && !file.parsed.Dict? ==> r == None
    ensures r.Some? ==> DefaultConfig.Keys <= r.value.Keys
  {
    match file
    case Missing => Some(DefaultConfig)
    case Unreadable => None
    case Present(v) =>
      var user := if Truthy(v) then v else Dict(map[]);
      if user.Dict? then
        MergeEmptyOverride(DefaultConfig);
        Some(DeepMerge(DefaultConfig, user.entries))
      else None
  }

  /** A file that sets only some keys keeps the defaults of all the others. */
  lemma PartialOverrideKeepsDefaults(override: map<string, Value>, k: string)
    requires k in DefaultConfig && k !in override
    ensures LoadConfig(Present(Dict(override))) == Some(DeepMerge(DefaultConfig, override))
    ensures LoadConfig(Present(Dict(override))).value[k] == DefaultConfig[k]
  {
  }
}
