/** The feature-set registry (src/features/registry.py): feature-building
    functions by name. Each function takes a frame and returns it with its
    feature columns added; the formulas themselves are not modelled. */
module FeatureRegistry {
  import opened Wrappers
  import opened Frames
  import opened NameRegistry

  type FeatureFn = Frame -> Frame

  /** The decorator: stores the function under `name` and returns it unchanged. */
  method RegisterFeatureSet(reg: Registry<FeatureFn>, name: string, f: FeatureFn) returns (r: FeatureFn)
    requires reg.Valid()
    modifies reg
    ensures reg.Valid()
    ensures r == f
    ensures reg.table == old(reg.table)[name := f]
    ensures reg.names == if name in old(reg.table) then old(reg.names) else old(reg.names) + [name]
  {
    r := reg.Register(name, f);
  }

  /** `get_feature_set`: the most recently registered function, or KeyError. */
  method GetFeatureSet(reg: Registry<FeatureFn>, name: string) returns (r: Result<FeatureFn>)
    ensures name in reg.table ==> r == Ok(reg.table[name])
    ensures name !in reg.table ==> r == Err(KeyError(name))
  {
    r := reg.Get(name);
  }

  /** `list_feature_sets`: the registered names, each once. */
  method ListFeatureSets(reg: Registry<FeatureFn>) returns (r: seq<string>)
    requires reg.Valid()
    ensures r == reg.names
    ensures forall n :: n in r <==> n in reg.table
    ensures forall i, j :: 0 <= i < j < |r| ==> r[i] != r[j]
  {
    r := reg.List();
  }

  /** Importing the builder registers "technical", "volume" and "flow"; they
      are then listed, and an unregistered name raises KeyError. */
  method BuilderImportRegistersSets(technical: FeatureFn, volume: FeatureFn, flow: FeatureFn)
    returns (reg: Registry<FeatureFn>, listed: seq<string>, unknown: Result<FeatureFn>)
    ensures reg.Valid()
    ensures "technical" in listed && "volume" in listed && "flow" in listed
    ensures reg.table == map["technical" := technical, "volume" := volume, "flow" := flow]
    ensures unknown == Err(KeyError("nonexistent"))
  {
    reg := new Registry<FeatureFn>();
    var _ := RegisterFeatureSet(reg, "technical", technical);
    var _ := RegisterFeatureSet(reg, "volume", volume);
    var _ := RegisterFeatureSet(reg, "flow", flow);
    listed := ListFeatureSets(reg);
    unknown := GetFeatureSet(reg, "nonexistent");
  }
}
