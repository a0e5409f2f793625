/** The label-strategy registry (src/labels/registry.py): label generators
    by name. A strategy maps closing prices, a horizon T and a threshold X
    to one label per row, or raises. */
module LabelRegistry {
  import opened Wrappers
  import opened NameRegistry

  type LabelStrategy = (seq<real>, int, real) -> Result<seq<Option<real>>>

  /** The decorator: stores the strategy under `name` and returns it unchanged. */
  method RegisterLabelStrategy(reg: Registry<LabelStrategy>, name: string, f: LabelStrategy) returns (r: LabelStrategy)
    requires reg.Valid()
    modifies reg
    ensures reg.Valid()
    ensures r == f
    ensures reg.table == old(reg.table)[name := f]
    ensures reg.names == if name in old(reg.table) then old(reg.names) else old(reg.names) + [name]
  {
    r := reg.Register(name, f);
  }

  /** `get_label_strategy`: the registered strategy or KeyError. */
  method GetLabelStrategy(reg: Registry<LabelStrategy>, name: string) returns (r: Result<LabelStrategy>)
    ensures name in reg.table ==> r == Ok(reg.table[name])
    ensures name !in reg.table ==> r == Err(KeyError(name))
  {
    r := reg.Get(name);
  }

  /** `list_label_strategies`: the registered names, each once. */
  method ListLabelStrategies(reg: Registry<LabelStrategy>) returns (r: seq<string>)
    requires reg.Valid()
    ensures r == reg.names
    ensures forall n :: n in r <==> n in reg.table
    ensures forall i, j :: 0 <= i < j < |r| ==> r[i] != r[j]
  {
    r := reg.List();
  }

  /** A later registration under the same name replaces the earlier one and
      the name stays listed once. */
  method ReRegistrationReplaces(first: LabelStrategy, second: LabelStrategy)
    returns (got: Result<LabelStrategy>, listed: seq<string>)
    ensures got == Ok(second)
    ensures listed == ["reversal"]
  {
    var reg := new Registry<LabelStrategy>();
    var _ := RegisterLabelStrategy(reg, "reversal", first);
    var _ := RegisterLabelStrategy(reg, "reversal", second);
    got := GetLabelStrategy(reg, "reversal");
    listed := ListLabelStrategies(reg);
  }
}
