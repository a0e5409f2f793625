/** The classifier registry (src/models/registry.py): classifier families
    by name, and construction of a fresh classifier from a name. */
module ModelRegistry {
  import opened Wrappers
  import opened Classifier
  import opened NameRegistry

  /** `register_model(name)` applied to a class: stores it, returns it unchanged. */
  method RegisterModel(reg: Registry<Family>, name: string, cls: Family) returns (r: Family)
    requires reg.Valid()
    modifies reg
    ensures reg.Valid()
    ensures r == cls
    ensures reg.table == old(reg.table)[name := cls]
    ensures reg.names == if name in old(reg.table) then old(reg.names) else old(reg.names) + [name]
  {
    r := reg.Register(name, cls);
  }

  /** `get_model_class`: the registered class or KeyError. */
  method GetModelClass(reg: Registry<Family>, name: string) returns (r: Result<Family>)
    ensures name in reg.table ==> r == Ok(reg.table[name])
    ensures name !in reg.table ==> r == Err(KeyError(name))
  {
    r := reg.Get(name);
  }

  /** `create_model`: a new, unfitted instance of the registered class,
      whose constructor merges the given parameters over its defaults;
      KeyError for an unknown name. */
  method CreateModel(reg: Registry<Family>, name: string, params: Option<Params>) returns (r: Result<BaseModel>)
    ensures name !in reg.table ==> r == Err(KeyError(name))
    ensures name in reg.table ==>
      && r.Ok? && fresh(r.value) && r.value.Valid()
      && r.value.family == reg.table[name] && r.value.params == MergedParams(reg.table[name], params)
      && !r.value.isFitted
  {
    var cls := GetModelClass(reg, name);
    if cls.Err? {
      return Err(cls.error);
    }
    var m := new BaseModel(cls.value, Some(MergedParams(cls.value, params)));
    r := Ok(m);
  }

  /** `list_models`: every registered name, once. */
  method ListModels(reg: Registry<Family>) returns (r: seq<string>)
    requires reg.Valid()
    ensures r == reg.names
    ensures forall n :: n in r <==> n in reg.table
    ensures forall i, j :: 0 <= i < j < |r| ==> r[i] != r[j]
  {
    r := reg.List();
  }

  /** `DEFAULT_PARAMS` of the LightGBM class. */
  const LightGbmDefaults: Params := map[
    "n_estimators" := PInt(500), "max_depth" := PInt(6), "learning_rate" := PReal(0.05),
    "num_leaves" := PInt(31), "subsample" := PReal(0.8), "colsample_bytree" := PReal(0.8),
    "min_child_samples" := PInt(20), "reg_alpha" := PReal(0.1), "reg_lambda" := PReal(0.1),
    "random_state" := PInt(42), "verbose" := PInt(-1), "objective" := PStr("multiclass"),
    "num_class" := PInt(3)]

  /** Importing the LightGBM module registers its class as "lightgbm":
      afterwards the name is listed, `create_model("lightgbm")` yields an
      unfitted classifier holding the class's default parameters, given
      parameters override single defaults, and an unknown name raises
      KeyError. The class's learning behaviour is a parameter. */
  method LightGbmRegistration(train: (Params, seq<Row>, seq<int>) -> Result<Trained>,
                              predict: (Trained, seq<Row>) -> Result<seq<int>>,
                              predictProba: (Trained, seq<Row>) -> Result<seq<seq<real>>>,
                              importance: Trained -> seq<real>)
    returns (listed: seq<string>, created: Result<BaseModel>, tuned: Result<BaseModel>, unknown: Result<Family>)
    ensures "lightgbm" in listed
    ensures created.Ok? && !created.value.isFitted && created.value.params == LightGbmDefaults
    ensures created.value.params["n_estimators"] == PInt(500) && created.value.params["num_class"] == PInt(3)
    ensures tuned.Ok? && tuned.value.params == LightGbmDefaults["max_depth" := PInt(4)]
    ensures unknown == Err(KeyError("nonexistent"))
  {
    var lightgbm := Family("lightgbm", LightGbmDefaults, train, predict, predictProba, importance);
    var reg := new Registry<Family>();
    var _ := RegisterModel(reg, "lightgbm", lightgbm);
    listed := ListModels(reg);
    created := CreateModel(reg, "lightgbm", None);
    tuned := CreateModel(reg, "lightgbm", Some(map["max_depth" := PInt(4)]));
    unknown := GetModelClass(reg, "nonexistent");
  }
}
