/** The classifier contract (src/models/base.py).
    A concrete classifier is described by a `Family`: what training produces
    from the parameters and the training rows, and what the trained model
    predicts. The learning algorithms themselves are not modelled. */
module Classifier {
  import opened Wrappers

  /** A model parameter value. */
  datatype Param = PInt(i: int) | PReal(r: real) | PBool(b: bool) | PStr(s: string)

  type Params = map<string, Param>

  /** A row of the feature matrix. */
  type Row = seq<real>

  /** What training leaves behind (the underlying library model). */
  datatype Trained = Trained(weights: seq<real>)

  /** The behaviour of one registered classifier class. `defaults` are the
      parameters its constructor merges under the caller's (empty for a
      class that keeps the base constructor). */
  datatype Family = Family(
    name: string,
    defaults: Params,
    train: (Params, seq<Row>, seq<int>) -> Result<Trained>,
    predict: (Trained, seq<Row>) -> Result<seq<int>>,
    predictProba: (Trained, seq<Row>) -> Result<seq<seq<real>>>,
    importance: Trained -> seq<real>)

  /** The parameters a class's constructor passes on to the base
      constructor: `{**defaults, **(params or {})}`, the caller's values
      winning on shared keys. */
  function MergedParams(family: Family, given: Option<Params>): (r: Params)
    ensures r.Keys == family.defaults.Keys + given.GetOr(map[]).Keys
    ensures forall k :: k in given.GetOr(map[]) ==> r[k] == given.GetOr(map[])[k]
    ensures forall k :: k in family.defaults && k !in given.GetOr(map[]) ==> r[k] == family.defaults[k]
  {
    family.defaults + given.GetOr(map[])
  }

  const NotFitted := ClassifierError("model has not been trained")

  /** A classifier instance: its parameters, the trained model (none before
      `fit`) and the fitted flag. The guard that refuses to predict before
      `fit` follows the registered LightGBM class. */
  class BaseModel {
    const family: Family
    var params: Params
    var model: Option<Trained>
    var isFitted: bool

    /** The flag says exactly whether a trained model is present. */
    ghost predicate Valid()
      reads this
    {
      isFitted <==> model.Some?
    }

    /** `__init__`: absent parameters become an empty map; nothing is trained. */
    constructor (family: Family, params: Option<Params>)
      ensures Valid()
      ensures this.family == family
      ensures this.params == params.GetOr(map[])
      ensures model == None && !isFitted
    {
      this.family := family;
      this.params := params.GetOr(map[]);
      this.model := None;
      this.isFitted := false;
    }

    /** `fit`: trains on (X, y) and returns the classifier itself; an
        exception from the library leaves the classifier unchanged. */
    method Fit(X: seq<Row>, y: seq<int>) returns (r: Result<BaseModel>)
      requires Valid()
      modifies this
      ensures Valid()
      ensures params == old(params)
      ensures family.train(params, X, y).Ok? ==>
        r == Ok(this) && isFitted && model == Some(family.train(params, X, y).value)
      ensures family.train(params, X, y).Err? ==>
        r == Err(family.train(params, X, y).error) && model == old(model) && isFitted == old(isFitted)
    {
      var trained := family.train(params, X, y);
      if trained.Err? {
        return Err(trained.error);
      }
      model := Some(trained.value);
      isFitted := true;
      r := Ok(this);
    }

    /** `predict`: the trained model's labels, or an error before `fit`. */
    method Predict(X: seq<Row>) returns (r: Result<seq<int>>)
      requires Valid()
      ensures !isFitted ==> r == Err(NotFitted)
      ensures isFitted ==> r == family.predict(model.value, X)
    {
      if !isFitted {
        return Err(NotFitted);
      }
      r := family.predict(model.value, X);
    }

    /** `predict_proba`: class probabilities, or an error. */
    method PredictProba(X: seq<Row>) returns (r: Result<seq<seq<real>>>)
      requires Valid()
      ensures !isFitted ==> r == Err(NotFitted)
      ensures isFitted ==> r == family.predictProba(model.value, X)
    {
      if !isFitted {
        return Err(NotFitted);
      }
      r := family.predictProba(model.value, X);
    }

    /** `feature_importance`: one importance per feature, or an error before `fit`. */
    method FeatureImportance() returns (r: Result<seq<real>>)
      requires Valid()
      ensures !isFitted ==> r == Err(NotFitted)
      ensures isFitted ==> r == Ok(family.importance(model.value))
    {
      if !isFitted {
        return Err(NotFitted);
      }
      r := Ok(family.importance(model.value));
    }

    /** `get_params`: a copy of the parameters. Maps are values, so a caller
        changing the copy cannot change the classifier. */
    method GetParams() returns (p: Params)
      ensures p == params
      ensures p.Keys == params.Keys && forall k :: k in p ==> p[k] == params[k]
    {
      p := params;
    }
  }

  /** A fitted classifier predicts exactly what its family predicts, and a
      classifier that was never fitted predicts nothing. */
  method FitThenPredict(family: Family, params: Option<Params>, X: seq<Row>, y: seq<int>, Xtest: seq<Row>)
    returns (fitted: Result<BaseModel>, before: Result<seq<int>>, after: Result<seq<int>>)
    ensures before == Err(NotFitted)
    ensures family.train(params.GetOr(map[]), X, y).Ok? ==>
      fitted.Ok? && after == family.predict(family.train(params.GetOr(map[]), X, y).value, Xtest)
    ensures family.train(params.GetOr(map[]), X, y).Err? ==> fitted.Err? && after == Err(NotFitted)
  {
    var m := new BaseModel(family, params);
    before := m.Predict(Xtest);
    fitted := m.Fit(X, y);
    after := m.Predict(Xtest);
  }
}
