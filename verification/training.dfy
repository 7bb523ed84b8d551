/** The training half of `MLService` (ml-server/ml_service.py): choosing the
    target and the features from the request's column definitions, building
    the pipeline, the metrics, the feature importances, and
    `train_model_task` as a run over stage outcomes that yields the
    successive job records and the files written. Fitting, prediction and
    the metric values belong to scikit-learn and come from a `Learner`. */
module Training {
  import opened Common
  import opened Tables
  import opened Stats
  import opened Models
  import opened Artifacts

  // ---- Target and features ----

  /** The names, in order, of the column definitions `keep` accepts. */
  function Picked(cols: seq<ColumnDefinition>, keep: ColumnDefinition -> bool): (ns: seq<string>)
    ensures |ns| <= |cols|
    ensures forall n :: n in ns <==> exists i :: 0 <= i < |cols| && keep(cols[i]) && cols[i].name == n
  {
    if |cols| == 0 then []
    else
      var rest := Picked(cols[1..], keep);
      assert forall i :: 1 <= i < |cols| ==> cols[1..][i - 1] == cols[i];
      (if keep(cols[0]) then [cols[0].name] else []) + rest
  }

  /** Nothing is picked exactly when no definition is accepted. */
  lemma NoneKept(cols: seq<ColumnDefinition>, keep: ColumnDefinition -> bool)
    ensures Picked(cols, keep) == [] <==> forall i :: 0 <= i < |cols| ==> !keep(cols[i])
  {
    if Picked(cols, keep) != [] {
      assert Picked(cols, keep)[0] in Picked(cols, keep);
    }
  }

  /** `xs` is `ys` with some elements left out and the order kept. */
  predicate SubsequenceOf<T(==)>(xs: seq<T>, ys: seq<T>)
    decreases |ys|
  {
    if |xs| == 0 then true
    else if |ys| == 0 then false
    else (xs[0] == ys[0] && SubsequenceOf(xs[1..], ys[1..])) || SubsequenceOf(xs, ys[1..])
  }

  /** A stricter filter picks a subsequence. */
  lemma {:induction false} PickedSubsequence(cols: seq<ColumnDefinition>, p: ColumnDefinition -> bool, q: ColumnDefinition -> bool)
    requires forall i :: 0 <= i < |cols| && p(cols[i]) ==> q(cols[i])
    ensures SubsequenceOf(Picked(cols, p), Picked(cols, q))
  {
    if |cols| > 0 {
      assert forall i :: 0 <= i < |cols| - 1 ==> cols[1..][i] == cols[i + 1];
      PickedSubsequence(cols[1..], p, q);
      var xs, ys := Picked(cols[1..], p), Picked(cols[1..], q);
      var n := cols[0].name;
      if p(cols[0]) {
        assert Picked(cols, p) == [n] + xs && Picked(cols, q) == [n] + ys;
        assert ([n] + xs)[1..] == xs && ([n] + ys)[1..] == ys;
      } else if q(cols[0]) {
        assert Picked(cols, p) == xs && Picked(cols, q) == [n] + ys;
        assert ([n] + ys)[1..] == ys;
      } else {
        assert Picked(cols, p) == xs && Picked(cols, q) == ys;
      }
    }
  }

  /** Filters that agree on every definition pick the same names. */
  lemma {:induction false} PickedSame(cols: seq<ColumnDefinition>, p: ColumnDefinition -> bool, q: ColumnDefinition -> bool)
    requires forall i :: 0 <= i < |cols| ==> p(cols[i]) == q(cols[i])
    ensures Picked(cols, p) == Picked(cols, q)
  {
    if |cols| > 0 {
      assert forall i :: 0 <= i < |cols| - 1 ==> cols[1..][i] == cols[i + 1];
      PickedSame(cols[1..], p, q);
    }
  }

  /** The name of the first definition marked as the target. */
  function TargetOf(cols: seq<ColumnDefinition>): (t: Option<string>)
    ensures t.None? <==> forall i :: 0 <= i < |cols| ==> !cols[i].isTarget
    ensures t.Some? ==> exists i :: 0 <= i < |cols| && cols[i].isTarget && cols[i].name == t.value
                                   && forall j :: 0 <= j < i ==> !cols[j].isTarget
  {
    if |cols| == 0 then None
    else if cols[0].isTarget then Some(cols[0].name)
    else
      var t := TargetOf(cols[1..]);
      assert forall i :: 1 <= i < |cols| ==> cols[1..][i - 1] == cols[i];
      assert t.Some? ==> exists i :: 1 <= i < |cols| && cols[i].isTarget && cols[i].name == t.value
                                     && forall j :: 0 <= j < i ==> !cols[j].isTarget by {
        if t.Some? {
          var k :| 0 <= k < |cols| - 1 && cols[1..][k].isTarget && cols[1..][k].name == t.value
                   && forall j :: 0 <= j < k ==> !cols[1..][j].isTarget;
          assert forall j :: 0 <= j < k + 1 ==> !cols[j].isTarget by {
            forall j | 0 <= j < k + 1 ensures !cols[j].isTarget {
              if j > 0 { assert cols[j] == cols[1..][j - 1]; }
            }
          }
        }
      }
      t
  }

  /** The columns a training run uses: the target, the features in request
      order, and the numeric and categorical features the preprocessor
      transforms. */
  datatype Selection = Selection(target: string, features: seq<string>, numeric: seq<string>, categorical: seq<string>)

  /** Lines 48-71 of `train_model_task`. An empty target name counts as no
      target; a feature with the target's name is not a feature. */
  function SelectColumns(cols: seq<ColumnDefinition>): (r: Result<Selection, Exception>)
    ensures TargetOf(cols).None? || TargetOf(cols) == Some("") ==> r == Err(ValueError("No target column specified"))
    ensures TargetOf(cols).Some? && TargetOf(cols).value != ""
            && (forall i :: 0 <= i < |cols| && cols[i].isFeature ==> cols[i].name == TargetOf(cols).value)
            ==> r == Err(ValueError("No feature columns specified"))
    ensures r.Ok? <==> TargetOf(cols).Some? && TargetOf(cols).value != ""
                       && exists i :: 0 <= i < |cols| && cols[i].isFeature && cols[i].name != TargetOf(cols).value
    ensures r.Ok? ==> TargetOf(cols) == Some(r.value.target)
    ensures r.Ok? ==> r.value.features == Picked(cols, (c: ColumnDefinition) => c.isFeature && c.name != r.value.target)
    ensures r.Ok? ==> r.value.numeric == Picked(cols, (c: ColumnDefinition) => c.isFeature && c.dataType == Numeric && c.name != r.value.target)
    ensures r.Ok? ==> r.value.categorical == Picked(cols, (c: ColumnDefinition) => c.isFeature && c.dataType == Categorical && c.name != r.value.target)
    ensures r.Ok? ==> SubsequenceOf(r.value.numeric, r.value.features) && SubsequenceOf(r.value.categorical, r.value.features)
    ensures r.Ok? ==> forall n :: n in r.value.numeric <==>
              exists i :: 0 <= i < |cols| && cols[i].isFeature && cols[i].dataType == Numeric && cols[i].name != r.value.target && cols[i].name == n
    ensures r.Ok? ==> forall n :: n in r.value.categorical <==>
              exists i :: 0 <= i < |cols| && cols[i].isFeature && cols[i].dataType == Categorical && cols[i].name != r.value.target && cols[i].name == n
  {
    match TargetOf(cols)
    case None => Err(ValueError("No target column specified"))
    case Some(target) =>
      if target == "" then Err(ValueError("No target column specified"))
      else
        var isFeature := (c: ColumnDefinition) => c.isFeature && c.name != target;
        var features := Picked(cols, isFeature);
        NoneKept(cols, isFeature);
        if features == [] then Err(ValueError("No feature columns specified"))
        else
          var asWrittenNumeric := (c: ColumnDefinition) => c.isFeature && c.dataType == Numeric && c.name in features;
          var asWrittenCategorical := (c: ColumnDefinition) => c.isFeature && c.dataType == Categorical && c.name in features;
          var numeric := (c: ColumnDefinition) => c.isFeature && c.dataType == Numeric && c.name != target;
          var categorical := (c: ColumnDefinition) => c.isFeature && c.dataType == Categorical && c.name != target;
          assert forall i :: 0 <= i < |cols| ==> (cols[i].isFeature && cols[i].name != target <==> cols[i].isFeature && cols[i].name in features);
          PickedSame(cols, asWrittenNumeric, numeric);
          PickedSame(cols, asWrittenCategorical, categorical);
          PickedSubsequence(cols, numeric, isFeature);
          PickedSubsequence(cols, categorical, isFeature);
          Ok(Selection(target, features, Picked(cols, asWrittenNumeric), Picked(cols, asWrittenCategorical)))
  }

  function DefinitionNames(cols: seq<ColumnDefinition>): (r: seq<string>)
    ensures |r| == |cols| && forall i :: 0 <= i < |cols| ==> r[i] == cols[i].name
  {
    seq(|cols|, i requires 0 <= i < |cols| => cols[i].name)
  }

  /** With distinct column names, no feature is both numeric and
      categorical, and text, datetime and boolean features are in neither
      list. */
  lemma SelectionDisjoint(cols: seq<ColumnDefinition>, s: Selection)
    requires SelectColumns(cols) == Ok(s) && Distinct(DefinitionNames(cols))
    ensures forall n :: !(n in s.numeric && n in s.categorical)
    ensures forall i :: 0 <= i < |cols| && cols[i].dataType != Numeric && cols[i].dataType != Categorical ==>
              cols[i].name !in s.numeric && cols[i].name !in s.categorical
  {
    forall n | n in s.numeric && n in s.categorical ensures false {
      var i := SelectedFrom(cols, s, n, Numeric);
      var j := SelectedFrom(cols, s, n, Categorical);
      DistinctNamesDiffer(cols, i, j);
    }
    forall i | 0 <= i < |cols| && cols[i].dataType != Numeric && cols[i].dataType != Categorical
      ensures cols[i].name !in s.numeric && cols[i].name !in s.categorical
    {
      if cols[i].name in s.numeric {
        var j := SelectedFrom(cols, s, cols[i].name, Numeric);
        DistinctNamesDiffer(cols, i, j);
      }
      if cols[i].name in s.categorical {
        var j := SelectedFrom(cols, s, cols[i].name, Categorical);
        DistinctNamesDiffer(cols, i, j);
      }
    }
  }

  /** A definition that put a name in the numeric or categorical list. */
  lemma SelectedFrom(cols: seq<ColumnDefinition>, s: Selection, n: string, t: DataType) returns (i: nat)
    requires SelectColumns(cols) == Ok(s)
    requires (t == Numeric && n in s.numeric) || (t == Categorical && n in s.categorical)
    ensures i < |cols| && cols[i].dataType == t && cols[i].name == n
  {
    i :| 0 <= i < |cols| && cols[i].dataType == t && cols[i].name == n;
  }

  lemma DistinctNamesDiffer(cols: seq<ColumnDefinition>, i: nat, j: nat)
    requires Distinct(DefinitionNames(cols)) && i < |cols| && j < |cols| && i != j
    ensures cols[i].name != cols[j].name
  {
    var names := DefinitionNames(cols);
    assert names[i] == cols[i].name && names[j] == cols[j].name;
  }

  /** Without distinct names the lists can share a name: two definitions
      called "x", one numeric and one categorical, put "x" in both. */
  lemma SharedNameInBoth()
    ensures var cols := [DefineColumn("x", Numeric), DefineColumn("x", Categorical),
                         DefineColumn("y", Numeric).(isTarget := true, isFeature := false)];
            && SelectColumns(cols).Ok?
            && "x" in SelectColumns(cols).value.numeric && "x" in SelectColumns(cols).value.categorical
  {
    var cols := [DefineColumn("x", Numeric), DefineColumn("x", Categorical),
                 DefineColumn("y", Numeric).(isTarget := true, isFeature := false)];
    assert TargetOf(cols[2..]) == Some("y");
    assert cols[1..][1..] == cols[2..];
    assert TargetOf(cols) == Some("y");
    assert cols[0].isFeature && cols[0].name != "y";
    assert cols[1].isFeature && cols[1].name != "y";
  }

  // ---- Pipeline and metrics ----

  /** The estimator a model type is built with, if it has one. */
  function EstimatorOf(t: ModelType): (e: Option<Estimator>)
    ensures e.Some? <==> t == Classification || t == Regression
    ensures e == Some(ForestClassifier) <==> t == Classification
  {
    match t
    case Classification => Some(ForestClassifier)
    case Regression => Some(ForestRegressor)
    case _ => None
  }

  /** The pipeline for a model type: a random forest classifier or
      regressor, constructed with the training configuration as keyword
      arguments, behind the column preprocessor. The other two model types
      have no builder; a configuration the estimator's constructor rejects
      (`construct` gives its exception) fails the build. */
  function BuildPipeline(t: ModelType, s: Selection, config: Config,
                         construct: (Estimator, Config) -> Option<Exception>): (r: Result<Pipeline, Exception>)
    ensures EstimatorOf(t).None? ==> r == Err(ValueError("Unsupported model type: " + ModelTypeValue(t)))
    ensures EstimatorOf(t).Some? ==>
              && (r.Err? <==> construct(EstimatorOf(t).value, config).Some?)
              && (r.Err? ==> r.error == construct(EstimatorOf(t).value, config).value)
    ensures r.Ok? ==> EstimatorOf(t) == Some(r.value.estimator)
    ensures r.Ok? ==> r.value.numeric == s.numeric && r.value.categorical == s.categorical && r.value.config == config
  {
    match EstimatorOf(t)
    case None => Err(ValueError("Unsupported model type: " + ModelTypeValue(t)))
    case Some(e) =>
      match construct(e, config)
      case Some(error) => Err(error)
      case None => Ok(Pipeline(e, s.numeric, s.categorical, config))
  }

  /** The metric names a model type is evaluated with, in evaluation order. */
  function MetricKeys(t: ModelType): seq<string> {
    match t
    case Classification => ["accuracy", "precision", "recall", "f1"]
    case Regression => ["r2_score", "mse", "rmse"]
    case _ => []
  }

  /** The metrics of a fitted model: each key measured in order; the first
      failing measurement ends the evaluation with its exception. */
  function Metrics(keys: seq<string>, measure: string -> Result<real, Exception>): (r: Result<map<string, real>, Exception>)
    ensures r.Ok? <==> forall i :: 0 <= i < |keys| ==> measure(keys[i]).Ok?
    ensures r.Ok? ==> forall k :: k in r.value <==> k in keys
    ensures r.Ok? ==> forall k :: k in r.value ==> measure(k) == Ok(r.value[k])
    ensures r.Err? ==> exists i :: 0 <= i < |keys| && measure(keys[i]) == Err(r.error)
                                   && forall j :: 0 <= j < i ==> measure(keys[j]).Ok?
  {
    if |keys| == 0 then Ok(map[])
    else
      match measure(keys[0])
      case Err(e) => Err(e)
      case Ok(x) =>
        var rest := Metrics(keys[1..], measure);
        assert forall i :: 1 <= i < |keys| ==> keys[1..][i - 1] == keys[i];
        match rest
        case Err(e) =>
          assert exists i :: 1 <= i < |keys| && measure(keys[i]) == Err(e)
                             && forall j :: 0 <= j < i ==> measure(keys[j]).Ok? by {
            var k :| 0 <= k < |keys| - 1 && measure(keys[1..][k]) == Err(e)
                     && forall j :: 0 <= j < k ==> measure(keys[1..][j]).Ok?;
            assert forall j :: 0 <= j < k + 1 ==> measure(keys[j]).Ok? by {
              forall j | 0 <= j < k + 1 ensures measure(keys[j]).Ok? {
                if j > 0 { assert keys[j] == keys[1..][j - 1]; }
              }
            }
          }
          Err(e)
        case Ok(m) => Ok(m[keys[0] := x])
  }

  /** A classifier is scored on exactly accuracy, precision, recall and f1;
      a regressor on exactly r2_score, mse and rmse. */
  lemma MetricNames(measure: string -> Result<real, Exception>)
    ensures var r := Metrics(MetricKeys(Classification), measure);
            r.Ok? ==> r.value.Keys == {"accuracy", "precision", "recall", "f1"}
    ensures var r := Metrics(MetricKeys(Regression), measure);
            r.Ok? ==> r.value.Keys == {"r2_score", "mse", "rmse"}
  {
  }

  // ---- Feature importance ----

  /** `dict(zip(names, values))`: pairs up to the shorter list; a repeated
      name keeps its last value. */
  function ZipMap(names: seq<string>, values: seq<real>): (m: map<string, real>)
    ensures forall n :: n in m <==> exists i :: 0 <= i < |names| && i < |values| && names[i] == n
    ensures forall i :: 0 <= i < |names| && i < |values| ==> names[i] in m
    ensures Distinct(names) ==> forall i :: 0 <= i < |names| && i < |values| ==> m[names[i]] == values[i]
  {
    if |names| == 0 || |values| == 0 then map[]
    else
      var rest := ZipMap(names[1..], values[1..]);
      assert forall i :: 1 <= i < |names| ==> names[1..][i - 1] == names[i];
      assert forall i :: 1 <= i < |values| ==> values[1..][i - 1] == values[i];
      assert Distinct(names) ==> Distinct(names[1..]) && names[0] !in names[1..];
      if names[0] in rest then rest else rest[names[0] := values[0]]
  }

  /** `_get_feature_importance` as written: the feature names in request
      order zipped with the estimator's importances. Those importances are
      over the preprocessor's output columns, numeric features first and
      then one column per category of each categorical feature, so the
      pairing is off as soon as the two orders differ. */
  function ZipImportance(s: Selection, importances: seq<real>): (m: map<string, real>)
    ensures forall n :: n in m ==> n in s.features
    ensures forall i :: 0 <= i < |s.features| && i < |importances| ==> s.features[i] in m
    ensures Distinct(s.features) ==> forall i :: 0 <= i < |s.features| && i < |importances| ==> m[s.features[i]] == importances[i]
  {
    ZipMap(s.features, importances)
  }

  /** A categorical feature "c" (two categories) listed before a numeric
      feature "x": the importances are `[x, c=a, c=b]`, and the zip gives
      "x" the importance of one category of "c" and "c" that of "x". */
  lemma ImportanceMisaligned()
    ensures var s := Selection("y", ["c", "x"], ["x"], ["c"]);
            var m := ZipImportance(s, [0.5, 0.3, 0.2]);
            && m["x"] == 0.3 && m["c"] == 0.5
            && FeatureImportance(s, [2], [0.5, 0.3, 0.2])["x"] == 0.5
  {
    var s := Selection("y", ["c", "x"], ["x"], ["c"]);
    assert Distinct(s.features);
    assert ZipMap(["x"], [0.5]) == map["x" := 0.5];
    assert SumCounts([2]) == 2 by { assert [2][1..] == []; }
    var m := FeatureImportance(s, [2], [0.5, 0.3, 0.2]);
    assert Distinct(s.numeric + s.categorical) by {
      assert s.numeric + s.categorical == ["x", "c"];
    }
  }

  /** The sums of consecutive blocks of `xs` of the given widths. */
  function BlockSums(xs: seq<real>, widths: seq<nat>): (r: seq<real>)
    requires |xs| == SumCounts(widths)
    ensures |r| == |widths|
    ensures Sum(r) == Sum(xs)
  {
    if |widths| == 0 then []
    else
      SumConcat(xs[..widths[0]], xs[widths[0]..]);
      assert xs == xs[..widths[0]] + xs[widths[0]..];
      [Sum(xs[..widths[0]])] + BlockSums(xs[widths[0]..], widths[1..])
  }

  lemma {:induction false} SumConcat(a: seq<real>, b: seq<real>)
    ensures Sum(a + b) == Sum(a) + Sum(b)
  {
    if |a| > 0 {
      SumConcat(a[1..], b);
      assert (a + b)[1..] == a[1..] + b;
    } else {
      assert a + b == b;
    }
  }

  /** The importance of each feature the preprocessor uses: a numeric
      feature gets the importance of its one column, a categorical feature
      the sum over its one-hot columns (`widths` gives their number per
      categorical feature). */
  function FeatureImportance(s: Selection, widths: seq<nat>, importances: seq<real>): (m: map<string, real>)
    requires |widths| == |s.categorical| && |importances| == |s.numeric| + SumCounts(widths)
    ensures forall n :: n in m <==> n in s.numeric || n in s.categorical
    ensures Distinct(s.numeric + s.categorical) ==>
              forall i :: 0 <= i < |s.numeric| ==> m[s.numeric[i]] == importances[i]
    ensures Distinct(s.numeric + s.categorical) ==>
              forall j :: 0 <= j < |s.categorical| ==>
                m[s.categorical[j]] == BlockSums(importances[|s.numeric|..], widths)[j]
  {
    var k := |s.numeric|;
    var sums := BlockSums(importances[k..], widths);
    ZipUnion(s.numeric, s.categorical, importances[..k], sums);
    assert forall i :: 0 <= i < k ==> importances[..k][i] == importances[i];
    ZipMap(s.numeric, importances[..k]) + ZipMap(s.categorical, sums)
  }

  /** Two zips of lists of equal length, joined: every name of either, with
      its own value when no name repeats. */
  lemma ZipUnion(a: seq<string>, b: seq<string>, xs: seq<real>, ys: seq<real>)
    requires |xs| == |a| && |ys| == |b|
    ensures var m := ZipMap(a, xs) + ZipMap(b, ys);
            && (forall n :: n in m <==> n in a || n in b)
            && (Distinct(a + b) ==> forall i :: 0 <= i < |a| ==> m[a[i]] == xs[i])
            && (Distinct(a + b) ==> forall j :: 0 <= j < |b| ==> m[b[j]] == ys[j])
  {
    var left, right := ZipMap(a, xs), ZipMap(b, ys);
    DistinctParts(a, b);
    if Distinct(a + b) {
      forall i | 0 <= i < |a| ensures (left + right)[a[i]] == xs[i] {
        assert a[i] in a;
        assert a[i] !in right;
      }
    }
  }

  lemma DistinctParts(a: seq<string>, b: seq<string>)
    ensures Distinct(a + b) ==> Distinct(a) && Distinct(b) && forall n :: n in a ==> n !in b
  {
    if Distinct(a + b) {
      assert forall i :: 0 <= i < |a| ==> (a + b)[i] == a[i];
      assert forall j :: 0 <= j < |b| ==> (a + b)[|a| + j] == b[j];
    }
  }

  /** The values a map gives a list of names, in list order. */
  function Lookup(m: map<string, real>, names: seq<string>): (vs: seq<real>)
    requires forall n :: n in names ==> n in m
    ensures |vs| == |names| && forall i :: 0 <= i < |names| ==> vs[i] == m[names[i]]
  {
    seq(|names|, i requires 0 <= i < |names| => m[names[i]])
  }

  /** The per-feature importances add up to the estimator's total. */
  lemma ImportanceConserved(s: Selection, widths: seq<nat>, importances: seq<real>)
    requires |widths| == |s.categorical| && |importances| == |s.numeric| + SumCounts(widths)
    requires Distinct(s.numeric + s.categorical)
    ensures var m := FeatureImportance(s, widths, importances);
            Sum(Lookup(m, s.numeric)) + Sum(Lookup(m, s.categorical)) == Sum(importances)
  {
    NumericLookup(s, widths, importances);
    CategoricalLookup(s, widths, importances);
    SplitSum(importances, |s.numeric|);
  }

  lemma NumericLookup(s: Selection, widths: seq<nat>, importances: seq<real>)
    requires |widths| == |s.categorical| && |importances| == |s.numeric| + SumCounts(widths)
    requires Distinct(s.numeric + s.categorical)
    ensures Lookup(FeatureImportance(s, widths, importances), s.numeric) == importances[..|s.numeric|]
  {
    var head := importances[..|s.numeric|];
    assert forall i :: 0 <= i < |s.numeric| ==> head[i] == importances[i];
    LookupIs(FeatureImportance(s, widths, importances), s.numeric, head);
  }

  lemma CategoricalLookup(s: Selection, widths: seq<nat>, importances: seq<real>)
    requires |widths| == |s.categorical| && |importances| == |s.numeric| + SumCounts(widths)
    requires Distinct(s.numeric + s.categorical)
    ensures Lookup(FeatureImportance(s, widths, importances), s.categorical)
              == BlockSums(importances[|s.numeric|..], widths)
  {
    LookupIs(FeatureImportance(s, widths, importances), s.categorical, BlockSums(importances[|s.numeric|..], widths));
  }

  lemma LookupIs(m: map<string, real>, names: seq<string>, vals: seq<real>)
    requires |names| == |vals| && forall i :: 0 <= i < |names| ==> names[i] in m && m[names[i]] == vals[i]
    ensures Lookup(m, names) == vals
  {
  }

  lemma SplitSum(xs: seq<real>, k: nat)
    requires k <= |xs|
    ensures Sum(xs[..k]) + Sum(xs[k..]) == Sum(xs)
  {
    SumConcat(xs[..k], xs[k..]);
    assert xs == xs[..k] + xs[k..];
  }

  // ---- The training run ----

  datatype Split = Split(train: Table, test: Table)

  /** A fitted pipeline as far as the run looks at it: the trained model,
      and the estimator's `feature_importances_` over the preprocessor's
      output columns, absent when they cannot be read. */
  datatype Fitted = Fitted(model: Trained, importances: Option<seq<real>>)

  /** How a file write ended: complete (with the file's size in bytes), not
      started, or started and stopped by an exception, leaving an unreadable
      file. */
  datatype WriteOutcome = Written(size: nat) | NotCreated(error: Exception) | LeftPartial(error: Exception)

  /** The library calls of a run, as given outcomes: selecting the columns
      and splitting the rows, constructing the estimator from the training
      configuration, fitting (which raises, or leaves an estimator with the
      given importances), scoring one metric on the test rows, and writing
      the two files. */
  datatype Learner = Learner(
    split: (Table, Selection) -> Result<Split, Exception>,
    construct: (Estimator, Config) -> Option<Exception>,
    fit: (Pipeline, Split) -> Result<Option<seq<real>>, Exception>,
    score: (Fitted, Split, string) -> Result<real, Exception>,
    dumpModel: Trained -> WriteOutcome,
    dumpMetadata: ModelMetadata -> WriteOutcome)

  /** The progress checkpoints of a run, in tenths. */
  const Schedule: seq<Tenths> := [1, 2, 3, 4, 7, 8, 10]

  /** What the stages before the first file write produce. */
  datatype Prepared = Prepared(model: Trained, metrics: map<string, real>, importance: Option<map<string, real>>)

  /** `_get_feature_importance`: the estimator's importances paired in
      order with the feature names, up to the shorter of the two, or nothing
      when the estimator has none. The pairing ignores the preprocessor's
      column layout (see `ImportanceMisaligned`; `FeatureImportance` is the
      pairing that follows it). */
  function ImportanceOf(s: Selection, f: Fitted): (m: Option<map<string, real>>)
    ensures m.Some? <==> f.importances.Some?
    ensures m.Some? ==> forall n :: n in m.value ==> n in s.features
    ensures m.Some? ==> forall i :: 0 <= i < |s.features| && i < |f.importances.value| ==> s.features[i] in m.value
    ensures m.Some? && Distinct(s.features) ==>
              forall i :: 0 <= i < |s.features| && i < |f.importances.value| ==>
                m.value[s.features[i]] == f.importances.value[i]
  {
    match f.importances
    case None => None
    case Some(imps) => Some(ZipImportance(s, imps))
  }

  /** The stages from reading the dataset to the evaluation. A failure
      carries the number of checkpoints passed before it and the exception:
      one for a missing or unreadable dataset (a file without columns
      included), two for the column choice and
      the split, three for the model type and the estimator's construction,
      four for the fit, five for the evaluation. The dataset is the table
      `read_csv` gives back from its file. */
  function Prepare(request: TrainingRequest, datasets: Dir, learner: Learner): (r: Result<Prepared, (nat, Exception)>)
    ensures r.Err? ==> 1 <= r.error.0 <= 5
    ensures var name := DataFileName(request.tenantId, Render(request.datasetId));
            && (name !in datasets ==> r == Err((1, FileNotFound("Dataset not found: datasets/" + name))))
            && (name in datasets && !datasets[name].DataFile? ==> r == Err((1, Undecodable("datasets/" + name))))
            && (name in datasets && datasets[name].DataFile? && |datasets[name].table.columns| == 0 ==>
                  r == Err((1, NoColumns)))
            && (name in datasets && datasets[name].DataFile? && |datasets[name].table.columns| > 0
                && SelectColumns(request.columns).Err? ==>
                  r == Err((2, SelectColumns(request.columns).error)))
    ensures r.Ok? ==> var s := SelectColumns(request.columns);
                      && s.Ok?
                      && BuildPipeline(request.modelType, s.value, request.trainingConfig, learner.construct)
                           == Ok(r.value.model.pipeline)
                      && r.value.model.target == s.value.target
                      && (forall k :: k in r.value.metrics <==> k in MetricKeys(request.modelType))
    ensures r.Ok? ==> var name := DataFileName(request.tenantId, Render(request.datasetId));
                      && name in datasets && datasets[name].DataFile? && |datasets[name].table.columns| > 0
                      && var s := SelectColumns(request.columns);
                         var split := learner.split(Reread(datasets[name].table), s.value);
                         && s.Ok? && split.Ok?
                         && r.value.model.rows == split.value.train
                         && var imps := learner.fit(r.value.model.pipeline, split.value);
                            imps.Ok? && r.value.importance == ImportanceOf(s.value, Fitted(r.value.model, imps.value))
    ensures r.Err? && r.error.0 >= 3 ==> SelectColumns(request.columns).Ok?
    ensures r.Err? && r.error.0 == 3 ==>
              BuildPipeline(request.modelType, SelectColumns(request.columns).value, request.trainingConfig,
                            learner.construct) == Err(r.error.1)
    ensures r.Err? && r.error.0 >= 4 ==> request.modelType == Classification || request.modelType == Regression
  {
    var name := DataFileName(request.tenantId, Render(request.datasetId));
    if name !in datasets then Err((1, FileNotFound("Dataset not found: datasets/" + name)))
    else if !datasets[name].DataFile? then Err((1, Undecodable("datasets/" + name)))
    else
      match CsvRoundTrip(datasets[name].table)
      case Err(e) => Err((1, e))
      case Ok(t) =>
      match SelectColumns(request.columns)
      case Err(e) => Err((2, e))
      case Ok(s) =>
        match learner.split(t, s)
        case Err(e) => Err((2, e))
        case Ok(split) =>
          match BuildPipeline(request.modelType, s, request.trainingConfig, learner.construct)
          case Err(e) => Err((3, e))
          case Ok(pipeline) =>
            match learner.fit(pipeline, split)
            case Err(e) => Err((4, e))
            case Ok(imps) =>
              var fitted := Fitted(Trained(pipeline, s.target, split.train), imps);
              match Metrics(MetricKeys(request.modelType), k => learner.score(fitted, split, k))
              case Err(e) => Err((5, e))
              case Ok(metrics) => Ok(Prepared(fitted.model, metrics, ImportanceOf(s, fitted)))
  }

  /** The metadata a run writes next to its model file. */
  function MetadataOf(request: TrainingRequest, modelId: string, p: Prepared, size: nat,
                      now: string, seconds: real): (m: ModelMetadata)
    ensures m.modelId == modelId && m.tenantId == request.tenantId && m.modelName == request.modelName
    ensures m.modelType == request.modelType && m.metrics == p.metrics && m.featureImportance == p.importance
    ensures m.status == "active" && m.version == 1 && m.sizeBytes == size
    ensures m.datasetId == request.datasetId && m.columns == request.columns && m.trainingConfig == request.trainingConfig
  {
    ModelMetadata(modelId, request.tenantId, request.modelName, request.modelType, request.description,
                  request.tags, now, now, p.metrics, p.importance, "active", 1, request.datasetId,
                  request.columns, request.trainingConfig, size, seconds)
  }

  /** A file write into a directory. */
  function WriteFile(dir: Dir, name: string, content: Blob, w: WriteOutcome): (r: (Dir, Option<Exception>))
    ensures w.Written? ==> r == (dir[name := content], None)
    ensures w.NotCreated? ==> r == (dir, Some(w.error))
    ensures w.LeftPartial? ==> r == (dir[name := Unparsable], Some(w.error))
  {
    match w
    case Written(_) => (dir[name := content], None)
    case NotCreated(e) => (dir, Some(e))
    case LeftPartial(e) => (dir[name := Unparsable], Some(e))
  }

  /** The stages of a run, as the checkpoints passed, the metrics or the
      exception, and the `models` directory afterwards. */
  datatype Attempt = Attempt(reached: nat, result: Result<map<string, real>, Exception>, models: Dir)

  function Stages(request: TrainingRequest, disk: Disk, learner: Learner, modelId: string,
                  now: string, seconds: real): (a: Attempt)
    ensures 1 <= a.reached <= 7
    ensures a.result.Ok? <==> a.reached == 7
    ensures var modelName := ModelFileName(request.tenantId, modelId);
            var metaName := MetadataName(request.tenantId, modelId);
            && (forall n :: n != modelName && n != metaName ==>
                  (n in a.models <==> n in disk.models) && (n in disk.models ==> a.models[n] == disk.models[n]))
            && (a.reached < 6 ==> a.models == disk.models)
            && (a.result.Ok? ==>
                  && modelName in a.models && a.models[modelName].ModelFile?
                  && metaName in a.models && a.models[metaName].ModelMetaFile?
                  && a.models[metaName].model.modelId == modelId
                  && a.models[metaName].model.tenantId == request.tenantId
                  && a.models[metaName].model.metrics == a.result.value
                  && (forall k :: k in a.result.value <==> k in MetricKeys(request.modelType))
                  && Prepare(request, disk.datasets, learner).Ok?
                  && a.models[metaName].model.featureImportance == Prepare(request, disk.datasets, learner).value.importance)
    ensures Prepare(request, disk.datasets, learner).Err? ==>
              a == Attempt(Prepare(request, disk.datasets, learner).error.0,
                           Err(Prepare(request, disk.datasets, learner).error.1), disk.models)
  {
    match Prepare(request, disk.datasets, learner)
    case Err((k, e)) => Attempt(k, Err(e), disk.models)
    case Ok(p) => Persist(request, disk.models, learner, p, modelId, now, seconds)
  }

  /** The two file writes after the evaluation (progress 0.8): the model,
      then its metadata. */
  function Persist(request: TrainingRequest, models: Dir, learner: Learner, p: Prepared, modelId: string,
                   now: string, seconds: real): (a: Attempt)
    ensures a.reached == 6 || a == Attempt(7, Ok(p.metrics), a.models)
    ensures var modelName := ModelFileName(request.tenantId, modelId);
            var metaName := MetadataName(request.tenantId, modelId);
            && (forall n :: n != modelName && n != metaName ==>
                  (n in a.models <==> n in models) && (n in models ==> a.models[n] == models[n]))
            && (a.result.Ok? ==>
                  && modelName in a.models && a.models[modelName] == ModelFile(p.model)
                  && metaName in a.models && a.models[metaName].ModelMetaFile?
                  && a.models[metaName].model.modelId == modelId
                  && a.models[metaName].model.tenantId == request.tenantId
                  && a.models[metaName].model.metrics == p.metrics
                  && a.models[metaName].model.featureImportance == p.importance)
            && (learner.dumpModel(p.model).Written?
                && !learner.dumpMetadata(MetadataOf(request, modelId, p, learner.dumpModel(p.model).size, now, seconds)).Written?
                ==> a.result.Err? && modelName in a.models && a.models[modelName] == ModelFile(p.model))
  {
    var modelName := ModelFileName(request.tenantId, modelId);
    var metaName := MetadataName(request.tenantId, modelId);
    NamesDiffer(request.tenantId, modelId);
    match learner.dumpModel(p.model)
    case NotCreated(e) => Attempt(6, Err(e), models)
    case LeftPartial(e) => Attempt(6, Err(e), models[modelName := Unparsable])
    case Written(size) =>
      var withModel := models[modelName := ModelFile(p.model)];
      var meta := MetadataOf(request, modelId, p, size, now, seconds);
      var (written, error) := WriteFile(withModel, metaName, ModelMetaFile(meta), learner.dumpMetadata(meta));
      if error.Some? then Attempt(6, Err(error.value), written)
      else Attempt(7, Ok(p.metrics), written)
  }

  /** A model's two files have different names. */
  lemma NamesDiffer(tenant: string, id: string)
    ensures ModelFileName(tenant, id) != MetadataName(tenant, id)
  {
    var k := |tenant + "_" + id|;
    assert ModelFileName(tenant, id)[k..] == ".joblib";
    assert MetadataName(tenant, id)[k..] == "_metadata.json";
  }

  /** The record after a progress write: the first one also sets the status. */
  function Checkpoint(job: Job, p: Tenths): (j: Job)
    ensures j.status == InProgress && j.progress == p && SameJob(j, job)
    ensures j.modelId == job.modelId && j.endTime == job.endTime && j.metrics == job.metrics
    ensures j.errorMessage == job.errorMessage
  {
    job.(status := InProgress, progress := p)
  }

  /** Two records of the same job: id, tenant and start time agree. */
  predicate SameJob(a: Job, b: Job) {
    a.trainingJobId == b.trainingJobId && a.tenantId == b.tenantId && a.startTime == b.startTime
  }

  /** The records of the first `n` checkpoints. */
  function Passed(job: Job, n: nat): (js: seq<Job>)
    requires n <= |Schedule|
    ensures |js| == n && forall i :: 0 <= i < n ==> js[i] == Checkpoint(job, Schedule[i])
  {
    seq(n, i requires 0 <= i < n => Checkpoint(job, Schedule[i]))
  }

  /** The record the run ends with. */
  function Finish(job: Job, a: Attempt, modelId: string, now: string): (j: Job)
    requires 1 <= a.reached <= 7 && (a.result.Ok? <==> a.reached == 7)
    ensures SameJob(j, job) && j.endTime == Some(now) && j.progress == Schedule[a.reached - 1]
    ensures a.result.Ok? ==> j == job.(status := Completed, progress := 10, endTime := Some(now),
                                       modelId := Some(modelId), metrics := a.result.value)
    ensures a.result.Err? ==> j == job.(status := Failed, progress := Schedule[a.reached - 1], endTime := Some(now),
                                        errorMessage := Some(a.result.error))
  {
    match a.result
    case Ok(metrics) => job.(status := Completed, progress := 10, endTime := Some(now), modelId := Some(modelId), metrics := metrics)
    case Err(e) => job.(status := Failed, progress := Schedule[a.reached - 1], endTime := Some(now), errorMessage := Some(e))
  }

  /** The job records a run goes through, the last one final, and the disk
      it leaves. */
  datatype Run = Run(trace: seq<Job>, disk: Disk)

  /** `train_model_task` on the record of its job: status `in_progress` with
      the first checkpoint, one record per progress write, then `completed`
      with the model id, the metrics and an end time, or `failed` with the
      exception and an end time and the progress of the last checkpoint. */
  function Train(job: Job, request: TrainingRequest, disk: Disk, learner: Learner, modelId: string,
                 now: string, seconds: real): (r: Run)
    ensures 2 <= |r.trace| <= 8
    ensures r.trace[0].status == InProgress && r.trace[0].progress == 1
    ensures forall i :: 0 <= i < |r.trace| - 1 ==> r.trace[i].status == InProgress
    ensures Last(r.trace).status == Completed || Last(r.trace).status == Failed
    ensures forall i :: 0 <= i < |r.trace| ==> r.trace[i].progress in Schedule && SameJob(r.trace[i], job)
    ensures r.disk.datasets == disk.datasets
  {
    var a := Stages(request, disk, learner, modelId, now, seconds);
    Run(Passed(job, a.reached) + [Finish(job, a, modelId, now)], disk.(models := a.models))
  }

  function Last<T>(xs: seq<T>): T
    requires |xs| > 0
  {
    xs[|xs| - 1]
  }

  /** The record at position `i` of a run: the checkpoint `i`, or the final
      record. */
  lemma TraceAt(job: Job, request: TrainingRequest, disk: Disk, learner: Learner, modelId: string,
                now: string, seconds: real)
    ensures var a := Stages(request, disk, learner, modelId, now, seconds);
            var r := Train(job, request, disk, learner, modelId, now, seconds);
            && |r.trace| == a.reached + 1
            && (forall i :: 0 <= i < a.reached ==> r.trace[i] == Checkpoint(job, Schedule[i]))
            && Last(r.trace) == Finish(job, a, modelId, now)
            && r.disk == disk.(models := a.models)
  {
  }

  /** Progress never goes back: every record's progress is at least that of
      the records before it. */
  lemma ProgressMonotone(job: Job, request: TrainingRequest, disk: Disk, learner: Learner, modelId: string,
                         now: string, seconds: real)
    ensures var r := Train(job, request, disk, learner, modelId, now, seconds);
            forall i, j :: 0 <= i <= j < |r.trace| ==> r.trace[i].progress <= r.trace[j].progress
  {
    var a := Stages(request, disk, learner, modelId, now, seconds);
    TraceMonotone(job, a, modelId, now);
  }

  /** The records of any attempt's run, checkpoints then final record, have
      non-decreasing progress. */
  lemma TraceMonotone(job: Job, a: Attempt, modelId: string, now: string)
    requires 1 <= a.reached <= 7 && (a.result.Ok? <==> a.reached == 7)
    ensures var trace := Passed(job, a.reached) + [Finish(job, a, modelId, now)];
            forall i, j :: 0 <= i <= j < |trace| ==> trace[i].progress <= trace[j].progress
  {
    var trace := Passed(job, a.reached) + [Finish(job, a, modelId, now)];
    forall i, j | 0 <= i <= j < |trace| ensures trace[i].progress <= trace[j].progress {
      var pi := if i < a.reached then i else a.reached - 1;
      var pj := if j < a.reached then j else a.reached - 1;
      assert trace[i].progress == Schedule[pi];
      assert trace[j].progress == Schedule[pj];
      ScheduleIncreasing(pi, pj);
    }
  }

  lemma ScheduleIncreasing(i: nat, j: nat)
    requires i <= j < |Schedule|
    ensures Schedule[i] <= Schedule[j]
  {
  }

  /** The final record of a run: `completed` with both files on disk, or
      `failed` with the exception, keeping the progress of the last
      checkpoint and the model id it had; no other model file changes. */
  lemma Outcome(job: Job, request: TrainingRequest, disk: Disk, learner: Learner, modelId: string,
                now: string, seconds: real)
    ensures var r := Train(job, request, disk, learner, modelId, now, seconds);
            var f := Last(r.trace);
            var modelName := ModelFileName(request.tenantId, modelId);
            var metaName := MetadataName(request.tenantId, modelId);
            && (f.status == Completed ==>
                  && f.progress == 10 && f.endTime == Some(now) && f.modelId == Some(modelId)
                  && f.errorMessage == job.errorMessage
                  && modelName in r.disk.models && r.disk.models[modelName].ModelFile?
                  && metaName in r.disk.models && r.disk.models[metaName].ModelMetaFile?
                  && r.disk.models[metaName].model.modelId == modelId
                  && r.disk.models[metaName].model.metrics == f.metrics
                  && (forall k :: k in f.metrics <==> k in MetricKeys(request.modelType)))
            && (f.status == Failed ==>
                  && f.errorMessage.Some? && f.endTime == Some(now)
                  && f.modelId == job.modelId && f.metrics == job.metrics
                  && f.progress == r.trace[|r.trace| - 2].progress)
            && (forall n :: n != modelName && n != metaName ==>
                  (n in r.disk.models <==> n in disk.models)
                  && (n in disk.models ==> r.disk.models[n] == disk.models[n]))
  {
    var a := Stages(request, disk, learner, modelId, now, seconds);
    TraceAt(job, request, disk, learner, modelId, now, seconds);
  }

  /** Where a run stops early: a missing dataset file, or one `read_csv`
      finds no columns in, fails it at progress 0.1, a missing target or feature at 0.2, an unsupported model type or
      a training configuration the estimator rejects at 0.3 (when the split
      succeeds); none of these touches the disk. */
  lemma EarlyFailures(job: Job, request: TrainingRequest, disk: Disk, learner: Learner, modelId: string,
                      now: string, seconds: real)
    ensures var r := Train(job, request, disk, learner, modelId, now, seconds);
            var name := DataFileName(request.tenantId, Render(request.datasetId));
            && (name !in disk.datasets ==>
                  r == Run(Passed(job, 1) + [FailedAt(job, 1, FileNotFound("Dataset not found: datasets/" + name), now)], disk))
            && (name in disk.datasets && disk.datasets[name].DataFile? && |disk.datasets[name].table.columns| == 0 ==>
                  r == Run(Passed(job, 1) + [FailedAt(job, 1, NoColumns, now)], disk))
            && (name in disk.datasets && disk.datasets[name].DataFile? && |disk.datasets[name].table.columns| > 0
                && TargetOf(request.columns).None? ==>
                  r == Run(Passed(job, 2) + [FailedAt(job, 2, ValueError("No target column specified"), now)], disk))
            && (name in disk.datasets && disk.datasets[name].DataFile? && |disk.datasets[name].table.columns| > 0
                && TargetOf(request.columns).Some? && TargetOf(request.columns).value != ""
                && (forall i :: 0 <= i < |request.columns| && request.columns[i].isFeature ==>
                      request.columns[i].name == TargetOf(request.columns).value) ==>
                  r == Run(Passed(job, 2) + [FailedAt(job, 2, ValueError("No feature columns specified"), now)], disk))
            && (name in disk.datasets && disk.datasets[name].DataFile? && SelectColumns(request.columns).Ok?
                && |disk.datasets[name].table.columns| > 0
                && learner.split(Reread(disk.datasets[name].table), SelectColumns(request.columns).value).Ok?
                && request.modelType != Classification && request.modelType != Regression ==>
                  r == Run(Passed(job, 3) + [FailedAt(job, 3, ValueError("Unsupported model type: " + ModelTypeValue(request.modelType)), now)], disk))
            && (name in disk.datasets && disk.datasets[name].DataFile? && SelectColumns(request.columns).Ok?
                && |disk.datasets[name].table.columns| > 0
                && learner.split(Reread(disk.datasets[name].table), SelectColumns(request.columns).value).Ok?
                && EstimatorOf(request.modelType).Some?
                && learner.construct(EstimatorOf(request.modelType).value, request.trainingConfig).Some? ==>
                  r == Run(Passed(job, 3) + [FailedAt(job, 3, learner.construct(EstimatorOf(request.modelType).value,
                                                                                request.trainingConfig).value, now)], disk))
  {
    var a := Stages(request, disk, learner, modelId, now, seconds);
    assert disk.(models := disk.models) == disk;
  }

  /** The failure record at checkpoint `n`. */
  function FailedAt(job: Job, n: nat, e: Exception, now: string): Job
    requires 1 <= n <= |Schedule|
  {
    job.(status := Failed, progress := Schedule[n - 1], endTime := Some(now), errorMessage := Some(e))
  }

  /** Completion is not atomic: when the metadata write fails after the
      model file was written, the run fails and the `.joblib` file stays. */
  lemma MetadataFailureLeavesModel(job: Job, request: TrainingRequest, disk: Disk, learner: Learner, modelId: string,
                                   now: string, seconds: real)
    requires Prepare(request, disk.datasets, learner).Ok?
    requires var p := Prepare(request, disk.datasets, learner).value;
             && learner.dumpModel(p.model).Written?
             && !learner.dumpMetadata(MetadataOf(request, modelId, p, learner.dumpModel(p.model).size, now, seconds)).Written?
    ensures var r := Train(job, request, disk, learner, modelId, now, seconds);
            var p := Prepare(request, disk.datasets, learner).value;
            && Last(r.trace).status == Failed
            && ModelFileName(request.tenantId, modelId) in r.disk.models
            && r.disk.models[ModelFileName(request.tenantId, modelId)] == ModelFile(p.model)
  {
    TraceAt(job, request, disk, learner, modelId, now, seconds);
  }
}
