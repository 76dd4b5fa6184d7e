/**
  The coordinate-descent linear model `LinearL1CD`: its dispatch over the task
  name, and the regularization-path search of `fit_predict_single_fold`.

  The numerics are oracles bundled in `Oracles`: the solver's `fit` (which sees
  the estimator it is handed, including the coefficients of the previous fit,
  i.e. the warm start), `predict_proba` / `predict` on the fixed validation
  data, the metric, and the timer.
*/
module LinearL1CD {
  import opened Results

  // ---------------------------------------------------------------------------
  // Tasks, parameters, estimators
  // ---------------------------------------------------------------------------

  /** The task names the algorithm dispatches on; any other name is unsupported. */
  datatype Task = Binary | Multiclass | Reg | UnsupportedTask(name: string)

  /** The Python exceptions the modelled code can raise. */
  datatype Error = AttributeError | ValueError | IndexError | ZeroDivisionError | AssertionError

  /**
    The algorithm's parameter dictionary. The keys `cs`, `early_stopping`,
    `l1_ratios` and `solver` are always present (they come from the defaults).
  */
  datatype Params = Params(
    tol: real,
    maxIter: int,
    cs: seq<real>,
    earlyStopping: int,
    l1Ratios: seq<real>,
    solver: string)

  const DefaultCs: seq<real> :=
    [0.0001, 0.001, 0.01, 0.1, 1.0, 10.0, 100.0, 1000.0, 10000.0, 100000.0, 1000000.0]

  const DefaultParams: Params := Params(0.001, 100, DefaultCs, 2, [1.0], "saga")

  datatype Penalty = L1 | ElasticNetPenalty

  /** The three scikit-learn estimator classes the algorithm may build. */
  datatype Family = LogisticRegression(penalty: Penalty) | Lasso | ElasticNet

  /** The penalty strength as set on the estimator: `C` for logistic regression, `alpha` otherwise. */
  datatype Strength = C(c: real) | Alpha(alpha: real)

  /**
    An estimator object. `l1Ratio` and `strength` are `None` while the library
    default applies; `coef` is `None` before the first fit.
  */
  datatype Estimator = Estimator(
    family: Family,
    solver: Option<string>,
    tol: real,
    maxIter: int,
    warmStart: bool,
    l1Ratio: Option<real>,
    strength: Option<Strength>,
    coef: Option<seq<real>>)

  /** What `_infer_params` hands back: the template model and the popped grid settings. */
  datatype Setup = Setup(model: Estimator, cs: seq<real>, l1Ratios: seq<real>, earlyStopping: int)

  /** A freshly constructed estimator: warm start on, nothing set, nothing fitted. */
  predicate Unfitted(m: Estimator)
  {
    m.warmStart && m.l1Ratio.None? && m.strength.None? && m.coef.None?
  }

  /** The source compares the ratios with the tuple `(1,)`. */
  predicate PureL1(l1Ratios: seq<real>)
  {
    l1Ratios == [1.0]
  }

  /**
    `_infer_params`: pop the grid settings and build the estimator for the task.
    Classification gets a logistic regression (penalty `l1` exactly when the
    ratios are `(1,)`), regression gets Lasso or ElasticNet with `solver` removed,
    any other task raises.
  */
  function InferParams(task: Task, p: Params): (r: Result<Setup, Error>)
    ensures r.Err? <==> task.UnsupportedTask?
    ensures r.Err? ==> r.error == AttributeError
    ensures r.Ok? ==>
      && r.value.cs == p.cs
      && r.value.l1Ratios == p.l1Ratios
      && r.value.earlyStopping == p.earlyStopping
      && Unfitted(r.value.model)
      && r.value.model.tol == p.tol
      && r.value.model.maxIter == p.maxIter
    ensures task.Binary? || task.Multiclass? ==>
      && r.Ok?
      && r.value.model.family == LogisticRegression(if PureL1(p.l1Ratios) then L1 else ElasticNetPenalty)
      && r.value.model.solver == Some(p.solver)
    ensures task.Reg? ==>
      && r.Ok?
      && (r.value.model.family.Lasso? <==> PureL1(p.l1Ratios))
      && (r.value.model.family.ElasticNet? <==> !PureL1(p.l1Ratios))
      && r.value.model.solver.None?
  {
    match task
    case Binary | Multiclass =>
      var penalty := if PureL1(p.l1Ratios) then L1 else ElasticNetPenalty;
      var model := Estimator(LogisticRegression(penalty), Some(p.solver), p.tol, p.maxIter, true, None, None, None);
      Ok(Setup(model, p.cs, p.l1Ratios, p.earlyStopping))
    case Reg =>
      var family := if PureL1(p.l1Ratios) then Lasso else ElasticNet;
      var model := Estimator(family, None, p.tol, p.maxIter, true, None, None, None);
      Ok(Setup(model, p.cs, p.l1Ratios, p.earlyStopping))
    case UnsupportedTask(_) =>
      Err(AttributeError)
  }

  /** For regression the grid of `C` values is turned into a grid of `alpha = 1/(2C)`. */
  function AlphaGrid(cs: seq<real>): (alphas: seq<real>)
    requires forall i :: 0 <= i < |cs| ==> cs[i] != 0.0
    ensures |alphas| == |cs|
    ensures forall i :: 0 <= i < |cs| ==> alphas[i] * (2.0 * cs[i]) == 1.0
  {
    seq(|cs|, i requires 0 <= i < |cs| => 1.0 / (2.0 * cs[i]))
  }

  /**
    `init_params_on_input`: the default parameters, with the `C` grid rewritten
    as an `alpha` grid when the task is regression. The assertion on the
    presence of a scikit-learn loss is `hasSklearnLoss`; a zero in the grid
    raises on division.
  */
  function InitParamsOnInput(task: Task, hasSklearnLoss: bool, defaults: Params): (r: Result<Params, Error>)
    ensures !hasSklearnLoss ==> r == Err(AssertionError)
    ensures hasSklearnLoss && !task.Reg? ==> r == Ok(defaults)
    ensures hasSklearnLoss && task.Reg? ==>
      (r.Ok? <==> forall i :: 0 <= i < |defaults.cs| ==> defaults.cs[i] != 0.0)
    ensures r.Ok? ==>
      && r.value.(cs := defaults.cs) == defaults
      && |r.value.cs| == |defaults.cs|
    ensures r.Ok? && task.Reg? ==>
      forall i :: 0 <= i < |defaults.cs| ==> r.value.cs[i] * (2.0 * defaults.cs[i]) == 1.0
    ensures r.Err? && hasSklearnLoss ==> r.error == ZeroDivisionError
  {
    if !hasSklearnLoss then Err(AssertionError)
    else if !task.Reg? then Ok(defaults)
    else if exists i :: 0 <= i < |defaults.cs| && defaults.cs[i] == 0.0 then Err(ZeroDivisionError)
    else Ok(defaults.(cs := AlphaGrid(defaults.cs)))
  }

  // ---------------------------------------------------------------------------
  // Oracles and predictions
  // ---------------------------------------------------------------------------

  /** A one-column prediction (binary, regression) or a matrix (multiclass). */
  datatype Prediction = Vector(v: seq<real>) | Matrix(m: seq<seq<real>>)

  /**
    The numeric collaborators. `fit` returns the coefficient vector the solver
    reaches from the estimator it is given (whose `coef` is the warm start);
    `predictProba` and `predict` run on the validation data; `metric` compares
    a prediction with the validation target; `timeUp(k)` is the answer of the
    timer's k-th query `time_limit_exceeded()`.
  */
  datatype Oracles = Oracles(
    fit: Estimator -> seq<real>,
    predictProba: Estimator -> seq<seq<real>>,
    predict: Estimator -> seq<real>,
    metric: Prediction -> real,
    timeUp: nat -> bool)

  /**
    `_predict_w_model_type`: the positive-class column for a binary task, the
    raw prediction for regression, the whole probability matrix for multiclass.
  */
  function PredictWModelType(task: Task, o: Oracles, m: Estimator): (r: Result<Prediction, Error>)
    ensures task.UnsupportedTask? ==> r == Err(ValueError)
    ensures task.Reg? ==> r == Ok(Vector(o.predict(m)))
    ensures task.Multiclass? ==> r == Ok(Matrix(o.predictProba(m)))
    ensures task.Binary? ==>
      var proba := o.predictProba(m);
      && (r.Ok? <==> forall i :: 0 <= i < |proba| ==> |proba[i]| >= 2)
      && (r.Err? ==> r.error == IndexError)
      && (r.Ok? ==> r.value.Vector? && |r.value.v| == |proba|
                    && forall i :: 0 <= i < |proba| ==> r.value.v[i] == proba[i][1])
  {
    match task
    case Binary =>
      var proba := o.predictProba(m);
      if forall i :: 0 <= i < |proba| ==> |proba[i]| >= 2 then
        Ok(Vector(seq(|proba|, i requires 0 <= i < |proba| => proba[i][1])))
      else
        Err(IndexError)
    case Reg => Ok(Vector(o.predict(m)))
    case Multiclass => Ok(Matrix(o.predictProba(m)))
    case UnsupportedTask(_) => Err(ValueError)
  }

  /** `np.allclose(coef, 0)`: every coefficient within the absolute tolerance 1e-8 of zero. */
  predicate AllClose0(coef: seq<real>)
  {
    forall i :: 0 <= i < |coef| ==> -0.00000001 <= coef[i] <= 0.00000001
  }

  /** `(coef != 0).all()` */
  predicate AllNonzero(coef: seq<real>)
  {
    forall i :: 0 <= i < |coef| ==> coef[i] != 0.0
  }

  function CoefOf(m: Estimator): seq<real>
  {
    if m.coef.Some? then m.coef.value else []
  }

  /** A fit whose coefficients all collapsed to zero. */
  predicate Degenerate(m: Estimator)
  {
    AllClose0(CoefOf(m))
  }

  /** `set_params(C=c)`, falling back to `set_params(alpha=c)` where `C` is not a parameter. */
  function SetStrength(m: Estimator, c: real): Estimator
  {
    if m.family.LogisticRegression? then m.(strength := Some(C(c))) else m.(strength := Some(Alpha(c)))
  }

  /** `set_params(l1_ratio=r)`: Lasso has no such parameter and raises. */
  function SetL1Ratio(m: Estimator, ratio: real): Result<Estimator, Error>
  {
    if m.family.Lasso? then Err(ValueError) else Ok(m.(l1Ratio := Some(ratio)))
  }

  /**
    scikit-learn's own parameter check in `LogisticRegression.fit`: the
    `elasticnet` penalty needs a numeric `l1_ratio`, and raises `ValueError`
    while it is unset.
  */
  predicate FitRefused(m: Estimator)
  {
    m.family == LogisticRegression(ElasticNetPenalty) && m.l1Ratio.None?
  }

  /** `model.fit(...)` on a warm-started estimator that passes the check: the coefficients are replaced by the solver's. */
  function Fit(o: Oracles, m: Estimator): Estimator
  {
    m.(coef := Some(o.fit(m)))
  }

  // ---------------------------------------------------------------------------
  // Sorting the ratios
  // ---------------------------------------------------------------------------

  predicate NonIncreasing(s: seq<real>)
  {
    forall i, j :: 0 <= i < j < |s| ==> s[i] >= s[j]
  }

  /** `x` placed before the first element it is at least, as a stable descending sort places it. */
  function Insert(x: real, s: seq<real>): seq<real>
  {
    if |s| == 0 then [x]
    else if x >= s[0] then [x] + s
    else [s[0]] + Insert(x, s[1..])
  }

  /** Inserting adds exactly `x` to the elements. */
  lemma {:induction false} InsertPermutes(x: real, s: seq<real>)
    ensures multiset(Insert(x, s)) == multiset(s) + multiset{x}
  {
    if |s| > 0 && x < s[0] {
      InsertPermutes(x, s[1..]);
      assert s == [s[0]] + s[1..];
      assert Insert(x, s) == [s[0]] + Insert(x, s[1..]);
    }
  }

  /** Inserting into a non-increasing sequence keeps it non-increasing. */
  lemma {:induction false} InsertSorted(x: real, s: seq<real>)
    requires NonIncreasing(s)
    ensures NonIncreasing(Insert(x, s))
  {
    if |s| == 0 {
    } else if x >= s[0] {
      ConsNonIncreasing(x, s);
    } else {
      var t := Insert(x, s[1..]);
      InsertSorted(x, s[1..]);
      InsertPermutes(x, s[1..]);
      forall j | 0 <= j < |t|
        ensures t[j] <= s[0]
      {
        assert t[j] in multiset(t);
        if t[j] != x {
          assert t[j] in multiset(s[1..]);
          var i :| 0 <= i < |s[1..]| && s[1..][i] == t[j];
          assert s[i + 1] == t[j];
        }
      }
      ConsNonIncreasing(s[0], t);
    }
  }

  lemma ConsNonIncreasing(h: real, t: seq<real>)
    requires NonIncreasing(t)
    requires forall j :: 0 <= j < |t| ==> t[j] <= h
    ensures NonIncreasing([h] + t)
  {
    var r := [h] + t;
    forall i, j | 0 <= i < j < |r|
      ensures r[i] >= r[j]
    {
      if i > 0 {
        assert r[i] == t[i - 1] && r[j] == t[j - 1];
      } else {
        assert r[j] == t[j - 1];
      }
    }
  }

  /** `sorted(l1_ratios, reverse=True)`, as an insertion sort; `SortDescendingSorted` states what it computes. */
  function SortDescending(s: seq<real>): seq<real>
  {
    if |s| == 0 then [] else Insert(s[0], SortDescending(s[1..]))
  }

  /** The sorted ratios are a non-increasing permutation of the ratios. */
  lemma {:induction false} SortDescendingSorted(s: seq<real>)
    ensures NonIncreasing(SortDescending(s))
    ensures multiset(SortDescending(s)) == multiset(s)
    ensures |SortDescending(s)| == |s|
  {
    if |s| > 0 {
      SortDescendingSorted(s[1..]);
      InsertSorted(s[0], SortDescending(s[1..]));
      InsertPermutes(s[0], SortDescending(s[1..]));
      assert s == [s[0]] + s[1..];
    }
    assert |multiset(SortDescending(s))| == |multiset(s)|;
  }

  // ---------------------------------------------------------------------------
  // The regularization path: reference definition
  // ---------------------------------------------------------------------------

  /** The best cell so far: its score, its (deep-copied) prediction and model. */
  datatype Best = Best(score: real, pred: Prediction, model: Estimator)

  /**
    One visited grid cell, in the order the source fits them: the ratio of the
    outer loop and its position `round` among the sorted ratios, the index `n`
    of `c` in `cs`, the number `queries` of timer queries made before the cell
    (the index of the query made after it, if one is made), the estimator
    handed to `fit`, the fitted estimator, the score (`None` when the cell was
    skipped as degenerate), whether the "all model coefs are 0" warning was
    issued, and the patience counter `es` after the cell.
  */
  datatype Cell = Cell(
    ratio: real,
    round: nat,
    n: nat,
    queries: nat,
    input: Estimator,
    output: Estimator,
    score: Option<real>,
    warned: bool,
    es: int)

  /** The fixed inputs of one search. */
  datatype Config = Config(task: Task, base: Estimator, cs: seq<real>, early: int)

  /**
    The state of the inner loop: the current (warm) model, the best of this
    ratio (`None` is `-inf`), the patience counter, all cells fitted so far in
    the search, and the number of timer queries made so far.
  */
  datatype WalkState = WalkState(model: Estimator, best: Option<Best>, es: int, cells: seq<Cell>, checks: nat)

  /** The state of the outer loop: the global best, the cells, the timer queries. */
  datatype SearchState = SearchState(best: Option<Best>, cells: seq<Cell>, checks: nat)

  /** `score >= c_best_score`, with `None` as `-inf`. */
  predicate Improves(score: real, best: Option<Best>)
  {
    best.None? || score >= best.value.score
  }

  /** `c_best_score >= best_score`, with `None` as `-inf` on either side. */
  predicate AtLeast(a: Option<Best>, b: Option<Best>)
  {
    b.None? || (a.Some? && a.value.score >= b.value.score)
  }

  /** The inner loop over `cs[n..]` for the ratio at position `round` of the sorted ratios. */
  function Walk(cf: Config, o: Oracles, round: nat, ratio: real, n: nat, w: WalkState): Result<WalkState, Error>
    decreases |cf.cs| - n
  {
    if n >= |cf.cs| then Ok(w)
    else if FitRefused(SetStrength(w.model, cf.cs[n])) then Err(ValueError)
    else
      var input := SetStrength(w.model, cf.cs[n]);
      var m := Fit(o, input);
      if Degenerate(m) && n != |cf.cs| - 1 then
        Walk(cf, o, round, ratio, n + 1,
             w.(model := m, cells := w.cells + [Cell(ratio, round, n, w.checks, input, m, None, false, w.es)]))
      else
        var pr := PredictWModelType(cf.task, o, m);
        if pr.Err? then Err(pr.error)
        else
          var score := o.metric(pr.value);
          var improved := Improves(score, w.best);
          var es := if improved then 0 else w.es + 1;
          var best := if improved then Some(Best(score, pr.value, m)) else w.best;
          var cells := w.cells + [Cell(ratio, round, n, w.checks, input, m, Some(score), Degenerate(m), es)];
          if es >= cf.early then Ok(WalkState(m, best, es, cells, w.checks))
          else if o.timeUp(w.checks) || AllNonzero(CoefOf(m)) then Ok(WalkState(m, best, es, cells, w.checks + 1))
          else Walk(cf, o, round, ratio, n + 1, WalkState(m, best, es, cells, w.checks + 1))
  }

  /** The outer loop over `ratios[i..]`; every ratio starts from a fresh copy of the base model. */
  function Search(cf: Config, o: Oracles, ratios: seq<real>, i: nat, s: SearchState): Result<SearchState, Error>
    decreases |ratios| - i
  {
    if i >= |ratios| then Ok(s)
    else
      var walked := Walk(cf, o, i, ratios[i], 0, WalkState(cf.base, None, 0, s.cells, s.checks));
      if walked.Err? then Err(walked.error)
      else
        var w := walked.value;
        var best := if AtLeast(w.best, s.best) then w.best else s.best;
        var s' := SearchState(best, w.cells, w.checks + 1);
        if o.timeUp(w.checks) then Ok(s') else Search(cf, o, ratios, i + 1, s')
  }

  /** What `fit_predict_single_fold` returns (before the loss's back-transform), with the cells it fitted. */
  datatype Fold = Fold(model: Option<Estimator>, pred: Option<Prediction>, cells: seq<Cell>)

  function ConfigOf(task: Task, setup: Setup): Config
  {
    Config(task, setup.model, setup.cs, setup.earlyStopping)
  }

  /** Reference definition of `fit_predict_single_fold`. */
  function FitPredict(task: Task, p: Params, o: Oracles): Result<Fold, Error>
  {
    var setup := InferParams(task, p);
    if setup.Err? then Err(setup.error)
    else
      var searched := Search(ConfigOf(task, setup.value), o, SortDescending(setup.value.l1Ratios), 0, SearchState(None, [], 0));
      if searched.Err? then Err(searched.error)
      else
        var best := searched.value.best;
        Ok(Fold(if best.Some? then Some(best.value.model) else None,
                if best.Some? then Some(best.value.pred) else None,
                searched.value.cells))
  }

  // ---------------------------------------------------------------------------
  // The regularization path: the loops
  // ---------------------------------------------------------------------------

  /**
    The inner loop of `fit_predict_single_fold` for one ratio: `cs` in order,
    each fit warm-started from the previous one, degenerate non-final cells
    skipped, the ratio's best kept with `>=`, and a stop on patience, on the
    timer, or once every coefficient is nonzero.
  */
  method WalkRatio(cf: Config, o: Oracles, round: nat, ratio: real, cells0: seq<Cell>, checks0: nat)
    returns (r: Result<WalkState, Error>)
    ensures r == Walk(cf, o, round, ratio, 0, WalkState(cf.base, None, 0, cells0, checks0))
  {
    var model, cBest, es, cells, checks := cf.base, None, 0, cells0, checks0;
    var n := 0;
    while n < |cf.cs|
      invariant n <= |cf.cs|
      invariant Walk(cf, o, round, ratio, n, WalkState(model, cBest, es, cells, checks))
             == Walk(cf, o, round, ratio, 0, WalkState(cf.base, None, 0, cells0, checks0))
    {
      var input := SetStrength(model, cf.cs[n]);
      if FitRefused(input) {
        return Err(ValueError);
      }
      model := Fit(o, input);
      if Degenerate(model) && n != |cf.cs| - 1 {
        cells := cells + [Cell(ratio, round, n, checks, input, model, None, false, es)];
        n := n + 1;
        continue;
      }
      var pr := PredictWModelType(cf.task, o, model);
      if pr.Err? {
        return Err(pr.error);
      }
      var score := o.metric(pr.value);
      if Improves(score, cBest) {
        cBest := Some(Best(score, pr.value, model));
        es := 0;
      } else {
        es := es + 1;
      }
      cells := cells + [Cell(ratio, round, n, checks, input, model, Some(score), Degenerate(model), es)];
      if es >= cf.early {
        break;
      }
      var up := o.timeUp(checks);
      checks := checks + 1;
      if up {
        break;
      }
      if AllNonzero(CoefOf(model)) {
        break;
      }
      n := n + 1;
    }
    r := Ok(WalkState(model, cBest, es, cells, checks));
  }

  /**
    `fit_predict_single_fold`: ratios in descending order outside, each
    starting from a fresh copy of the template model; after each ratio the
    global best is kept with `>=` and the timer may end the search.
  */
  method FitPredictSingleFold(task: Task, p: Params, o: Oracles) returns (r: Result<Fold, Error>)
    ensures r == FitPredict(task, p, o)
  {
    var setup := InferParams(task, p);
    if setup.Err? {
      return Err(setup.error);
    }
    var cf := ConfigOf(task, setup.value);
    var ratios := SortDescending(setup.value.l1Ratios);

    var model := cf.base;
    var best: Option<Best> := None;
    var cells: seq<Cell> := [];
    var checks: nat := 0;
    ghost var target := Search(cf, o, ratios, 0, SearchState(None, [], 0));

    var i := 0;
    while i < |ratios|
      invariant i <= |ratios|
      invariant Search(cf, o, ratios, i, SearchState(best, cells, checks)) == target
    {
      // The ratio is set on the previous model, which the fresh copy then replaces.
      var discarded := SetL1Ratio(model, ratios[i]);
      model := cf.base;
      var walked := WalkRatio(cf, o, i, ratios[i], cells, checks);
      if walked.Err? {
        return Err(walked.error);
      }
      var cBest := walked.value.best;
      model, cells, checks := walked.value.model, walked.value.cells, walked.value.checks;
      if AtLeast(cBest, best) {
        best := cBest;
      }
      var up := o.timeUp(checks);
      checks := checks + 1;
      if up {
        break;
      }
      i := i + 1;
    }
    r := Ok(Fold(if best.Some? then Some(best.value.model) else None,
                 if best.Some? then Some(best.value.pred) else None,
                 cells));
  }
}
