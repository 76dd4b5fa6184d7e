/*
  Budget bookkeeping of the Optuna-based hyperparameter tuner
  (lightautoml/ml_algo/tuning/optuna.py).

  The tuner clamps its timeout to the timer's estimate, runs an Optuna study
  whose objective configures and fits a deep copy of the algorithm per trial,
  re-estimates after every trial how many trials fit in the timeout, and
  finally refits the algorithm with the best parameters of the study.

  Optuna itself (the sampler, the study's scheduling, its exceptions) and the
  algorithm's own fitting are given as an `Optimizer` of functions indexed by
  the trial number. `study.optimize` is modelled by its stopping rule: trial
  `i` starts only while `i < n_trials` and the summed duration of the earlier
  trials is below the timeout.
*/
module OptunaTuning {
  import opened Results

  type HyperParams = map<string, real>

  /** Optimisation direction; any other string is refused by `optuna.create_study`. */
  datatype Direction = Maximize | Minimize | UnknownDirection(name: string)

  /** The tunable algorithm as far as the tuner sees it: its parameters, whether it is fitted, its mean trial time. */
  datatype Algo = Algo(params: HyperParams, isFitted: bool, meanTrialTime: Option<real>)

  /** Wall-clock durations of trials, in seconds. */
  type Duration = d: real | d > 0.0 witness 1.0

  /**
    A completed trial: the parameter values Optuna recorded for it (what the
    sampler drew, later read back as `study.best_params`), the configured copy
    of the algorithm it fitted, its objective value and its duration.
  */
  datatype Trial = Trial(params: HyperParams, algo: Algo, value: real, duration: Duration)

  /**
    Optuna and the fitting code the tuner calls into:
    `suggest(i, e)` — the values the sampler draws through `trial.suggest_*` for trial `i` when the
    objective was built with `estimated_n_trials = e`, which the study records as the trial's parameters;
    `configure(v, e)` — the dictionary `trial_params_values` builds from those values, the defaults of
    `init_params_on_input` and `e`, and assigns to the copy; `objective(a)` — the score of `fit_predict` on the configured copy `a`;
    `duration(i)` — how long trial `i` takes; `failsAt` — the trial during which Optuna raises an
    `OptunaError`, if any; `fitPredict(a)` — the predictions of the final refit.
  */
  datatype Optimizer = Optimizer(
    suggest: (nat, int) -> HyperParams,
    configure: (HyperParams, int) -> HyperParams,
    objective: Algo -> real,
    duration: nat -> Duration,
    failsAt: Option<nat>,
    fitPredict: Algo -> seq<real>)

  datatype TuneError =
    | AlgoAlreadyFitted   // the assertion that a fitted algo cannot be tuned
    | InvalidDirection    // `create_study` rejects the direction string
    | NoCompletedTrial    // `study.best_params` of a study without a completed trial

  /** What `fit` returns: `(ml_algo, preds_ds)` or `(None, None)`. */
  datatype Outcome = Outcome(algo: Option<Algo>, preds: Option<seq<real>>)

  /** The fields of the tuner. `study` holds the trials of the last study created. */
  datatype TunerState = TunerState(
    timeout: real,
    nTrials: int,
    estimatedNTrials: int,
    direction: Direction,
    fitOnHoldout: bool,
    randomState: int,
    study: Option<seq<Trial>>,
    bestParams: Option<HyperParams>)

  const DefaultTimeout: real := 1000.0
  const DefaultNTrials: int := 100
  const DefaultRandomState: int := 42

  function Min(a: real, b: real): real { if a <= b then a else b }
  function MaxR(a: real, b: real): real { if a >= b then a else b }

  // ---------------------------------------------------------------------------
  // Time bookkeeping
  // ---------------------------------------------------------------------------

  /** Summed duration of the trials: the time `optimize` has spent when the next trial is considered. */
  function TotalDuration(ts: seq<Trial>): (t: real)
    ensures t >= 0.0
    ensures |ts| > 0 ==> t > 0.0
    ensures |ts| > 0 ==> t >= ts[|ts| - 1].duration
  {
    if |ts| == 0 then 0.0 else TotalDuration(ts[..|ts| - 1]) + ts[|ts| - 1].duration
  }

  /** Mean trial duration, the `duration` column of `trials_dataframe()` averaged. */
  function Mean(ts: seq<Trial>): (m: real)
    requires |ts| > 0
    ensures m > 0.0
    ensures m * (|ts| as real) == TotalDuration(ts)
  {
    TotalDuration(ts) / (|ts| as real)
  }

  /**
    `min(n_trials, timeout // mean_trial_time)`: the number of trials of the
    mean length that fit into the (whole) timeout, capped by `n_trials`.
  */
  function Estimate(nTrials: int, timeout: real, mean: real): (e: int)
    requires mean > 0.0
    ensures e <= nTrials
    ensures (e as real) * mean <= timeout
    ensures e == nTrials || timeout < (e as real + 1.0) * mean
  {
    var f := (timeout / mean).Floor;
    FloorDiv(timeout, mean);
    if nTrials <= f then
      assert (nTrials as real) * mean <= (f as real) * mean by { MulLeq(nTrials as real, f as real, mean); }
      nTrials
    else
      f
  }

  /** `floor(t / m)` whole periods of length `m` fit into `t`, one more does not. */
  lemma FloorDiv(t: real, m: real)
    requires m > 0.0
    ensures ((t / m).Floor as real) * m <= t < ((t / m).Floor as real + 1.0) * m
  {
    var q := t / m;
    var f := q.Floor as real;
    assert f <= q < f + 1.0;
    assert q * m == t;
    MulLeq(f, q, m);
    MulLt(q, f + 1.0, m);
    assert t < (f + 1.0) * m;
    assert f == (t / m).Floor as real;
  }

  lemma MulLeq(a: real, b: real, m: real)
    requires a <= b && m > 0.0
    ensures a * m <= b * m
  {
  }

  lemma MulLt(a: real, b: real, m: real)
    requires a < b && m > 0.0
    ensures a * m < b * m
  {
  }

  // ---------------------------------------------------------------------------
  // The study
  // ---------------------------------------------------------------------------

  /** `v` replaces the current best: strictly greater when maximising, strictly smaller when minimising. */
  predicate StrictlyBetter(dir: Direction, v: real, best: real)
  {
    match dir
    case Maximize => v > best
    case Minimize => v < best
    case UnknownDirection(_) => false
  }

  /**
    The study's best trial, kept as Optuna keeps it: a trial replaces the best
    only when strictly better, so the earliest of several optimal trials wins.
  */
  function BestIndex(ts: seq<Trial>, dir: Direction): (b: nat)
    requires |ts| > 0 && !dir.UnknownDirection?
    ensures b < |ts|
    ensures forall j :: 0 <= j < |ts| ==> !StrictlyBetter(dir, ts[j].value, ts[b].value)
    ensures forall j :: 0 <= j < b ==> StrictlyBetter(dir, ts[b].value, ts[j].value)
  {
    if |ts| == 1 then 0
    else
      var b := BestIndex(ts[..|ts| - 1], dir);
      assert forall j :: 0 <= j < |ts| - 1 ==> ts[..|ts| - 1][j] == ts[j];
      if StrictlyBetter(dir, ts[|ts| - 1].value, ts[b].value) then |ts| - 1 else b
  }

  /**
    The objective built by `get_objective` for trial `i`: a deep copy of the
    algorithm, given the dictionary built from the sampled values, fitted and
    scored. The copy is the algorithm with only its parameters changed; the
    study records the sampled values themselves.
  */
  function Objective(algo: Algo, estimatedNTrials: int, i: nat, st: Optimizer): (t: Trial)
    ensures t.params == st.suggest(i, estimatedNTrials)
    ensures t.algo.(params := algo.params) == algo
    ensures t.algo.params == st.configure(t.params, estimatedNTrials)
    ensures t.value == st.objective(t.algo) && t.duration == st.duration(i)
  {
    var drawn := st.suggest(i, estimatedNTrials);
    var copy := algo.(params := st.configure(drawn, estimatedNTrials));
    Trial(drawn, copy, st.objective(copy), st.duration(i))
  }

  /** What `optimize` leaves behind: the trials, whether an `OptunaError` ended it, the tuner's algo and estimate. */
  datatype Run = Run(trials: seq<Trial>, failed: bool, algo: Algo, estimate: int)

  /**
    Reference definition of `study.optimize` with the `update_trial_time`
    callback. `est0` is the estimate the objective was built with; `algo` and
    `estimate` are the values the callback has left so far.
  */
  function Optimize(st: Optimizer, nTrials: int, timeout: real, est0: int, algo: Algo, estimate: int, trials: seq<Trial>): Run
    decreases nTrials - |trials|
  {
    var i := |trials|;
    if i >= nTrials || TotalDuration(trials) >= timeout then Run(trials, false, algo, estimate)
    else if st.failsAt == Some(i) then Run(trials, true, algo, estimate)
    else
      var trials' := trials + [Objective(algo, est0, i, st)];
      var mean := Mean(trials');
      Optimize(st, nTrials, timeout, est0, algo.(meanTrialTime := Some(mean)), Estimate(nTrials, timeout, mean), trials')
  }

  /** Reference definition of `OptunaTuner.fit`: the new state of the tuner and what the call returns. */
  function FitSpec(s: TunerState, algo: Algo, iterIsHoldout: bool, estimatedTuningTime: real, st: Optimizer)
    : (TunerState, Result<Outcome, TuneError>)
  {
    if algo.isFitted then (s, Err(AlgoAlreadyFitted))
    else
      var s1 := s.(timeout := Min(s.timeout, MaxR(estimatedTuningTime, 1.0)));
      var converted := s.fitOnHoldout && !iterIsHoldout;
      if s.direction.UnknownDirection? then (s1, Err(InvalidDirection))
      else
        var run := Optimize(st, s1.nTrials, s1.timeout, s1.estimatedNTrials, algo, s1.estimatedNTrials, []);
        var s2 := s1.(estimatedNTrials := run.estimate, study := Some(run.trials));
        if run.failed then (s2, Ok(Outcome(None, None)))
        else if |run.trials| == 0 then (s2, Err(NoCompletedTrial))
        else
          var best := run.trials[BestIndex(run.trials, s.direction)].params;
          var tuned := run.algo.(params := best, isFitted := true);
          var s3 := s2.(bestParams := Some(best));
          if converted then (s3, Ok(Outcome(None, None)))
          else (s3, Ok(Outcome(Some(tuned), Some(st.fitPredict(tuned)))))
  }

  // ---------------------------------------------------------------------------
  // The tuner
  // ---------------------------------------------------------------------------

  class OptunaTuner {
    var timeout: real
    var nTrials: int
    var estimatedNTrials: int
    var direction: Direction
    var fitOnHoldout: bool
    var randomState: int
    var study: Option<seq<Trial>>
    var bestParams: Option<HyperParams>

    function State(): TunerState
      reads this
    {
      TunerState(timeout, nTrials, estimatedNTrials, direction, fitOnHoldout, randomState, study, bestParams)
    }

    /** `__init__`: the budget as given; the trial estimate starts at `n_trials`. */
    constructor(timeout: real, nTrials: int, direction: Direction, fitOnHoldout: bool, randomState: int)
      ensures State() == TunerState(timeout, nTrials, nTrials, direction, fitOnHoldout, randomState, None, None)
      ensures estimatedNTrials <= nTrials
    {
      this.timeout := timeout;
      this.nTrials := nTrials;
      this.estimatedNTrials := nTrials;
      this.direction := direction;
      this.fitOnHoldout := fitOnHoldout;
      this.randomState := randomState;
      this.study := None;
      this.bestParams := None;
    }

    /** `_upd_timeout`: the timeout only ever shrinks. */
    method UpdTimeout(t: real)
      modifies this
      ensures State() == old(State()).(timeout := Min(old(timeout), t))
      ensures timeout <= old(timeout) && timeout <= t
    {
      timeout := Min(timeout, t);
    }

    /** The `update_trial_time` callback, run after each completed trial. */
    method UpdateTrialTime(trials: seq<Trial>, algo: Algo) returns (algo': Algo)
      requires |trials| > 0
      modifies this
      ensures algo' == algo.(meanTrialTime := Some(Mean(trials)))
      ensures State() == old(State()).(estimatedNTrials := Estimate(nTrials, timeout, Mean(trials)))
    {
      var mean := Mean(trials);
      algo' := algo.(meanTrialTime := Some(mean));
      estimatedNTrials := Estimate(nTrials, timeout, mean);
    }

    /**
      `fit`: tune `algo`. `iterIsHoldout` says whether the iterator given is a
      holdout iterator; `estimatedTuningTime` is the timer's estimate.
    */
    method Fit(algo: Algo, iterIsHoldout: bool, estimatedTuningTime: real, st: Optimizer)
      returns (r: Result<Outcome, TuneError>)
      modifies this
      ensures (State(), r) == FitSpec(old(State()), algo, iterIsHoldout, estimatedTuningTime, st)
    {
      if algo.isFitted {
        return Err(AlgoAlreadyFitted);
      }
      UpdTimeout(MaxR(estimatedTuningTime, 1.0));
      var tuned := algo;
      var converted := fitOnHoldout && !iterIsHoldout;
      if direction.UnknownDirection? {
        return Err(InvalidDirection);
      }
      ghost var s1 := State();
      var est0 := estimatedNTrials;
      var trials: seq<Trial> := [];
      var failed := false;
      study := Some(trials);
      while true
        invariant State() == s1.(estimatedNTrials := estimatedNTrials, study := Some([]))
        invariant Optimize(st, nTrials, timeout, est0, tuned, estimatedNTrials, trials)
               == Optimize(st, nTrials, timeout, est0, algo, est0, [])
        decreases nTrials - |trials|
      {
        var i := |trials|;
        if i >= nTrials || TotalDuration(trials) >= timeout {
          break;
        }
        if st.failsAt == Some(i) {
          failed := true;
          break;
        }
        trials := trials + [Objective(tuned, est0, i, st)];
        tuned := UpdateTrialTime(trials, tuned);
      }
      study := Some(trials);
      if failed {
        return Ok(Outcome(None, None));
      }
      if |trials| == 0 {
        return Err(NoCompletedTrial);
      }
      var best := trials[BestIndex(trials, direction)].params;
      bestParams := Some(best);
      tuned := tuned.(params := best, isFitted := true);
      var preds := st.fitPredict(tuned);
      if converted {
        return Ok(Outcome(None, None));
      }
      return Ok(Outcome(Some(tuned), Some(preds)));
    }
  }
}
