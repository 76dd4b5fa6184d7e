/*
  Properties of the tuner model: what every trial of a study sees, how the
  trial estimate evolves, and the outcome rule of `fit`.
*/
module OptunaTuningProps {
  import opened Results
  import opened OptunaTuning

  /** The tuner's algo after the callbacks of the first `i` trials: only its mean trial time has changed. */
  function AlgoAt(algo0: Algo, ts: seq<Trial>, i: nat): Algo
    requires i <= |ts|
  {
    if i == 0 then algo0 else algo0.(meanTrialTime := Some(Mean(ts[..i])))
  }

  /** The trial estimate after the callbacks of all trials in `ts`. */
  function EstimateAfter(nTrials: int, timeout: real, est0: int, ts: seq<Trial>): int
  {
    if |ts| == 0 then est0 else Estimate(nTrials, timeout, Mean(ts))
  }

  /**
    Trial `i` was allowed to start (fewer than `n_trials` trials so far, less
    time spent than the timeout, no `OptunaError`), and it fitted a copy of the
    tuner's algo as it stood then, configured from the values sampled for the
    estimate `est0` the objective was built with; the study recorded those values.
  */
  ghost predicate TrialOk(st: Optimizer, nTrials: int, timeout: real, est0: int, algo0: Algo, ts: seq<Trial>, i: int)
    requires 0 <= i < |ts|
  {
    && i < nTrials
    && TotalDuration(ts[..i]) < timeout
    && st.failsAt != Some(i)
    && ts[i].params == st.suggest(i, est0)
    && ts[i].algo == AlgoAt(algo0, ts, i).(params := st.configure(ts[i].params, est0))
    && ts[i].value == st.objective(ts[i].algo)
    && ts[i].duration == st.duration(i)
  }

  ghost predicate TrialsOk(st: Optimizer, nTrials: int, timeout: real, est0: int, algo0: Algo, ts: seq<Trial>)
  {
    forall i :: 0 <= i < |ts| ==> TrialOk(st, nTrials, timeout, est0, algo0, ts, i)
  }

  /** The tuner's algo after `i` trials depends only on the first `i` trials. */
  lemma AlgoAtSamePrefix(algo0: Algo, a: seq<Trial>, b: seq<Trial>, i: nat)
    requires i <= |a| && i <= |b| && a[..i] == b[..i]
    ensures AlgoAt(algo0, a, i) == AlgoAt(algo0, b, i)
  {
  }

  /** One more trial keeps the trace well-formed, and the callback leaves the algo and estimate it describes. */
  lemma TrialStep(st: Optimizer, nTrials: int, timeout: real, est0: int, algo0: Algo, algo: Algo, trials: seq<Trial>)
    requires TrialsOk(st, nTrials, timeout, est0, algo0, trials)
    requires algo == AlgoAt(algo0, trials, |trials|)
    requires |trials| < nTrials && TotalDuration(trials) < timeout && st.failsAt != Some(|trials|)
    ensures var trials' := trials + [Objective(algo, est0, |trials|, st)];
            && TrialsOk(st, nTrials, timeout, est0, algo0, trials')
            && algo.(meanTrialTime := Some(Mean(trials'))) == AlgoAt(algo0, trials', |trials'|)
  {
    var i := |trials|;
    var trials' := trials + [Objective(algo, est0, i, st)];
    assert trials'[..i] == trials;
    assert trials'[..i + 1] == trials';
    forall j | 0 <= j < |trials'|
      ensures TrialOk(st, nTrials, timeout, est0, algo0, trials', j)
    {
      if j < i {
        assert TrialOk(st, nTrials, timeout, est0, algo0, trials, j);
        assert trials'[..j] == trials[..j];
        assert trials'[j] == trials[j];
        AlgoAtSamePrefix(algo0, trials', trials, j);
      } else {
        assert trials[..i] == trials;
        AlgoAtSamePrefix(algo0, trials', trials, i);
        assert trials'[i] == Objective(algo, est0, i, st);
      }
    }
  }

  lemma {:induction false} OptimizeFrom(st: Optimizer, nTrials: int, timeout: real, est0: int, algo0: Algo,
                                        algo: Algo, estimate: int, trials: seq<Trial>)
    requires TrialsOk(st, nTrials, timeout, est0, algo0, trials)
    requires algo == AlgoAt(algo0, trials, |trials|)
    requires estimate == EstimateAfter(nTrials, timeout, est0, trials)
    ensures var run := Optimize(st, nTrials, timeout, est0, algo, estimate, trials);
            && trials <= run.trials
            && TrialsOk(st, nTrials, timeout, est0, algo0, run.trials)
            && run.algo == AlgoAt(algo0, run.trials, |run.trials|)
            && run.estimate == EstimateAfter(nTrials, timeout, est0, run.trials)
            && (run.failed ==>
                  |run.trials| < nTrials && TotalDuration(run.trials) < timeout && st.failsAt == Some(|run.trials|))
            && (!run.failed ==> |run.trials| >= nTrials || TotalDuration(run.trials) >= timeout)
    decreases nTrials - |trials|
  {
    var i := |trials|;
    if i >= nTrials || TotalDuration(trials) >= timeout || st.failsAt == Some(i) {
      return;
    }
    var trials' := trials + [Objective(algo, est0, i, st)];
    TrialStep(st, nTrials, timeout, est0, algo0, algo, trials);
    var mean := Mean(trials');
    OptimizeFrom(st, nTrials, timeout, est0, algo0, algo.(meanTrialTime := Some(mean)),
                 Estimate(nTrials, timeout, mean), trials');
  }

  /**
    A study run by `fit`:
    - at most `n_trials` trials, each started while less than the timeout had elapsed;
    - every trial's values were sampled, and its copy configured, with the
      estimate read once before optimisation, whatever the callbacks estimated
      later; the study records the sampled values;
    - every trial fitted a copy of the tuner's algo that differs from it only in
      its parameters, and carried the mean duration of the trials before it;
    - the tuner's own algo keeps its parameters: trials change only its mean trial time;
    - after the last callback the estimate is `min(n_trials, timeout // mean)`, at most `n_trials`;
    - the study stops on `n_trials`, on the timeout, or on an `OptunaError`.
  */
  lemma OptimizeFacts(st: Optimizer, nTrials: int, timeout: real, est0: int, algo0: Algo)
    ensures var run := Optimize(st, nTrials, timeout, est0, algo0, est0, []);
            && |run.trials| <= (if nTrials < 0 then 0 else nTrials)
            && (forall i :: 0 <= i < |run.trials| ==>
                  && TotalDuration(run.trials[..i]) < timeout
                  && run.trials[i].params == st.suggest(i, est0)
                  && run.trials[i].algo.params == st.configure(st.suggest(i, est0), est0)
                  && run.trials[i].algo.(params := algo0.params, meanTrialTime := algo0.meanTrialTime) == algo0
                  && run.trials[i].algo.meanTrialTime == (if i == 0 then algo0.meanTrialTime else Some(Mean(run.trials[..i])))
                  && run.trials[i].value == st.objective(run.trials[i].algo)
                  && run.trials[i].duration == st.duration(i))
            && run.algo.params == algo0.params && run.algo.isFitted == algo0.isFitted
            && (|run.trials| > 0 ==>
                  && run.algo.meanTrialTime == Some(Mean(run.trials))
                  && run.estimate == Estimate(nTrials, timeout, Mean(run.trials))
                  && run.estimate <= nTrials)
            && (|run.trials| == 0 ==> run.algo == algo0 && run.estimate == est0)
            && (run.failed <==> |run.trials| < nTrials && TotalDuration(run.trials) < timeout
                                && st.failsAt == Some(|run.trials|))
  {
    OptimizeFrom(st, nTrials, timeout, est0, algo0, algo0, est0, []);
    var run := Optimize(st, nTrials, timeout, est0, algo0, est0, []);
    var ts := run.trials;
    forall i | 0 <= i < |ts|
      ensures && TotalDuration(ts[..i]) < timeout
              && ts[i].params == st.suggest(i, est0)
              && ts[i].algo.params == st.configure(st.suggest(i, est0), est0)
              && ts[i].algo.(params := algo0.params, meanTrialTime := algo0.meanTrialTime) == algo0
              && ts[i].algo.meanTrialTime == (if i == 0 then algo0.meanTrialTime else Some(Mean(ts[..i])))
              && ts[i].value == st.objective(ts[i].algo)
              && ts[i].duration == st.duration(i)
    {
      assert TrialOk(st, nTrials, timeout, est0, algo0, ts, i);
    }
    if |ts| > 0 {
      assert ts[..|ts|] == ts;
      assert TrialOk(st, nTrials, timeout, est0, algo0, ts, |ts| - 1);
    }
  }

  /**
    `fit` refuses a fitted algo and then changes nothing; otherwise it clamps
    the timeout to `min(timeout, max(estimate, 1))`, so the timeout never
    grows; an unknown direction raises before the study runs. The budget
    settings themselves are never changed.
  */
  lemma FitClampRule(s: TunerState, algo: Algo, iterIsHoldout: bool, est: real, st: Optimizer)
    ensures var (s', r) := FitSpec(s, algo, iterIsHoldout, est, st);
            && (r == Err(AlgoAlreadyFitted) <==> algo.isFitted)
            && (algo.isFitted ==> s' == s)
            && (!algo.isFitted ==> s'.timeout == Min(s.timeout, MaxR(est, 1.0)) && s'.timeout <= s.timeout)
            && s'.nTrials == s.nTrials && s'.direction == s.direction && s'.fitOnHoldout == s.fitOnHoldout
            && s'.randomState == s.randomState
            && (r == Err(InvalidDirection) <==> !algo.isFitted && s.direction.UnknownDirection?)
  {
  }

  /**
    The outcome rule of `fit` once the study has run:
    - `(None, None)` is returned exactly when an `OptunaError` stopped the
      study, or when trials completed but the iterator had to be converted to
      a holdout one;
    - a study without a completed trial raises;
    - otherwise the algo returned carries the parameters of a trial that no
      trial beats, these are stored as the tuner's best parameters, and the
      predictions are those of the refit. These parameters are the values the
      study recorded for that trial, not the dictionary its copy was given.
  */
  lemma FitOutcomeRule(s: TunerState, algo: Algo, iterIsHoldout: bool, est: real, st: Optimizer)
    requires !algo.isFitted && !s.direction.UnknownDirection?
    ensures var (s', r) := FitSpec(s, algo, iterIsHoldout, est, st);
            var run := Optimize(st, s.nTrials, Min(s.timeout, MaxR(est, 1.0)), s.estimatedNTrials,
                                algo, s.estimatedNTrials, []);
            && s'.study == Some(run.trials)
            && s'.estimatedNTrials == run.estimate
            && (r == Ok(Outcome(None, None)) <==>
                  run.failed || (|run.trials| > 0 && s.fitOnHoldout && !iterIsHoldout))
            && (r == Err(NoCompletedTrial) <==> !run.failed && |run.trials| == 0)
            && (r.Ok? ==> (r.value.algo.Some? <==> r.value.preds.Some?))
            && (r.Ok? && r.value.algo.Some? ==>
                  && r.value.preds == Some(st.fitPredict(r.value.algo.value))
                  && s'.bestParams == Some(r.value.algo.value.params)
                  && exists b :: 0 <= b < |run.trials| && run.trials[b].params == r.value.algo.value.params
                       && run.trials[b].params == st.suggest(b, s.estimatedNTrials)
                       && forall j :: 0 <= j < |run.trials| ==>
                            !StrictlyBetter(s.direction, run.trials[j].value, run.trials[b].value))
  {
    var t := Min(s.timeout, MaxR(est, 1.0));
    var run := Optimize(st, s.nTrials, t, s.estimatedNTrials, algo, s.estimatedNTrials, []);
    var out := FitSpec(s, algo, iterIsHoldout, est, st);
    var s2 := s.(timeout := t, estimatedNTrials := run.estimate, study := Some(run.trials));
    if run.failed {
      assert out == (s2, Ok(Outcome(None, None)));
    } else if |run.trials| == 0 {
      assert out == (s2, Err(NoCompletedTrial));
    } else {
      var b := BestIndex(run.trials, s.direction);
      var best := run.trials[b].params;
      var tuned := run.algo.(params := best, isFitted := true);
      if s.fitOnHoldout && !iterIsHoldout {
        assert out == (s2.(bestParams := Some(best)), Ok(Outcome(None, None)));
      } else {
        assert out == (s2.(bestParams := Some(best)), Ok(Outcome(Some(tuned), Some(st.fitPredict(tuned)))));
        assert run.trials[b].params == tuned.params;
        OptimizeFacts(st, s.nTrials, t, s.estimatedNTrials, algo);
      }
    }
  }

  /** `fit` keeps the trial estimate within `n_trials` once the constructor has established it. */
  lemma FitKeepsEstimateBound(s: TunerState, algo: Algo, iterIsHoldout: bool, est: real, st: Optimizer)
    requires s.estimatedNTrials <= s.nTrials
    ensures FitSpec(s, algo, iterIsHoldout, est, st).0.estimatedNTrials <= FitSpec(s, algo, iterIsHoldout, est, st).0.nTrials
  {
    if !algo.isFitted && !s.direction.UnknownDirection? {
      var t := Min(s.timeout, MaxR(est, 1.0));
      OptimizeFacts(st, s.nTrials, t, s.estimatedNTrials, algo);
    }
  }

  /**
    The returned algo is the input algo with the values the study recorded for
    its best trial, fitted, and with the mean duration of all trials.
  */
  lemma FitReturnsTunedCopy(s: TunerState, algo: Algo, iterIsHoldout: bool, est: real, st: Optimizer)
    ensures var r := FitSpec(s, algo, iterIsHoldout, est, st).1;
            r.Ok? && r.value.algo.Some? ==>
              var run := Optimize(st, s.nTrials, Min(s.timeout, MaxR(est, 1.0)), s.estimatedNTrials,
                                  algo, s.estimatedNTrials, []);
              && |run.trials| > 0
              && !s.direction.UnknownDirection?
              && r.value.algo.value.params == run.trials[BestIndex(run.trials, s.direction)].params
              && r.value.algo.value == algo.(params := r.value.algo.value.params, isFitted := true,
                                             meanTrialTime := Some(Mean(run.trials)))
  {
    var r := FitSpec(s, algo, iterIsHoldout, est, st).1;
    if r.Ok? && r.value.algo.Some? {
      var t := Min(s.timeout, MaxR(est, 1.0));
      OptimizeFacts(st, s.nTrials, t, s.estimatedNTrials, algo);
    }
  }

  /**
    A tuner built with the constructor's defaults (timeout 1000 s, 100 trials,
    maximisation, fit on holdout, seed 42) runs, for an unfitted algo, a study
    of at most 100 trials under a timeout of at most 1000 s, and leaves an
    estimate of at most 100 trials.
  */
  lemma DefaultBudget(algo: Algo, iterIsHoldout: bool, est: real, st: Optimizer)
    requires !algo.isFitted
    ensures var s := TunerState(DefaultTimeout, DefaultNTrials, DefaultNTrials, Maximize, true,
                                DefaultRandomState, None, None);
            var s' := FitSpec(s, algo, iterIsHoldout, est, st).0;
            && s'.timeout <= 1000.0
            && s'.study.Some? && |s'.study.value| <= 100
            && s'.estimatedNTrials <= 100
  {
    var t := Min(DefaultTimeout, MaxR(est, 1.0));
    OptimizeFacts(st, DefaultNTrials, t, DefaultNTrials, algo);
  }
}
