/**
  Properties of the regularization-path search `LinearL1CD.FitPredict`, stated
  over the cells it fits, in order.
*/
module LinearL1CDProps {
  import opened Results
  import opened LinearL1CD

  function Max(a: int, b: int): int
  {
    if a >= b then a else b
  }

  // ---------------------------------------------------------------------------
  // What a well-formed sequence of cells looks like
  // ---------------------------------------------------------------------------

  /** `score` is at least every score of the cells `lo..k` that were scored. */
  ghost predicate BeatsBlock(cells: seq<Cell>, lo: int, k: int, score: real)
    requires 0 <= lo <= k <= |cells|
  {
    forall j :: lo <= j < k && cells[j].score.Some? ==> score >= cells[j].score.value
  }

  /** `score` is what the metric gives the prediction of `m`. */
  ghost predicate ScoredAs(task: Task, o: Oracles, m: Estimator, score: real)
  {
    PredictWModelType(task, o, m).Ok? && score == o.metric(PredictWModelType(task, o, m).value)
  }

  /** After a scored cell whose patience has not run out, the timer is queried once. */
  predicate Queried(cf: Config, c: Cell)
  {
    c.score.Some? && c.es < cf.early
  }

  /** The number of timer queries made once the inner loop is done with cell `c`. */
  function QueriesAfter(cf: Config, c: Cell): nat
  {
    if Queried(cf, c) then c.queries + 1 else c.queries
  }

  /**
    The inner loop goes on past cell `c`, if a `c` is left: the cell was
    skipped, or it was scored with patience left, the timer answered no to
    the query after it, and some coefficient is zero.
  */
  predicate GoesOn(cf: Config, o: Oracles, c: Cell)
  {
    c.score.None? || (c.es < cf.early && !o.timeUp(c.queries) && !AllNonzero(CoefOf(c.output)))
  }

  /** The walk of a ratio ends with cell `c`: it is at the last `c`, or the inner loop breaks after it. */
  predicate EndsWalk(cf: Config, o: Oracles, c: Cell)
  {
    c.n + 1 >= |cf.cs| || !GoesOn(cf, o, c)
  }

  /**
    Cell `k` is linked to the one before it: the first cell of the search is
    the first `c` of the first ratio, before any timer query; a later `c` of
    the same ratio follows a cell after which the inner loop went on; the
    first `c` of the next ratio follows a cell that ended its walk and a
    timer query after the walk that answered no.
  */
  ghost predicate CellLinked(cf: Config, o: Oracles, cells: seq<Cell>, k: int)
    requires 0 <= k < |cells|
  {
    var c := cells[k];
    && c.n < |cf.cs|
    && c.n <= k
    && (k == 0 ==> c.round == 0 && c.queries == 0)
    && (c.n > 0 ==>
          var prev := cells[k - 1];
          && prev.round == c.round
          && prev.ratio == c.ratio
          && prev.n + 1 == c.n
          && GoesOn(cf, o, prev)
          && c.queries == QueriesAfter(cf, prev))
    && (c.n == 0 && k > 0 ==>
          var prev := cells[k - 1];
          && prev.round + 1 == c.round
          && EndsWalk(cf, o, prev)
          && !o.timeUp(QueriesAfter(cf, prev))
          && c.queries == QueriesAfter(cf, prev) + 1)
  }

  /**
    Cell `k` was fitted from the right estimator (a copy of the base at the
    start of a ratio, the previous fit of the same ratio otherwise, with the
    strength of its `c`), passed scikit-learn's check, and was skipped,
    warned about or scored as its coefficients say.
  */
  ghost predicate CellFitted(cf: Config, o: Oracles, cells: seq<Cell>, k: int)
    requires 0 <= k < |cells|
    requires cells[k].n < |cf.cs| && cells[k].n <= k
  {
    var c := cells[k];
    && c.input == SetStrength(if c.n == 0 then cf.base else cells[k - 1].output, cf.cs[c.n])
    && !FitRefused(c.input)
    && c.output == Fit(o, c.input)
    && (c.score.None? <==> Degenerate(c.output) && c.n + 1 < |cf.cs|)
    && (c.warned <==> Degenerate(c.output) && c.n + 1 == |cf.cs|)
    && (c.score.Some? ==> ScoredAs(cf.task, o, c.output, c.score.value))
  }

  /**
    The patience counter after cell `k`: unchanged by a skipped cell, reset
    by a score at least every earlier score of the ratio, incremented
    otherwise; it never exceeds `max(early_stopping, 0)`.
  */
  ghost predicate CellPatience(cf: Config, cells: seq<Cell>, k: int)
    requires 0 <= k < |cells|
    requires cells[k].n <= k
  {
    var c := cells[k];
    && c.es == (var prevEs := if c.n == 0 then 0 else cells[k - 1].es;
                if c.score.None? then prevEs
                else if BeatsBlock(cells, k - c.n, k, c.score.value) then 0
                else prevEs + 1)
    && 0 <= c.es <= Max(cf.early, 0)
  }

  /** Cell `k` follows from the cells before it. */
  ghost predicate CellOk(cf: Config, o: Oracles, cells: seq<Cell>, k: int)
    requires 0 <= k < |cells|
  {
    && CellLinked(cf, o, cells, k)
    && CellFitted(cf, o, cells, k)
    && CellPatience(cf, cells, k)
  }

  ghost predicate TraceOk(cf: Config, o: Oracles, cells: seq<Cell>)
  {
    forall k :: 0 <= k < |cells| ==> CellOk(cf, o, cells, k)
  }

  ghost predicate NoneScored(cells: seq<Cell>, lo: int)
    requires 0 <= lo <= |cells|
  {
    forall j :: lo <= j < |cells| ==> cells[j].score.None?
  }

  /**
    Among the cells from `lo` on, `b` is cell `kb`: scored with `b.score`, at
    least as good as every scored cell, strictly better than every later one.
  */
  ghost predicate BestAt(cf: Config, o: Oracles, cells: seq<Cell>, lo: int, kb: int, b: Best)
    requires 0 <= lo <= |cells|
  {
    && lo <= kb < |cells|
    && cells[kb].score == Some(b.score)
    && cells[kb].output == b.model
    && PredictWModelType(cf.task, o, b.model) == Ok(b.pred)
    && BeatsBlock(cells, lo, |cells|, b.score)
    && (forall j :: kb < j < |cells| && cells[j].score.Some? ==> cells[j].score.value < b.score)
  }

  ghost predicate RatiosOrdered(cells: seq<Cell>)
  {
    forall j, k :: 0 <= j < k < |cells| ==> cells[j].ratio >= cells[k].ratio
  }

  // ---------------------------------------------------------------------------
  // The inner loop
  // ---------------------------------------------------------------------------

  /** The walk of the ratio at position `round` may start after `prefix`, with `checks` timer queries made. */
  ghost predicate WalkStart(cf: Config, o: Oracles, round: nat, prefix: seq<Cell>, checks: nat)
  {
    if |prefix| == 0 then (round == 0 && checks == 0) || |cf.cs| == 0
    else
      var last := prefix[|prefix| - 1];
      && last.round + 1 == round
      && EndsWalk(cf, o, last)
      && !o.timeUp(QueriesAfter(cf, last))
      && checks == QueriesAfter(cf, last) + 1
  }

  /** The state of `Walk` before index `n`, the cells of this ratio following `prefix`. */
  ghost predicate WalkInv(cf: Config, o: Oracles, round: nat, ratio: real, n: nat, w: WalkState, prefix: seq<Cell>, kb: int)
  {
    var lo := |prefix|;
    && n <= |cf.cs|
    && lo + n == |w.cells|
    && w.cells[..lo] == prefix
    && TraceOk(cf, o, w.cells)
    && (forall k :: lo <= k < |w.cells| ==>
          w.cells[k].round == round && w.cells[k].ratio == ratio && w.cells[k].n == k - lo)
    && (n == 0 ==> w.model == cf.base && w.es == 0 && WalkStart(cf, o, round, prefix, w.checks))
    && (n > 0 ==>
          var last := w.cells[|w.cells| - 1];
          && w.model == last.output
          && w.es == last.es
          && GoesOn(cf, o, last)
          && w.checks == QueriesAfter(cf, last))
    && (w.best.None? ==> NoneScored(w.cells, lo) && w.es == 0)
    && (w.best.Some? ==> BestAt(cf, o, w.cells, lo, kb, w.best.value) && w.es < cf.early)
  }

  /** The state `Walk` ends in, the cells of this ratio following `prefix`. */
  ghost predicate WalkDone(cf: Config, o: Oracles, round: nat, ratio: real, w: WalkState, prefix: seq<Cell>, kb: int)
  {
    var lo := |prefix|;
    && lo <= |w.cells| <= lo + |cf.cs|
    && w.cells[..lo] == prefix
    && TraceOk(cf, o, w.cells)
    && (forall k :: lo <= k < |w.cells| ==>
          w.cells[k].round == round && w.cells[k].ratio == ratio && w.cells[k].n == k - lo)
    && (|w.cells| == lo ==> |cf.cs| == 0)
    && (|w.cells| > lo ==>
          && EndsWalk(cf, o, w.cells[|w.cells| - 1])
          && w.checks == QueriesAfter(cf, w.cells[|w.cells| - 1]))
    && (w.best.None? ==> NoneScored(w.cells, lo))
    && (w.best.Some? ==> BestAt(cf, o, w.cells, lo, kb, w.best.value))
  }

  /** Appending a cell that follows from the ones before keeps the whole sequence well formed. */
  lemma AppendOk(cf: Config, o: Oracles, cells: seq<Cell>, c: Cell)
    requires TraceOk(cf, o, cells)
    requires CellOk(cf, o, cells + [c], |cells|)
    ensures TraceOk(cf, o, cells + [c])
  {
    var cells' := cells + [c];
    forall k | 0 <= k < |cells'|
      ensures CellOk(cf, o, cells', k)
    {
      if k < |cells| {
        assert CellOk(cf, o, cells, k);
        assert cells'[k] == cells[k];
        assert k > 0 ==> cells'[k - 1] == cells[k - 1];
        var lo := k - cells[k].n;
        assert forall j :: lo <= j < k ==> cells'[j] == cells[j];
      }
    }
  }

  /** With `b` the best of `cells[lo..]`, `Improves` is the same as beating every scored cell there. */
  lemma ImprovesIsBeatsBlock(cf: Config, o: Oracles, cells: seq<Cell>, lo: int, best: Option<Best>, kb: int, score: real)
    requires 0 <= lo <= |cells|
    requires best.None? ==> NoneScored(cells, lo)
    requires best.Some? ==> BestAt(cf, o, cells, lo, kb, best.value)
    ensures Improves(score, best) <==> BeatsBlock(cells, lo, |cells|, score)
  {
    if best.Some? && BeatsBlock(cells, lo, |cells|, score) {
      assert cells[kb].score.Some?;
    }
  }

  /** The next cell of a walk is linked to the cells before it, and is fitted from the walk's current model. */
  lemma NextLinked(cf: Config, o: Oracles, round: nat, ratio: real, n: nat, w: WalkState, prefix: seq<Cell>, kb: int,
                   c: Cell)
    requires WalkInv(cf, o, round, ratio, n, w, prefix, kb)
    requires n < |cf.cs|
    requires c.round == round && c.ratio == ratio && c.n == n && c.queries == w.checks
    ensures CellLinked(cf, o, w.cells + [c], |w.cells|)
    ensures n > 0 ==> (w.cells + [c])[|w.cells| - 1] == w.cells[|w.cells| - 1]
  {
    var k := |w.cells|;
    var cells' := w.cells + [c];
    if n > 0 {
      assert cells'[k - 1] == w.cells[k - 1];
      assert w.cells[k - 1].n == n - 1;
    } else if k > 0 {
      assert cells'[k - 1] == prefix[|prefix| - 1];
    }
  }

  /** A degenerate fit at a non-final `c` is appended unscored, with no timer query, and the walk goes on. */
  lemma SkipStep(cf: Config, o: Oracles, round: nat, ratio: real, n: nat, w: WalkState, prefix: seq<Cell>, kb: int)
    requires WalkInv(cf, o, round, ratio, n, w, prefix, kb)
    requires n < |cf.cs|
    requires !FitRefused(SetStrength(w.model, cf.cs[n]))
    requires Degenerate(Fit(o, SetStrength(w.model, cf.cs[n]))) && n != |cf.cs| - 1
    ensures var input := SetStrength(w.model, cf.cs[n]);
            var m := Fit(o, input);
            WalkInv(cf, o, round, ratio, n + 1,
                    w.(model := m, cells := w.cells + [Cell(ratio, round, n, w.checks, input, m, None, false, w.es)]),
                    prefix, kb)
  {
    var lo := |prefix|;
    var input := SetStrength(w.model, cf.cs[n]);
    var m := Fit(o, input);
    var k := |w.cells|;
    var c := Cell(ratio, round, n, w.checks, input, m, None, false, w.es);
    var cells' := w.cells + [c];
    NextLinked(cf, o, round, ratio, n, w, prefix, kb, c);
    assert cells'[..lo] == prefix by { assert cells'[..lo] == w.cells[..lo]; }
    if n > 0 {
      assert CellOk(cf, o, w.cells, k - 1);
    }
    assert CellOk(cf, o, cells', k);
    AppendOk(cf, o, w.cells, c);
    assert forall j :: lo <= j < k ==> cells'[j] == w.cells[j];
  }

  /** The state after a scored cell, before the timer query. */
  ghost function ScoredState(cf: Config, o: Oracles, round: nat, ratio: real, n: nat, w: WalkState): WalkState
    requires n < |cf.cs|
    requires PredictWModelType(cf.task, o, Fit(o, SetStrength(w.model, cf.cs[n]))).Ok?
  {
    var input := SetStrength(w.model, cf.cs[n]);
    var m := Fit(o, input);
    var pred := PredictWModelType(cf.task, o, m).value;
    var score := o.metric(pred);
    var improved := Improves(score, w.best);
    var es := if improved then 0 else w.es + 1;
    var best := if improved then Some(Best(score, pred, m)) else w.best;
    WalkState(m, best, es, w.cells + [Cell(ratio, round, n, w.checks, input, m, Some(score), Degenerate(m), es)], w.checks)
  }

  /** After a scored cell the ratio's best is updated with `>=`. */
  lemma ScoredBest(cf: Config, o: Oracles, round: nat, ratio: real, n: nat, w: WalkState, prefix: seq<Cell>, kb: int)
    returns (kb': int)
    requires WalkInv(cf, o, round, ratio, n, w, prefix, kb)
    requires n < |cf.cs|
    requires PredictWModelType(cf.task, o, Fit(o, SetStrength(w.model, cf.cs[n]))).Ok?
    ensures var w' := ScoredState(cf, o, round, ratio, n, w);
            && w'.best.Some?
            && BestAt(cf, o, w'.cells, |prefix|, kb', w'.best.value)
  {
    var lo := |prefix|;
    var m := Fit(o, SetStrength(w.model, cf.cs[n]));
    var k := |w.cells|;
    var score := o.metric(PredictWModelType(cf.task, o, m).value);
    ImprovesIsBeatsBlock(cf, o, w.cells, lo, w.best, kb, score);
    var w' := ScoredState(cf, o, round, ratio, n, w);
    assert forall j :: lo <= j < k ==> w'.cells[j] == w.cells[j];
    kb' := if Improves(score, w.best) then k else kb;
  }

  /** The cells after a scored cell are well formed. */
  lemma ScoredCellOk(cf: Config, o: Oracles, round: nat, ratio: real, n: nat, w: WalkState, prefix: seq<Cell>, kb: int)
    requires WalkInv(cf, o, round, ratio, n, w, prefix, kb)
    requires n < |cf.cs|
    requires !FitRefused(SetStrength(w.model, cf.cs[n]))
    requires !(Degenerate(Fit(o, SetStrength(w.model, cf.cs[n]))) && n != |cf.cs| - 1)
    requires PredictWModelType(cf.task, o, Fit(o, SetStrength(w.model, cf.cs[n]))).Ok?
    ensures TraceOk(cf, o, ScoredState(cf, o, round, ratio, n, w).cells)
  {
    var lo := |prefix|;
    var m := Fit(o, SetStrength(w.model, cf.cs[n]));
    var k := |w.cells|;
    var score := o.metric(PredictWModelType(cf.task, o, m).value);
    ImprovesIsBeatsBlock(cf, o, w.cells, lo, w.best, kb, score);
    var w' := ScoredState(cf, o, round, ratio, n, w);
    var c := w'.cells[k];
    assert w'.cells == w.cells + [c];
    NextLinked(cf, o, round, ratio, n, w, prefix, kb, c);
    if n > 0 {
      assert CellOk(cf, o, w.cells, k - 1);
    }
    assert CellFitted(cf, o, w'.cells, k);
    assert forall j :: lo <= j < k ==> w'.cells[j] == w.cells[j];
    assert BeatsBlock(w'.cells, k - n, k, score) == BeatsBlock(w.cells, lo, |w.cells|, score);
    assert CellPatience(cf, w'.cells, k);
    AppendOk(cf, o, w.cells, c);
  }

  /**
    A scored cell is appended with its patience counter; the walk stops on
    patience without a timer query, stops after a query that answers yes or
    once every coefficient is nonzero, and goes on otherwise.
  */
  lemma ScoreStep(cf: Config, o: Oracles, round: nat, ratio: real, n: nat, w: WalkState, prefix: seq<Cell>, kb: int)
    returns (kb': int)
    requires WalkInv(cf, o, round, ratio, n, w, prefix, kb)
    requires n < |cf.cs|
    requires !FitRefused(SetStrength(w.model, cf.cs[n]))
    requires !(Degenerate(Fit(o, SetStrength(w.model, cf.cs[n]))) && n != |cf.cs| - 1)
    requires PredictWModelType(cf.task, o, Fit(o, SetStrength(w.model, cf.cs[n]))).Ok?
    ensures var w' := ScoredState(cf, o, round, ratio, n, w);
            && (w'.es >= cf.early ==> WalkDone(cf, o, round, ratio, w', prefix, kb'))
            && (w'.es < cf.early && (o.timeUp(w.checks) || AllNonzero(CoefOf(w'.model))) ==>
                  WalkDone(cf, o, round, ratio, w'.(checks := w.checks + 1), prefix, kb'))
            && (w'.es < cf.early && !o.timeUp(w.checks) && !AllNonzero(CoefOf(w'.model)) ==>
                  WalkInv(cf, o, round, ratio, n + 1, w'.(checks := w.checks + 1), prefix, kb'))
  {
    var lo := |prefix|;
    kb' := ScoredBest(cf, o, round, ratio, n, w, prefix, kb);
    ScoredCellOk(cf, o, round, ratio, n, w, prefix, kb);
    var w' := ScoredState(cf, o, round, ratio, n, w);
    var k := |w.cells|;
    assert w'.cells[..lo] == prefix by { assert w'.cells[..lo] == w.cells[..lo]; }
    assert forall j :: lo <= j < k ==> w'.cells[j] == w.cells[j];
    assert CellOk(cf, o, w'.cells, k);
    assert w'.cells[k].queries == w.checks;
  }

  lemma {:induction false} WalkOk(cf: Config, o: Oracles, round: nat, ratio: real, n: nat, w: WalkState,
                                  prefix: seq<Cell>, kb: int)
    returns (kb': int)
    requires WalkInv(cf, o, round, ratio, n, w, prefix, kb)
    ensures Walk(cf, o, round, ratio, n, w).Ok? ==>
              WalkDone(cf, o, round, ratio, Walk(cf, o, round, ratio, n, w).value, prefix, kb')
    decreases |cf.cs| - n
  {
    if n >= |cf.cs| {
      if n > 0 {
        assert w.cells[|w.cells| - 1].n == n - 1;
      }
      return kb;
    }
    var input := SetStrength(w.model, cf.cs[n]);
    if FitRefused(input) {
      return kb;
    }
    var m := Fit(o, input);
    if Degenerate(m) && n != |cf.cs| - 1 {
      SkipStep(cf, o, round, ratio, n, w, prefix, kb);
      kb' := WalkOk(cf, o, round, ratio, n + 1,
                    w.(model := m, cells := w.cells + [Cell(ratio, round, n, w.checks, input, m, None, false, w.es)]),
                    prefix, kb);
      return;
    }
    if PredictWModelType(cf.task, o, m).Err? {
      return kb;
    }
    kb' := ScoreStep(cf, o, round, ratio, n, w, prefix, kb);
    var w' := ScoredState(cf, o, round, ratio, n, w);
    if w'.es >= cf.early || o.timeUp(w.checks) || AllNonzero(CoefOf(m)) {
      return;
    }
    kb' := WalkOk(cf, o, round, ratio, n + 1, w'.(checks := w.checks + 1), prefix, kb');
  }

  // ---------------------------------------------------------------------------
  // The outer loop
  // ---------------------------------------------------------------------------

  lemma MulStep(i: nat, ratios: nat, cs: nat)
    requires i + 1 <= ratios
    ensures i * cs + cs == (i + 1) * cs <= ratios * cs
  {
  }

  /** `best` is the best of all the scored cells, and is cell `kb`; `None` when no cell was scored. */
  ghost predicate BestOf(cf: Config, o: Oracles, cells: seq<Cell>, best: Option<Best>, kb: int)
  {
    && (best.None? ==> NoneScored(cells, 0))
    && (best.Some? ==> BestAt(cf, o, cells, 0, kb, best.value))
  }

  /**
    The cells after the walks of `ratios[..i]`: the cells of walk `j` carry
    `ratios[j]`, and the last cell ended its walk, after which one more timer
    query was made.
  */
  ghost predicate SearchCells(cf: Config, o: Oracles, ratios: seq<real>, i: nat, cells: seq<Cell>, checks: nat)
  {
    && i <= |ratios|
    && TraceOk(cf, o, cells)
    && |cells| <= i * |cf.cs|
    && (forall k :: 0 <= k < |cells| ==> cells[k].round < i && cells[k].ratio == ratios[cells[k].round])
    && RatiosOrdered(cells)
    && (i == 0 ==> checks == 0)
    && (|cells| == 0 ==> i == 0 || |cf.cs| == 0)
    && (|cells| > 0 ==>
          var last := cells[|cells| - 1];
          && last.round + 1 == i
          && EndsWalk(cf, o, last)
          && checks == QueriesAfter(cf, last) + 1)
  }

  /** Before the walk of `ratios[i]`: the timer query after the previous walk answered no. */
  ghost predicate SearchInv(cf: Config, o: Oracles, ratios: seq<real>, i: nat, s: SearchState, kb: int)
  {
    && SearchCells(cf, o, ratios, i, s.cells, s.checks)
    && BestOf(cf, o, s.cells, s.best, kb)
    && (|s.cells| > 0 ==> !o.timeUp(QueriesAfter(cf, s.cells[|s.cells| - 1])))
  }

  /** The cells of a finished search: the ratios ran out, or the timer query after the last walk answered yes. */
  ghost predicate DoneCells(cf: Config, o: Oracles, ratios: seq<real>, cells: seq<Cell>)
  {
    && TraceOk(cf, o, cells)
    && |cells| <= |ratios| * |cf.cs|
    && (forall k :: 0 <= k < |cells| ==> cells[k].round < |ratios| && cells[k].ratio == ratios[cells[k].round])
    && RatiosOrdered(cells)
    && (|cells| == 0 ==> |ratios| == 0 || |cf.cs| == 0)
    && (|cells| > 0 ==>
          var last := cells[|cells| - 1];
          && EndsWalk(cf, o, last)
          && (last.round + 1 == |ratios| || o.timeUp(QueriesAfter(cf, last))))
  }

  ghost predicate SearchDone(cf: Config, o: Oracles, ratios: seq<real>, s: SearchState, kb: int)
  {
    DoneCells(cf, o, ratios, s.cells) && BestOf(cf, o, s.cells, s.best, kb)
  }

  /** One ratio's walk, appended to the cells before it, keeps the cells' invariant. */
  lemma RatioCells(cf: Config, o: Oracles, ratios: seq<real>, i: nat, s: SearchState, kb: int, w: WalkState, kw: int)
    requires NonIncreasing(ratios) && i < |ratios|
    requires SearchInv(cf, o, ratios, i, s, kb)
    requires WalkDone(cf, o, i, ratios[i], w, s.cells, kw)
    ensures SearchCells(cf, o, ratios, i + 1, w.cells, w.checks + 1)
  {
    var lo := |s.cells|;
    var cells' := w.cells;
    assert forall j :: 0 <= j < lo ==> cells'[j] == s.cells[j] by {
      assert cells'[..lo] == s.cells;
    }
    MulStep(i, |ratios|, |cf.cs|);
    if |cf.cs| == 0 {
      assert lo <= i * 0 == 0;
    }
    forall j, k | 0 <= j < k < |cells'|
      ensures cells'[j].ratio >= cells'[k].ratio
    {
      if k >= lo && j < lo {
        assert s.cells[j].round < i;
      }
    }
  }

  /** After one ratio's walk, the global best is kept with `>=`. */
  lemma RatioBest(cf: Config, o: Oracles, ratios: seq<real>, i: nat, s: SearchState, kb: int, w: WalkState, kw: int)
    returns (kb': int)
    requires i < |ratios|
    requires SearchInv(cf, o, ratios, i, s, kb)
    requires WalkDone(cf, o, i, ratios[i], w, s.cells, kw)
    ensures BestOf(cf, o, w.cells, if AtLeast(w.best, s.best) then w.best else s.best, kb')
  {
    var lo := |s.cells|;
    var cells' := w.cells;
    assert forall j :: 0 <= j < lo ==> cells'[j] == s.cells[j] by {
      assert cells'[..lo] == s.cells;
    }
    var best := if AtLeast(w.best, s.best) then w.best else s.best;
    kb' := if AtLeast(w.best, s.best) then kw else kb;
    if best.Some? {
      if AtLeast(w.best, s.best) {
        assert BestAt(cf, o, cells', lo, kw, best.value);
        forall j | 0 <= j < lo && cells'[j].score.Some?
          ensures best.value.score >= cells'[j].score.value
        {
          assert s.best.Some?;
        }
      } else {
        assert BestAt(cf, o, s.cells, 0, kb, best.value);
        assert cells'[kb] == s.cells[kb];
        forall j | lo <= j < |cells'| && cells'[j].score.Some?
          ensures best.value.score > cells'[j].score.value
        {
          assert w.best.Some?;
        }
      }
    }
  }

  /** The search ends when the ratios run out ... */
  lemma DoneAtEnd(cf: Config, o: Oracles, ratios: seq<real>, cells: seq<Cell>, checks: nat)
    requires SearchCells(cf, o, ratios, |ratios|, cells, checks)
    ensures DoneCells(cf, o, ratios, cells)
  {
  }

  /** ... or when the timer query after a walk answers yes. */
  lemma DoneOnTimer(cf: Config, o: Oracles, ratios: seq<real>, i: nat, cells: seq<Cell>, checks: nat)
    requires i < |ratios|
    requires SearchCells(cf, o, ratios, i + 1, cells, checks + 1)
    requires o.timeUp(checks)
    ensures DoneCells(cf, o, ratios, cells)
  {
    MulStep(i, |ratios|, |cf.cs|);
  }

  /** The walk of `ratios[i]` starts from the base model, with nothing scored yet. */
  lemma StartWalk(cf: Config, o: Oracles, ratios: seq<real>, i: nat, s: SearchState, kb: int)
    requires i < |ratios|
    requires SearchInv(cf, o, ratios, i, s, kb)
    ensures WalkInv(cf, o, i, ratios[i], 0, WalkState(cf.base, None, 0, s.cells, s.checks), s.cells, -1)
  {
    var w0 := WalkState(cf.base, None, 0, s.cells, s.checks);
    assert w0.cells[..|s.cells|] == s.cells;
  }

  /**
    After the walk of `ratios[i]` the global best is kept with `>=`; then the
    search ends if the timer query answers yes, and the walk of the next
    ratio may start otherwise.
  */
  lemma AfterWalk(cf: Config, o: Oracles, ratios: seq<real>, i: nat, s: SearchState, kb: int, w: WalkState, kw: int)
    returns (kb': int)
    requires NonIncreasing(ratios) && i < |ratios|
    requires SearchInv(cf, o, ratios, i, s, kb)
    requires WalkDone(cf, o, i, ratios[i], w, s.cells, kw)
    ensures var s' := SearchState(if AtLeast(w.best, s.best) then w.best else s.best, w.cells, w.checks + 1);
            && (o.timeUp(w.checks) ==> SearchDone(cf, o, ratios, s', kb'))
            && (!o.timeUp(w.checks) ==> SearchInv(cf, o, ratios, i + 1, s', kb'))
  {
    RatioCells(cf, o, ratios, i, s, kb, w, kw);
    kb' := RatioBest(cf, o, ratios, i, s, kb, w, kw);
    if o.timeUp(w.checks) {
      DoneOnTimer(cf, o, ratios, i, w.cells, w.checks);
    }
  }

  lemma {:induction false} SearchOk(cf: Config, o: Oracles, ratios: seq<real>, i: nat, s: SearchState, kb: int)
    returns (kb': int)
    requires NonIncreasing(ratios)
    requires SearchInv(cf, o, ratios, i, s, kb)
    ensures Search(cf, o, ratios, i, s).Ok? ==> SearchDone(cf, o, ratios, Search(cf, o, ratios, i, s).value, kb')
    decreases |ratios| - i
  {
    if i >= |ratios| {
      DoneAtEnd(cf, o, ratios, s.cells, s.checks);
      return kb;
    }
    var w0 := WalkState(cf.base, None, 0, s.cells, s.checks);
    StartWalk(cf, o, ratios, i, s, kb);
    var kw := WalkOk(cf, o, i, ratios[i], 0, w0, s.cells, -1);
    var walked := Walk(cf, o, i, ratios[i], 0, w0);
    if walked.Err? {
      return kb;
    }
    var w := walked.value;
    kb' := AfterWalk(cf, o, ratios, i, s, kb, w, kw);
    var s' := SearchState(if AtLeast(w.best, s.best) then w.best else s.best, w.cells, w.checks + 1);
    if !o.timeUp(w.checks) {
      kb' := SearchOk(cf, o, ratios, i + 1, s', kb');
    }
  }

  /** The search as a whole, from `fit_predict_single_fold`'s parameters. */
  lemma FitPredictOk(task: Task, p: Params, o: Oracles) returns (kb: int)
    requires FitPredict(task, p, o).Ok?
    ensures InferParams(task, p).Ok?
    ensures var cf := ConfigOf(task, InferParams(task, p).value);
            var f := FitPredict(task, p, o).value;
            var ratios := SortDescending(p.l1Ratios);
            && |ratios| == |p.l1Ratios|
            && TraceOk(cf, o, f.cells)
            && |f.cells| <= |p.l1Ratios| * |p.cs|
            && (forall k :: 0 <= k < |f.cells| ==>
                  f.cells[k].round < |ratios| && f.cells[k].ratio == ratios[f.cells[k].round])
            && (forall k :: 0 <= k < |f.cells| ==> f.cells[k].ratio in p.l1Ratios)
            && RatiosOrdered(f.cells)
            && (|f.cells| == 0 ==> |p.l1Ratios| == 0 || |p.cs| == 0)
            && (|f.cells| > 0 ==>
                  var last := f.cells[|f.cells| - 1];
                  && EndsWalk(cf, o, last)
                  && (last.round + 1 == |p.l1Ratios| || o.timeUp(QueriesAfter(cf, last))))
            && (f.model.None? <==> f.pred.None?)
            && (f.model.None? ==> NoneScored(f.cells, 0))
            && (f.model.Some? ==>
                  && 0 <= kb < |f.cells| && f.cells[kb].score.Some?
                  && BestAt(cf, o, f.cells, 0, kb, Best(f.cells[kb].score.value, f.pred.value, f.model.value)))
  {
    var setup := InferParams(task, p).value;
    var cf := ConfigOf(task, setup);
    var ratios := SortDescending(setup.l1Ratios);
    SortDescendingSorted(setup.l1Ratios);
    kb := SearchOk(cf, o, ratios, 0, SearchState(None, [], 0), -1);
    var s := Search(cf, o, ratios, 0, SearchState(None, [], 0)).value;
    forall k | 0 <= k < |s.cells|
      ensures s.cells[k].ratio in p.l1Ratios
    {
      assert s.cells[k].ratio == ratios[s.cells[k].round];
      assert s.cells[k].ratio in multiset(ratios);
    }
  }

  // ---------------------------------------------------------------------------
  // Properties of `fit_predict_single_fold`
  // ---------------------------------------------------------------------------

  /**
    The grid is walked in order: within a ratio the indices into `cs` run
    0, 1, 2, ... (each `c` at most once, none skipped), so at most
    |cs|·|l1_ratios| fits are made.
  */
  lemma FitCountBound(task: Task, p: Params, o: Oracles)
    requires FitPredict(task, p, o).Ok?
    ensures var cells := FitPredict(task, p, o).value.cells;
            && |cells| <= |p.l1Ratios| * |p.cs|
            && (forall k :: 0 <= k < |cells| ==> cells[k].n < |p.cs|)
            && (forall k :: 0 <= k < |cells| && cells[k].n > 0 ==>
                  k > 0 && cells[k - 1].n + 1 == cells[k].n && cells[k - 1].ratio == cells[k].ratio)
  {
    var kb := FitPredictOk(task, p, o);
    var cf := ConfigOf(task, InferParams(task, p).value);
    var cells := FitPredict(task, p, o).value.cells;
    forall k | 0 <= k < |cells|
      ensures cells[k].n < |p.cs|
    {
      assert CellOk(cf, o, cells, k);
    }
    forall k | 0 <= k < |cells| && cells[k].n > 0
      ensures k > 0 && cells[k - 1].n + 1 == cells[k].n && cells[k - 1].ratio == cells[k].ratio
    {
      assert CellOk(cf, o, cells, k);
    }
  }

  /** The ratios are visited in non-increasing order, and only ratios of the grid are visited. */
  lemma RatiosVisitedDescending(task: Task, p: Params, o: Oracles)
    requires FitPredict(task, p, o).Ok?
    ensures var cells := FitPredict(task, p, o).value.cells;
            && (forall j, k :: 0 <= j < k < |cells| ==> cells[j].ratio >= cells[k].ratio)
            && (forall k :: 0 <= k < |cells| ==> cells[k].ratio in p.l1Ratios)
  {
    var kb := FitPredictOk(task, p, o);
  }

  /**
    Warm starts stay within a ratio: the first `c` of every ratio is fitted
    from a fresh copy of the unfitted template, every later one from the
    previous fit of the same ratio with only the strength changed.
  */
  lemma WarmStartWithinRatio(task: Task, p: Params, o: Oracles)
    requires FitPredict(task, p, o).Ok?
    ensures var base := InferParams(task, p).value.model;
            var cells := FitPredict(task, p, o).value.cells;
            && base.coef.None?
            && forall k :: 0 <= k < |cells| ==>
                 && cells[k].n < |p.cs|
                 && cells[k].output == Fit(o, cells[k].input)
                 && (cells[k].n == 0 ==> cells[k].input == SetStrength(base, p.cs[0]))
                 && (cells[k].n > 0 ==>
                       k > 0 && cells[k].input == SetStrength(cells[k - 1].output, p.cs[cells[k].n]))
  {
    var kb := FitPredictOk(task, p, o);
    var base := InferParams(task, p).value.model;
    var cf := ConfigOf(task, InferParams(task, p).value);
    var cells := FitPredict(task, p, o).value.cells;
    forall k | 0 <= k < |cells|
      ensures cells[k].n < |p.cs| && cells[k].output == Fit(o, cells[k].input)
    {
      assert CellOk(cf, o, cells, k);
    }
    forall k | 0 <= k < |cells| && cells[k].n == 0
      ensures cells[k].input == SetStrength(base, p.cs[0])
    {
      assert CellOk(cf, o, cells, k);
    }
    forall k | 0 <= k < |cells| && cells[k].n > 0
      ensures k > 0 && cells[k].input == SetStrength(cells[k - 1].output, p.cs[cells[k].n])
    {
      assert CellOk(cf, o, cells, k);
    }
  }

  /** Every estimator of a well-formed walk is the base with only its strength and coefficients changed. */
  lemma {:induction false} InputFromBase(cf: Config, o: Oracles, cells: seq<Cell>, k: int)
    requires TraceOk(cf, o, cells) && 0 <= k < |cells|
    ensures cells[k].input == cf.base.(strength := cells[k].input.strength, coef := cells[k].input.coef)
    ensures cells[k].output == cf.base.(strength := cells[k].input.strength, coef := cells[k].output.coef)
    decreases k
  {
    assert CellOk(cf, o, cells, k);
    if cells[k].n > 0 {
      InputFromBase(cf, o, cells, k - 1);
    }
  }

  /**
    The ratio is never applied: `l1_ratio` is set on the model that the fresh
    copy then replaces, so every estimator that is fitted or returned is the
    template (with its library-default `l1_ratio`) with only the strength and
    the coefficients changed, whatever ratio the cell belongs to.
  */
  lemma L1RatioNeverApplied(task: Task, p: Params, o: Oracles)
    requires FitPredict(task, p, o).Ok?
    ensures var base := InferParams(task, p).value.model;
            var f := FitPredict(task, p, o).value;
            && (forall k :: 0 <= k < |f.cells| ==>
                  && f.cells[k].input.l1Ratio.None?
                  && f.cells[k].input == base.(strength := f.cells[k].input.strength, coef := f.cells[k].input.coef))
            && (f.model.Some? ==> f.model.value.l1Ratio.None? && f.model.value.family == base.family)
  {
    var kb := FitPredictOk(task, p, o);
    var cf := ConfigOf(task, InferParams(task, p).value);
    var f := FitPredict(task, p, o).value;
    forall k | 0 <= k < |f.cells|
      ensures f.cells[k].input == cf.base.(strength := f.cells[k].input.strength, coef := f.cells[k].input.coef)
    {
      InputFromBase(cf, o, f.cells, k);
    }
    if f.model.Some? {
      InputFromBase(cf, o, f.cells, kb);
    }
  }

  /**
    A degenerate fit (all coefficients within 1e-8 of zero) at a non-final `c`
    is skipped unscored; at the final `c` it is warned about and still scored;
    every other fit is scored by the metric on its prediction.
  */
  lemma DegenerateCellsSkipped(task: Task, p: Params, o: Oracles)
    requires FitPredict(task, p, o).Ok?
    ensures var cells := FitPredict(task, p, o).value.cells;
            forall k :: 0 <= k < |cells| ==>
              && (cells[k].score.None? <==> Degenerate(cells[k].output) && cells[k].n + 1 < |p.cs|)
              && (cells[k].warned <==> Degenerate(cells[k].output) && cells[k].n + 1 == |p.cs|)
              && (cells[k].warned ==> cells[k].score.Some?)
              && (cells[k].score.Some? ==> ScoredAs(task, o, cells[k].output, cells[k].score.value))
  {
    var kb := FitPredictOk(task, p, o);
    var cf := ConfigOf(task, InferParams(task, p).value);
    var cells := FitPredict(task, p, o).value.cells;
    forall k | 0 <= k < |cells|
      ensures cells[k].score.None? <==> Degenerate(cells[k].output) && cells[k].n + 1 < |p.cs|
      ensures cells[k].warned <==> Degenerate(cells[k].output) && cells[k].n + 1 == |p.cs|
      ensures cells[k].score.Some? ==> ScoredAs(task, o, cells[k].output, cells[k].score.value)
    {
      assert CellOk(cf, o, cells, k);
    }
  }

  /**
    The returned model is a scored cell's model, its prediction is that
    model's prediction, its score is at least every scored cell's, and every
    later scored cell is strictly worse: with `>=` at both levels the last
    cell reaching the maximum wins. No model is returned exactly when no
    cell was scored.
  */
  lemma BestIsLastMaximum(task: Task, p: Params, o: Oracles)
    requires FitPredict(task, p, o).Ok?
    ensures var f := FitPredict(task, p, o).value;
            && (f.model.None? <==> f.pred.None?)
            && (f.model.None? <==> forall k :: 0 <= k < |f.cells| ==> f.cells[k].score.None?)
            && (f.model.Some? ==> exists kb ::
                  && 0 <= kb < |f.cells|
                  && f.cells[kb].score.Some?
                  && f.cells[kb].output == f.model.value
                  && PredictWModelType(task, o, f.model.value) == Ok(f.pred.value)
                  && (forall j :: 0 <= j < |f.cells| && f.cells[j].score.Some? ==>
                        f.cells[j].score.value <= f.cells[kb].score.value)
                  && (forall j :: kb < j < |f.cells| && f.cells[j].score.Some? ==>
                        f.cells[j].score.value < f.cells[kb].score.value))
  {
    var kb := FitPredictOk(task, p, o);
    var f := FitPredict(task, p, o).value;
    if f.model.Some? {
      assert f.cells[kb].score.Some?;
    }
  }

  /**
    The patience counter `es` of a scored cell is 0 when its score is at least
    every earlier score of its ratio, and one more than before otherwise; a
    skipped cell leaves it unchanged. The walk goes on after a scored cell
    only while `es < early_stopping`, the timer answers no and some
    coefficient is zero, so the counter never exceeds `max(early_stopping, 0)`.
  */
  lemma PatienceCounter(task: Task, p: Params, o: Oracles, k: int)
    requires FitPredict(task, p, o).Ok?
    requires 0 <= k < |FitPredict(task, p, o).value.cells|
    ensures var cells := FitPredict(task, p, o).value.cells;
            && cells[k].n <= k
            && (var prevEs := if cells[k].n == 0 then 0 else cells[k - 1].es;
                cells[k].es ==
                  if cells[k].score.None? then prevEs
                  else if BeatsBlock(cells, k - cells[k].n, k, cells[k].score.value) then 0
                  else prevEs + 1)
            && 0 <= cells[k].es <= Max(p.earlyStopping, 0)
            && (cells[k].n > 0 && cells[k - 1].score.Some? ==>
                  && cells[k - 1].es < p.earlyStopping
                  && !o.timeUp(cells[k - 1].queries)
                  && !AllNonzero(CoefOf(cells[k - 1].output)))
  {
    var kb := FitPredictOk(task, p, o);
    var cf := ConfigOf(task, InferParams(task, p).value);
    assert CellOk(cf, o, FitPredict(task, p, o).value.cells, k);
  }

  /**
    The stop rule of the inner loop. The walk goes on from cell `k` to the
    next `c` of the same ratio exactly when a `c` is left and the cell was
    skipped, or was scored with `es < early_stopping`, a timer query (number
    `queries`) that answered no, and some coefficient still zero. A skipped
    cell is always followed by the next `c`, and makes no timer query; a
    scored cell with patience left makes one.
  */
  lemma InnerStopRule(task: Task, p: Params, o: Oracles, k: int)
    requires FitPredict(task, p, o).Ok?
    requires 0 <= k < |FitPredict(task, p, o).value.cells|
    ensures var cells := FitPredict(task, p, o).value.cells;
            var c := cells[k];
            && ((k + 1 < |cells| && cells[k + 1].n == c.n + 1) <==>
                  && c.n + 1 < |p.cs|
                  && (c.score.None? ||
                        (c.es < p.earlyStopping && !o.timeUp(c.queries) && !AllNonzero(CoefOf(c.output)))))
            && (k + 1 < |cells| && cells[k + 1].n == c.n + 1 ==>
                  && cells[k + 1].round == c.round
                  && cells[k + 1].ratio == c.ratio
                  && cells[k + 1].queries == (if c.score.Some? then c.queries + 1 else c.queries))
            && (c.score.None? ==>
                  k + 1 < |cells| && cells[k + 1].n == c.n + 1 && cells[k + 1].queries == c.queries)
  {
    FitPredictNeighbours(task, p, o, k);
    NextInWalk(ConfigOf(task, InferParams(task, p).value), o, FitPredict(task, p, o).value.cells, k);
  }

  /** What a completed search says about cell `k` and the cell after it, in terms of the search's configuration. */
  lemma FitPredictNeighbours(task: Task, p: Params, o: Oracles, k: int)
    requires FitPredict(task, p, o).Ok?
    requires 0 <= k < |FitPredict(task, p, o).value.cells|
    ensures InferParams(task, p).Ok?
    ensures var cf := ConfigOf(task, InferParams(task, p).value);
            var cells := FitPredict(task, p, o).value.cells;
            && cf.cs == p.cs && cf.early == p.earlyStopping
            && CellLinked(cf, o, cells, k)
            && (cells[k].score.None? ==> cells[k].n + 1 < |cf.cs|)
            && (k + 1 < |cells| ==> CellLinked(cf, o, cells, k + 1) && cells[k + 1].round < |p.l1Ratios|)
            && (k + 1 == |cells| ==>
                  && EndsWalk(cf, o, cells[k])
                  && (cells[k].round + 1 == |p.l1Ratios| || o.timeUp(QueriesAfter(cf, cells[k]))))
  {
    FitPredictTrace(task, p, o);
    var cf := ConfigOf(task, InferParams(task, p).value);
    var cells := FitPredict(task, p, o).value.cells;
    assert CellOk(cf, o, cells, k);
    if k + 1 < |cells| {
      assert CellOk(cf, o, cells, k + 1);
    }
  }

  /** The trace part of `FitPredictOk`, without the facts about the best cell. */
  lemma FitPredictTrace(task: Task, p: Params, o: Oracles)
    requires FitPredict(task, p, o).Ok?
    ensures InferParams(task, p).Ok?
    ensures var cf := ConfigOf(task, InferParams(task, p).value);
            var cells := FitPredict(task, p, o).value.cells;
            && cf.cs == p.cs && cf.early == p.earlyStopping
            && TraceOk(cf, o, cells)
            && (forall k :: 0 <= k < |cells| ==> cells[k].round < |p.l1Ratios|)
            && (|cells| > 0 ==>
                  var last := cells[|cells| - 1];
                  && EndsWalk(cf, o, last)
                  && (last.round + 1 == |p.l1Ratios| || o.timeUp(QueriesAfter(cf, last))))
  {
    var kb := FitPredictOk(task, p, o);
  }

  /** The inner stop rule for one cell, from the links to its neighbours. */
  lemma NextInWalk(cf: Config, o: Oracles, cells: seq<Cell>, k: int)
    requires 0 <= k < |cells|
    requires CellLinked(cf, o, cells, k)
    requires k + 1 < |cells| ==> CellLinked(cf, o, cells, k + 1)
    requires k + 1 == |cells| ==> EndsWalk(cf, o, cells[k])
    requires cells[k].score.None? ==> cells[k].n + 1 < |cf.cs|
    ensures var c := cells[k];
            && ((k + 1 < |cells| && cells[k + 1].n == c.n + 1) <==> c.n + 1 < |cf.cs| && GoesOn(cf, o, c))
            && (k + 1 < |cells| && cells[k + 1].n == c.n + 1 ==>
                  && cells[k + 1].round == c.round
                  && cells[k + 1].ratio == c.ratio
                  && cells[k + 1].queries == QueriesAfter(cf, c))
            && (c.score.None? ==>
                  k + 1 < |cells| && cells[k + 1].n == c.n + 1 && cells[k + 1].queries == c.queries)
  {
  }

  /** The outer stop rule for the last cell of a walk, from the links to its neighbour. */
  lemma NextWalk(cf: Config, o: Oracles, cells: seq<Cell>, k: int, rounds: nat, early: int)
    requires early == cf.early
    requires 0 <= k < |cells|
    requires k + 1 == |cells| || cells[k + 1].n == 0
    requires CellLinked(cf, o, cells, k)
    requires k + 1 < |cells| ==> CellLinked(cf, o, cells, k + 1) && cells[k + 1].round < rounds
    requires k + 1 == |cells| ==>
               EndsWalk(cf, o, cells[k]) && (cells[k].round + 1 == rounds || o.timeUp(QueriesAfter(cf, cells[k])))
    ensures var c := cells[k];
            var q := if c.score.Some? && c.es < early then c.queries + 1 else c.queries;
            && (c.n + 1 == |cf.cs| ||
                  (c.score.Some? && (c.es >= early || o.timeUp(c.queries) || AllNonzero(CoefOf(c.output)))))
            && (k + 1 < |cells| <==> c.round + 1 < rounds && !o.timeUp(q))
            && (k + 1 < |cells| ==>
                  && cells[k + 1].round == c.round + 1
                  && c.round + 1 < rounds
                  && cells[k + 1].queries == q + 1)
  {
  }

  /**
    The stop rule of the outer loop. When cell `k` is the last one of its
    ratio's walk, the walk ended for one of the inner loop's reasons, and the
    search goes on to another ratio exactly when one is left and the timer
    query made after the walk (number `q`) answered no.
  */
  lemma OuterStopRule(task: Task, p: Params, o: Oracles, k: int)
    requires FitPredict(task, p, o).Ok?
    requires 0 <= k < |FitPredict(task, p, o).value.cells|
    requires k + 1 == |FitPredict(task, p, o).value.cells| || FitPredict(task, p, o).value.cells[k + 1].n == 0
    ensures var cells := FitPredict(task, p, o).value.cells;
            var c := cells[k];
            var q := if c.score.Some? && c.es < p.earlyStopping then c.queries + 1 else c.queries;
            && (c.n + 1 == |p.cs| ||
                  (c.score.Some? && (c.es >= p.earlyStopping || o.timeUp(c.queries) || AllNonzero(CoefOf(c.output)))))
            && (k + 1 < |cells| <==> c.round + 1 < |p.l1Ratios| && !o.timeUp(q))
  {
    FitPredictNeighbours(task, p, o, k);
    NextWalk(ConfigOf(task, InferParams(task, p).value), o, FitPredict(task, p, o).value.cells, k,
             |p.l1Ratios|, p.earlyStopping);
  }

  /**
    When another walk follows the last cell of a walk, it is the next round,
    so (by `RoundsFollowSortedRatios`) it is over the next ratio of
    `sorted(l1_ratios, reverse=True)`, and its first cell comes one timer
    query after the query `q` that ended the previous walk.
  */
  lemma NextRatioWalk(task: Task, p: Params, o: Oracles, k: int)
    requires FitPredict(task, p, o).Ok?
    requires 0 <= k && k + 1 < |FitPredict(task, p, o).value.cells|
    requires FitPredict(task, p, o).value.cells[k + 1].n == 0
    ensures var cells := FitPredict(task, p, o).value.cells;
            var c := cells[k];
            var q := if c.score.Some? && c.es < p.earlyStopping then c.queries + 1 else c.queries;
            && cells[k + 1].round == c.round + 1
            && c.round + 1 < |p.l1Ratios|
            && cells[k + 1].queries == q + 1
  {
    FitPredictNeighbours(task, p, o, k);
    NextWalk(ConfigOf(task, InferParams(task, p).value), o, FitPredict(task, p, o).value.cells, k,
             |p.l1Ratios|, p.earlyStopping);
  }

  /**
    The walks follow the sorted ratios: the cells of walk `j` carry the
    `j`-th ratio of `sorted(l1_ratios, reverse=True)`; the first cell is the
    first `c` of the first ratio, before any timer query; and some cell is
    fitted exactly when both the ratios and the grid are non-empty.
  */
  lemma RoundsFollowSortedRatios(task: Task, p: Params, o: Oracles)
    requires FitPredict(task, p, o).Ok?
    ensures var cells := FitPredict(task, p, o).value.cells;
            var ratios := SortDescending(p.l1Ratios);
            && (forall k :: 0 <= k < |cells| ==>
                  cells[k].round < |ratios| && cells[k].ratio == ratios[cells[k].round])
            && (|cells| > 0 ==> cells[0].round == 0 && cells[0].n == 0 && cells[0].queries == 0)
            && (|cells| > 0 <==> |p.l1Ratios| > 0 && |p.cs| > 0)
  {
    var kb := FitPredictOk(task, p, o);
    var cf := ConfigOf(task, InferParams(task, p).value);
    var cells := FitPredict(task, p, o).value.cells;
    if |cells| > 0 {
      assert CellOk(cf, o, cells, 0);
    }
  }

  /**
    A classification search whose ratios are not `(1,)` builds an
    `elasticnet` logistic regression, and the `l1_ratio` it sets never
    reaches the fresh copy that is fitted: scikit-learn refuses the very
    first fit, and `fit_predict_single_fold` raises `ValueError`.
  */
  lemma ElasticNetClassificationRaises(task: Task, p: Params, o: Oracles)
    requires task.Binary? || task.Multiclass?
    requires !PureL1(p.l1Ratios) && |p.l1Ratios| > 0 && |p.cs| > 0
    ensures FitPredict(task, p, o) == Err(ValueError)
  {
    var setup := InferParams(task, p).value;
    var cf := ConfigOf(task, setup);
    var ratios := SortDescending(setup.l1Ratios);
    SortDescendingSorted(setup.l1Ratios);
    assert FitRefused(SetStrength(cf.base, cf.cs[0]));
    assert Walk(cf, o, 0, ratios[0], 0, WalkState(cf.base, None, 0, [], 0)) == Err(ValueError);
  }

  /** `_predict_w_model_type` succeeds on every estimator. */
  ghost predicate AlwaysPredicts(task: Task, o: Oracles)
  {
    forall m :: PredictWModelType(task, o, m).Ok?
  }

  /** Every row `predict_proba` gives has a positive-class column. */
  ghost predicate ProbaHasColumnOne(o: Oracles)
  {
    forall m, i :: 0 <= i < |o.predictProba(m)| ==> |o.predictProba(m)[i]| >= 2
  }

  /**
    How a ratio's walk can end in an error: scikit-learn's refusal of the
    template (at the first `c` already), or an `IndexError` of a binary
    prediction. Without those the walk completes, however many fits are
    degenerate.
  */
  lemma {:induction false} WalkOutcome(cf: Config, o: Oracles, round: nat, ratio: real, n: nat, w: WalkState)
    requires !cf.task.UnsupportedTask?
    requires w.model.family == cf.base.family && w.model.l1Ratio == cf.base.l1Ratio
    ensures var r := Walk(cf, o, round, ratio, n, w);
            && (r.Err? ==>
                  (r.error == ValueError && FitRefused(cf.base)) || (r.error == IndexError && cf.task.Binary?))
            && (FitRefused(cf.base) && n < |cf.cs| ==> r == Err(ValueError))
            && (!FitRefused(cf.base) && AlwaysPredicts(cf.task, o) ==> r.Ok?)
    decreases |cf.cs| - n
  {
    if n < |cf.cs| && !FitRefused(cf.base) {
      var input := SetStrength(w.model, cf.cs[n]);
      var m := Fit(o, input);
      if Degenerate(m) && n != |cf.cs| - 1 {
        WalkOutcome(cf, o, round, ratio, n + 1,
                    w.(model := m, cells := w.cells + [Cell(ratio, round, n, w.checks, input, m, None, false, w.es)]));
      } else {
        var pr := PredictWModelType(cf.task, o, m);
        if pr.Ok? {
          var score := o.metric(pr.value);
          var improved := Improves(score, w.best);
          var es := if improved then 0 else w.es + 1;
          var best := if improved then Some(Best(score, pr.value, m)) else w.best;
          var cells := w.cells + [Cell(ratio, round, n, w.checks, input, m, Some(score), Degenerate(m), es)];
          WalkOutcome(cf, o, round, ratio, n + 1, WalkState(m, best, es, cells, w.checks + 1));
        }
      }
    }
  }

  /** The outer loop fails only as a walk fails, and a refused template fails at the first ratio. */
  lemma {:induction false} SearchOutcome(cf: Config, o: Oracles, ratios: seq<real>, i: nat, s: SearchState)
    requires !cf.task.UnsupportedTask?
    ensures var r := Search(cf, o, ratios, i, s);
            && (r.Err? ==>
                  (r.error == ValueError && FitRefused(cf.base)) || (r.error == IndexError && cf.task.Binary?))
            && (FitRefused(cf.base) && |cf.cs| > 0 && i < |ratios| ==> r == Err(ValueError))
            && (|cf.cs| == 0 || i >= |ratios| ==> r.Ok?)
            && (!FitRefused(cf.base) && AlwaysPredicts(cf.task, o) ==> r.Ok?)
    decreases |ratios| - i
  {
    if i < |ratios| {
      var walked := Walk(cf, o, i, ratios[i], 0, WalkState(cf.base, None, 0, s.cells, s.checks));
      WalkOutcome(cf, o, i, ratios[i], 0, WalkState(cf.base, None, 0, s.cells, s.checks));
      if walked.Ok? {
        var w := walked.value;
        var best := if AtLeast(w.best, s.best) then w.best else s.best;
        SearchOutcome(cf, o, ratios, i + 1, SearchState(best, w.cells, w.checks + 1));
      }
    }
  }

  /**
    `fit_predict_single_fold` of a supported task is its search from the
    start, over the sorted ratios: it fails exactly when the search does, with
    the search's error. The template is refused exactly for classification
    with ratios other than `(1,)`.
  */
  lemma FitPredictViaSearch(task: Task, p: Params, o: Oracles)
    requires !task.UnsupportedTask?
    ensures var setup := InferParams(task, p).value;
            var cf := ConfigOf(task, setup);
            var ratios := SortDescending(setup.l1Ratios);
            var searched := Search(cf, o, ratios, 0, SearchState(None, [], 0));
            && (FitPredict(task, p, o).Ok? <==> searched.Ok?)
            && (searched.Err? ==> FitPredict(task, p, o) == Err(searched.error))
            && cf.task == task
            && cf.cs == p.cs
            && |ratios| == |p.l1Ratios|
            && (FitRefused(cf.base) <==> (task.Binary? || task.Multiclass?) && !PureL1(p.l1Ratios))
  {
    SortDescendingSorted(InferParams(task, p).value.l1Ratios);
  }

  /**
    Exactly which searches raise. An unsupported task raises `AttributeError`.
    A classification search with ratios other than `(1,)` and a non-empty
    grid raises `ValueError`. Only a binary search can raise anything else,
    an `IndexError` of `predict_proba(...)[:, 1]`.
  */
  lemma SearchErrors(task: Task, p: Params, o: Oracles)
    ensures var r := FitPredict(task, p, o);
            var elasticNetCells := !PureL1(p.l1Ratios) && |p.l1Ratios| > 0 && |p.cs| > 0;
            && (task.UnsupportedTask? ==> r == Err(AttributeError))
            && (r.Err? ==>
                  || (task.UnsupportedTask? && r.error == AttributeError)
                  || ((task.Binary? || task.Multiclass?) && elasticNetCells && r.error == ValueError)
                  || (task.Binary? && r.error == IndexError))
  {
    if !task.UnsupportedTask? {
      var setup := InferParams(task, p).value;
      var cf := ConfigOf(task, setup);
      var ratios := SortDescending(setup.l1Ratios);
      FitPredictViaSearch(task, p, o);
      SearchOutcome(cf, o, ratios, 0, SearchState(None, [], 0));
    }
  }

  /**
    When a search completes. A regression search always does, even when every
    fit is degenerate. A multiclass search does exactly when it has no
    elastic-net cell to fit, and so does a binary search whose probabilities
    have a second column.
  */
  lemma SearchSucceedsIff(task: Task, p: Params, o: Oracles)
    ensures var r := FitPredict(task, p, o);
            var elasticNetCells := !PureL1(p.l1Ratios) && |p.l1Ratios| > 0 && |p.cs| > 0;
            && (task.Reg? ==> r.Ok?)
            && (task.Multiclass? ==> (r.Ok? <==> !elasticNetCells))
            && (task.Binary? && ProbaHasColumnOne(o) ==> (r.Ok? <==> !elasticNetCells))
  {
    if task.Reg? || task.Multiclass? || (task.Binary? && ProbaHasColumnOne(o)) {
      var setup := InferParams(task, p).value;
      var cf := ConfigOf(task, setup);
      var ratios := SortDescending(setup.l1Ratios);
      FitPredictViaSearch(task, p, o);
      AlwaysPredictsFrom(task, o);
      SearchOutcome(cf, o, ratios, 0, SearchState(None, [], 0));
    }
  }

  /** Regression and multiclass predictions never fail; binary ones do not when every row has a column 1. */
  lemma AlwaysPredictsFrom(task: Task, o: Oracles)
    requires task.Reg? || task.Multiclass? || (task.Binary? && ProbaHasColumnOne(o))
    ensures AlwaysPredicts(task, o)
  {
    forall m
      ensures PredictWModelType(task, o, m).Ok?
    {
      if task.Binary? {
        var proba := o.predictProba(m);
        assert forall i :: 0 <= i < |proba| ==> |proba[i]| >= 2;
      }
    }
  }

  // ---------------------------------------------------------------------------
  // The regression grid
  // ---------------------------------------------------------------------------

  /** `alpha = 1/(2C)` is its own inverse: converting the grid twice gives the `C` grid back. */
  lemma AlphaGridRoundTrip(cs: seq<real>)
    requires forall i :: 0 <= i < |cs| ==> cs[i] != 0.0
    ensures forall i :: 0 <= i < |cs| ==> AlphaGrid(cs)[i] != 0.0
    ensures AlphaGrid(AlphaGrid(cs)) == cs
  {
    var alphas := AlphaGrid(cs);
    forall i | 0 <= i < |cs|
      ensures alphas[i] != 0.0
    {
      assert alphas[i] * (2.0 * cs[i]) == 1.0;
    }
    var back := AlphaGrid(alphas);
    forall i | 0 <= i < |cs|
      ensures back[i] == cs[i]
    {
      var a, c := alphas[i], cs[i];
      assert a * (2.0 * c) == 1.0;
      assert back[i] * (2.0 * a) == 1.0;
      calc {
        back[i];
        back[i] * (a * (2.0 * c));
        (back[i] * (2.0 * a)) * c;
        c;
      }
    }
  }

  /** On a positive grid, a larger `C` (weaker regularisation) becomes a smaller `alpha`. */
  lemma AlphaGridReversesOrder(cs: seq<real>, i: int, j: int)
    requires forall k :: 0 <= k < |cs| ==> cs[k] > 0.0
    requires 0 <= i < |cs| && 0 <= j < |cs|
    ensures cs[i] > cs[j] <==> AlphaGrid(cs)[i] < AlphaGrid(cs)[j]
  {
    var a, b := AlphaGrid(cs)[i], AlphaGrid(cs)[j];
    assert a * (2.0 * cs[i]) == 1.0 && b * (2.0 * cs[j]) == 1.0;
    assert a > 0.0 && b > 0.0;
    // a * cs[i] == b * cs[j] == 1/2
    assert a * cs[i] == b * cs[j];
    if cs[i] > cs[j] {
      assert b * cs[j] < b * cs[i];
    } else {
      assert b * cs[i] <= b * cs[j];
    }
  }

  /**
    The algorithm's defaults are usable as they stand: with a scikit-learn
    loss, `init_params_on_input` succeeds for every supported task (no `C` of
    the default grid is zero), keeps all eleven grid points, and for
    regression turns the increasing `C` grid into a decreasing `alpha` grid;
    the default ratios `(1,)` make `_infer_params` build a pure-L1 model.
  */
  lemma DefaultsUsable(task: Task)
    requires !task.UnsupportedTask?
    ensures InitParamsOnInput(task, true, DefaultParams).Ok?
    ensures var p := InitParamsOnInput(task, true, DefaultParams).value;
            && |p.cs| == 11
            && PureL1(p.l1Ratios) && p.earlyStopping == 2 && p.solver == "saga"
            && (task.Reg? ==> forall i :: 0 <= i < 10 ==> p.cs[i] > p.cs[i + 1])
            && InferParams(task, p).Ok?
            && InferParams(task, p).value.model.family == (if task.Reg? then Lasso else LogisticRegression(L1))
  {
    var cs := DefaultCs;
    assert forall i :: 0 <= i < |cs| ==> cs[i] > 0.0;
    if task.Reg? {
      forall i | 0 <= i < 10
        ensures AlphaGrid(cs)[i] > AlphaGrid(cs)[i + 1]
      {
        assert cs[i] < cs[i + 1];
        AlphaGridReversesOrder(cs, i + 1, i);
      }
    }
  }
}
