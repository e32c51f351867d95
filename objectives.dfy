/**
 * What ObjectiveDefinition (Problem.cs:262-419) adds: the productivity-gap
 * pairs with their tmp/abTmp variables and constraints, the per-worker
 * diversity sums, and the two totals of which only TotalGaps is minimised.
 */
module Objectives {
  import opened ManPowerData
  import opened CpSat
  import opened Variables
  import opened Constraints

  // ---- 1. Productivity gaps (Problem.cs:265-299) ----

  /**
   * A gap pair: workers w < ow that both qualify for stage `st` in shift `sh`,
   * at a stage that line `ln` runs.
   */
  predicate IsGapKey(d: Data, p: GapKey)
    requires WellFormed(d)
  {
    && 0 <= p.shift < d.NumOfShifts && 0 <= p.line < d.NumOfLines && 0 <= p.stage < d.NumOfStages
    && 0 <= p.worker < p.other < d.NumOfWorkers
    && d.LineStage[p.line][p.stage] > 0
    && Qualifies(d, p.shift, p.stage, p.worker) && Qualifies(d, p.shift, p.stage, p.other)
  }

  predicate GapKeysValid(d: Data, ps: seq<GapKey>)
    requires WellFormed(d)
  {
    forall i :: 0 <= i < |ps| ==> IsGapKey(d, ps[i])
  }

  /** Lexicographic order on (shift, line, stage, worker, other): the order of the loop nest. */
  predicate GapLess(p: GapKey, q: GapKey)
  {
    || p.shift < q.shift
    || (p.shift == q.shift && p.line < q.line)
    || (p.shift == q.shift && p.line == q.line && p.stage < q.stage)
    || (p.shift == q.shift && p.line == q.line && p.stage == q.stage && p.worker < q.worker)
    || (p.shift == q.shift && p.line == q.line && p.stage == q.stage && p.worker == q.worker && p.other < q.other)
  }

  predicate GapSorted(ps: seq<GapKey>)
  {
    forall i, j {:trigger GapLess(ps[i], ps[j])} :: 0 <= i < j < |ps| ==> GapLess(ps[i], ps[j])
  }

  predicate GapLe(p: GapKey, q: GapKey)
  {
    p == q || GapLess(p, q)
  }

  /** `ps` is a sorted run of valid pairs, all within [lo, hi). */
  predicate GapRun(d: Data, ps: seq<GapKey>, lo: GapKey, hi: GapKey)
    requires WellFormed(d)
  {
    && GapKeysValid(d, ps) && GapSorted(ps)
    && forall i :: 0 <= i < |ps| ==> GapLe(lo, ps[i]) && GapLess(ps[i], hi)
  }

  /** A run in [lo, mid) followed by a run in [mid, hb), both bounds at most hi, is a run in [lo, hi). */
  lemma {:induction false} GapRunAppend(d: Data, a: seq<GapKey>, b: seq<GapKey>, lo: GapKey, mid: GapKey, hb: GapKey, hi: GapKey)
    requires WellFormed(d) && GapRun(d, a, lo, mid) && GapRun(d, b, mid, hb)
    requires GapLe(lo, mid) && GapLe(mid, hi) && GapLe(hb, hi)
    ensures GapRun(d, a + b, lo, hi)
  {
    forall i | 0 <= i < |a + b|
      ensures IsGapKey(d, (a + b)[i]) && GapLe(lo, (a + b)[i]) && GapLess((a + b)[i], hi)
    {
      if i < |a| {
        assert (a + b)[i] == a[i];
      } else {
        assert (a + b)[i] == b[i - |a|];
      }
    }
    forall i, j | 0 <= i < j < |a + b|
      ensures GapLess((a + b)[i], (a + b)[j])
    {
      if j < |a| {
        assert (a + b)[i] == a[i] && (a + b)[j] == a[j];
      } else if i < |a| {
        assert (a + b)[i] == a[i] && (a + b)[j] == b[j - |a|];
      } else {
        assert (a + b)[i] == b[i - |a|] && (a + b)[j] == b[j - |a|];
      }
    }
  }

  /** GapRunAppend for a sequence already known to split as `a + b`. */
  lemma GapRunSplit(d: Data, ab: seq<GapKey>, a: seq<GapKey>, b: seq<GapKey>, lo: GapKey, mid: GapKey, hb: GapKey, hi: GapKey)
    requires WellFormed(d) && ab == a + b && GapRun(d, a, lo, mid) && GapRun(d, b, mid, hb)
    requires GapLe(lo, mid) && GapLe(mid, hi) && GapLe(hb, hi)
    ensures GapRun(d, ab, lo, hi)
  {
    GapRunAppend(d, a, b, lo, mid, hb, hi);
  }

  /** Pairs (w, ow) for w < ow < n: the `ow` loop. */
  function OtherGapKeys(d: Data, sh: int, ln: int, st: int, w: int, n: int): seq<GapKey>
    requires WellFormed(d) && 0 <= sh < d.NumOfShifts && 0 <= st < d.NumOfStages && 0 <= w && n <= d.NumOfWorkers
    decreases n
  {
    if n <= w + 1 then []
    else OtherGapKeys(d, sh, ln, st, w, n - 1) + (if Qualifies(d, sh, st, n - 1) then [GapKey(sh, ln, st, w, n - 1)] else [])
  }

  /** Pairs whose first worker is below `n`: the `w` loop, which stops at NumOfWorkers - 1. */
  function WorkerGapKeys(d: Data, sh: int, ln: int, st: int, n: int): seq<GapKey>
    requires WellFormed(d) && 0 <= sh < d.NumOfShifts && 0 <= st < d.NumOfStages && n <= d.NumOfWorkers
    decreases n
  {
    if n <= 0 then []
    else WorkerGapKeys(d, sh, ln, st, n - 1)
         + (if Qualifies(d, sh, st, n - 1) then OtherGapKeys(d, sh, ln, st, n - 1, d.NumOfWorkers) else [])
  }

  /** Pairs of line `ln` in shift `sh`, stages below `n` that the line runs. */
  function StageGapKeys(d: Data, sh: int, ln: int, n: int): seq<GapKey>
    requires WellFormed(d) && 0 <= sh < d.NumOfShifts && 0 <= ln < d.NumOfLines && n <= d.NumOfStages
    decreases n
  {
    if n <= 0 then []
    else StageGapKeys(d, sh, ln, n - 1)
         + (if d.LineStage[ln][n - 1] > 0 then WorkerGapKeys(d, sh, ln, n - 1, d.NumOfWorkers - 1) else [])
  }

  /** Pairs of shift `sh`, lines below `n`. */
  function LineGapKeys(d: Data, sh: int, n: int): seq<GapKey>
    requires WellFormed(d) && 0 <= sh < d.NumOfShifts && n <= d.NumOfLines
    decreases n
  {
    if n <= 0 then [] else LineGapKeys(d, sh, n - 1) + StageGapKeys(d, sh, n - 1, d.NumOfStages)
  }

  /** Pairs of the shifts below `n`, in the order the loop nest creates them. */
  function GapKeys(d: Data, n: int): seq<GapKey>
    requires WellFormed(d) && n <= d.NumOfShifts
    decreases n
  {
    if n <= 0 then [] else GapKeys(d, n - 1) + LineGapKeys(d, n - 1, d.NumOfLines)
  }

  /** The `ow` loop lists, in order, valid pairs (given the guards around it) of its own (sh, ln, st, w). */
  lemma {:induction false} OtherGapKeysRun(d: Data, sh: int, ln: int, st: int, w: int, n: int)
    requires WellFormed(d) && 0 <= sh < d.NumOfShifts && 0 <= ln < d.NumOfLines && 0 <= st < d.NumOfStages
    requires 0 <= w < d.NumOfWorkers && n <= d.NumOfWorkers
    requires d.LineStage[ln][st] > 0 && Qualifies(d, sh, st, w)
    ensures GapRun(d, OtherGapKeys(d, sh, ln, st, w, n), GapKey(sh, ln, st, w, 0), GapKey(sh, ln, st, w, n))
  {
    if n > w + 1 {
      var whole, left := OtherGapKeys(d, sh, ln, st, w, n), OtherGapKeys(d, sh, ln, st, w, n - 1);
      var lo, mid, hi := GapKey(sh, ln, st, w, 0), GapKey(sh, ln, st, w, n - 1), GapKey(sh, ln, st, w, n);
      OtherGapKeysRun(d, sh, ln, st, w, n - 1);
      if Qualifies(d, sh, st, n - 1) {
        GapRunSplit(d, whole, left, [mid], lo, mid, hi, hi);
      } else {
        GapRunSplit(d, whole, left, [], lo, mid, mid, hi);
      }
    }
  }

  lemma {:induction false} WorkerGapKeysRun(d: Data, sh: int, ln: int, st: int, n: int)
    requires WellFormed(d) && 0 <= sh < d.NumOfShifts && 0 <= ln < d.NumOfLines && 0 <= st < d.NumOfStages
    requires n <= d.NumOfWorkers - 1 && d.LineStage[ln][st] > 0
    ensures GapRun(d, WorkerGapKeys(d, sh, ln, st, n), GapKey(sh, ln, st, 0, 0), GapKey(sh, ln, st, n, 0))
  {
    // the recursive call and the lemmas about the inner key lists carry the proof; keep those lists folded
    hide OtherGapKeys;
    if n > 0 {
      var whole, left := WorkerGapKeys(d, sh, ln, st, n), WorkerGapKeys(d, sh, ln, st, n - 1);
      var lo, mid, hi := GapKey(sh, ln, st, 0, 0), GapKey(sh, ln, st, n - 1, 0), GapKey(sh, ln, st, n, 0);
      WorkerGapKeysRun(d, sh, ln, st, n - 1);
      if Qualifies(d, sh, st, n - 1) {
        var right := OtherGapKeys(d, sh, ln, st, n - 1, d.NumOfWorkers);
        OtherGapKeysRun(d, sh, ln, st, n - 1, d.NumOfWorkers);
        GapRunSplit(d, whole, left, right, lo, mid, GapKey(sh, ln, st, n - 1, d.NumOfWorkers), hi);
      } else {
        GapRunSplit(d, whole, left, [], lo, mid, mid, hi);
      }
    }
  }

  lemma {:induction false} StageGapKeysRun(d: Data, sh: int, ln: int, n: int)
    requires WellFormed(d) && 0 <= sh < d.NumOfShifts && 0 <= ln < d.NumOfLines && n <= d.NumOfStages
    ensures GapRun(d, StageGapKeys(d, sh, ln, n), GapKey(sh, ln, 0, 0, 0), GapKey(sh, ln, n, 0, 0))
  {
    // the recursive call and the lemmas about the inner key lists carry the proof; keep those lists folded
    hide WorkerGapKeys, OtherGapKeys;
    if n > 0 {
      var whole, left := StageGapKeys(d, sh, ln, n), StageGapKeys(d, sh, ln, n - 1);
      var lo, mid, hi := GapKey(sh, ln, 0, 0, 0), GapKey(sh, ln, n - 1, 0, 0), GapKey(sh, ln, n, 0, 0);
      StageGapKeysRun(d, sh, ln, n - 1);
      if d.LineStage[ln][n - 1] > 0 {
        var right := WorkerGapKeys(d, sh, ln, n - 1, d.NumOfWorkers - 1);
        WorkerGapKeysRun(d, sh, ln, n - 1, d.NumOfWorkers - 1);
        GapRunSplit(d, whole, left, right, lo, mid, GapKey(sh, ln, n - 1, d.NumOfWorkers - 1, 0), hi);
      } else {
        GapRunSplit(d, whole, left, [], lo, mid, mid, hi);
      }
    }
  }

  lemma {:induction false} LineGapKeysRun(d: Data, sh: int, n: int)
    requires WellFormed(d) && 0 <= sh < d.NumOfShifts && n <= d.NumOfLines
    ensures GapRun(d, LineGapKeys(d, sh, n), GapKey(sh, 0, 0, 0, 0), GapKey(sh, n, 0, 0, 0))
  {
    // the recursive call and the lemmas about the inner key lists carry the proof; keep those lists folded
    hide StageGapKeys, WorkerGapKeys, OtherGapKeys;
    if n > 0 {
      var left, right := LineGapKeys(d, sh, n - 1), StageGapKeys(d, sh, n - 1, d.NumOfStages);
      LineGapKeysRun(d, sh, n - 1);
      StageGapKeysRun(d, sh, n - 1, d.NumOfStages);
      GapRunSplit(d, LineGapKeys(d, sh, n), left, right,
                   GapKey(sh, 0, 0, 0, 0), GapKey(sh, n - 1, 0, 0, 0), GapKey(sh, n - 1, d.NumOfStages, 0, 0), GapKey(sh, n, 0, 0, 0));
    }
  }

  lemma {:induction false} GapKeysRun(d: Data, n: int)
    requires WellFormed(d) && n <= d.NumOfShifts
    ensures GapRun(d, GapKeys(d, n), GapKey(0, 0, 0, 0, 0), GapKey(n, 0, 0, 0, 0))
  {
    // the recursive call and the lemmas about the inner key lists carry the proof; keep those lists folded
    hide LineGapKeys, StageGapKeys, WorkerGapKeys, OtherGapKeys;
    if n > 0 {
      var left, right := GapKeys(d, n - 1), LineGapKeys(d, n - 1, d.NumOfLines);
      GapKeysRun(d, n - 1);
      LineGapKeysRun(d, n - 1, d.NumOfLines);
      GapRunSplit(d, GapKeys(d, n), left, right,
                   GapKey(0, 0, 0, 0, 0), GapKey(n - 1, 0, 0, 0, 0), GapKey(n - 1, d.NumOfLines, 0, 0, 0), GapKey(n, 0, 0, 0, 0));
    }
  }

  /** Every listed pair is a valid gap pair, listed in loop order, so no pair is listed twice. */
  lemma {:induction false} GapKeysSound(d: Data)
    requires WellFormed(d)
    ensures GapKeysValid(d, GapKeys(d, d.NumOfShifts)) && GapSorted(GapKeys(d, d.NumOfShifts))
    ensures forall i, j :: 0 <= i < j < |GapKeys(d, d.NumOfShifts)| ==> GapKeys(d, d.NumOfShifts)[i] != GapKeys(d, d.NumOfShifts)[j]
  {
    GapKeysRun(d, d.NumOfShifts);
    var ps := GapKeys(d, d.NumOfShifts);
    forall i, j | 0 <= i < j < |ps| ensures ps[i] != ps[j] {
      assert GapLess(ps[i], ps[j]);
    }
  }

  lemma {:induction false} OtherGapKeysComplete(d: Data, p: GapKey, n: int)
    requires WellFormed(d) && IsGapKey(d, p) && p.other < n <= d.NumOfWorkers
    ensures p in OtherGapKeys(d, p.shift, p.line, p.stage, p.worker, n)
  {
    var whole, left := OtherGapKeys(d, p.shift, p.line, p.stage, p.worker, n), OtherGapKeys(d, p.shift, p.line, p.stage, p.worker, n - 1);
    if p.other < n - 1 {
      OtherGapKeysComplete(d, p, n - 1);
      InConcat(p, whole, left, if Qualifies(d, p.shift, p.stage, n - 1) then [GapKey(p.shift, p.line, p.stage, p.worker, n - 1)] else []);
    } else {
      var right := if Qualifies(d, p.shift, p.stage, n - 1) then [GapKey(p.shift, p.line, p.stage, p.worker, n - 1)] else [];
      assert right == [p];
      InConcat(p, whole, left, right);
    }
  }

  lemma {:induction false} WorkerGapKeysComplete(d: Data, p: GapKey, n: int)
    requires WellFormed(d) && IsGapKey(d, p) && p.worker < n <= d.NumOfWorkers - 1
    ensures p in WorkerGapKeys(d, p.shift, p.line, p.stage, n)
  {
    // the recursive call and the lemmas about the inner key lists carry the proof; keep those lists folded
    hide OtherGapKeys;
    var whole, left := WorkerGapKeys(d, p.shift, p.line, p.stage, n), WorkerGapKeys(d, p.shift, p.line, p.stage, n - 1);
    if p.worker < n - 1 {
      WorkerGapKeysComplete(d, p, n - 1);
      InConcat(p, whole, left, if Qualifies(d, p.shift, p.stage, n - 1) then OtherGapKeys(d, p.shift, p.line, p.stage, n - 1, d.NumOfWorkers) else []);
    } else {
      var right := if Qualifies(d, p.shift, p.stage, n - 1) then OtherGapKeys(d, p.shift, p.line, p.stage, n - 1, d.NumOfWorkers) else [];
      OtherGapKeysComplete(d, p, d.NumOfWorkers);
      InConcat(p, whole, left, right);
    }
  }

  lemma {:induction false} StageGapKeysComplete(d: Data, p: GapKey, n: int)
    requires WellFormed(d) && IsGapKey(d, p) && p.stage < n <= d.NumOfStages
    ensures p in StageGapKeys(d, p.shift, p.line, n)
  {
    // the recursive call and the lemmas about the inner key lists carry the proof; keep those lists folded
    hide WorkerGapKeys;
    var whole, left := StageGapKeys(d, p.shift, p.line, n), StageGapKeys(d, p.shift, p.line, n - 1);
    var right := if d.LineStage[p.line][n - 1] > 0 then WorkerGapKeys(d, p.shift, p.line, n - 1, d.NumOfWorkers - 1) else [];
    assert whole == left + right;
    if p.stage < n - 1 {
      StageGapKeysComplete(d, p, n - 1);
      InConcat(p, whole, left, right);
    } else {
      assert right == WorkerGapKeys(d, p.shift, p.line, p.stage, d.NumOfWorkers - 1);
      WorkerGapKeysComplete(d, p, d.NumOfWorkers - 1);
      InConcat(p, whole, left, right);
    }
  }

  lemma {:induction false} LineGapKeysComplete(d: Data, p: GapKey, n: int)
    requires WellFormed(d) && IsGapKey(d, p) && p.line < n <= d.NumOfLines
    ensures p in LineGapKeys(d, p.shift, n)
  {
    // the recursive call and the lemmas about the inner key lists carry the proof; keep those lists folded
    hide StageGapKeys, WorkerGapKeys, OtherGapKeys;
    var whole, left, right := LineGapKeys(d, p.shift, n), LineGapKeys(d, p.shift, n - 1), StageGapKeys(d, p.shift, n - 1, d.NumOfStages);
    assert whole == left + right;
    if p.line < n - 1 {
      LineGapKeysComplete(d, p, n - 1);
      InConcat(p, whole, left, right);
    } else {
      StageGapKeysComplete(d, p, d.NumOfStages);
      InConcat(p, whole, left, right);
    }
  }

  /** Every valid gap pair of a shift below `n` is listed. */
  lemma {:induction false} GapKeysComplete(d: Data, p: GapKey, n: int)
    requires WellFormed(d) && IsGapKey(d, p) && p.shift < n <= d.NumOfShifts
    ensures p in GapKeys(d, n)
  {
    // the recursive call and the lemmas about the inner key lists carry the proof; keep those lists folded
    hide LineGapKeys, StageGapKeys, WorkerGapKeys, OtherGapKeys;
    var whole, left, right := GapKeys(d, n), GapKeys(d, n - 1), LineGapKeys(d, n - 1, d.NumOfLines);
    assert whole == left + right;
    if p.shift < n - 1 {
      GapKeysComplete(d, p, n - 1);
      InConcat(p, whole, left, right);
    } else {
      LineGapKeysComplete(d, p, d.NumOfLines);
      InConcat(p, whole, left, right);
    }
  }

  /** The two variables of each pair, in creation order: tmp in [-100, 100], then abTmp in [0, 100]. */
  function GapDecls(ps: seq<GapKey>): seq<VarDecl>
  {
    if |ps| == 0 then []
    else GapDecls(ps[..|ps| - 1]) + [VarDecl(Tmp(ps[|ps| - 1]), -100, 100), VarDecl(AbTmp(ps[|ps| - 1]), 0, 100)]
  }

  /** Worker `w`'s productivity score at stage `st`; 0 outside the table, where no gap pair lies. */
  function ScoreOf(d: Data, st: int, w: int): int
    requires WellFormed(d)
  {
    if 0 <= st < d.NumOfStages && 0 <= w < d.NumOfWorkers then d.WorkerStageProductivityScore[st][w] else 0
  }

  /** The assignment variable of key `k`; 0 for a key without one, which no gap pair names. */
  function AssignVarOf(A: WorkerRegistry, k: WorkerKey): VarId
  {
    if k in A then A[k] else 0
  }

  /**
   * The two constraints of pair `p` whose tmp variable is `id` (abTmp is id + 1):
   * tmp equals the score difference when both workers are assigned, and abTmp is |tmp|.
   */
  function PairConstraints(d: Data, A: WorkerRegistry, p: GapKey, id: VarId): seq<Constraint>
    requires WellFormed(d)
  {
    [ EqualIf(id, ScoreOf(d, p.stage, p.worker) - ScoreOf(d, p.stage, p.other),
              [AssignVarOf(A, (p.shift, p.stage, p.worker)), AssignVarOf(A, (p.shift, p.stage, p.other))]),
      AbsEquality(id + 1, id) ]
  }

  /** The constraints of pairs `ps` whose variables are numbered from `n0`. */
  function GapConstraints(d: Data, A: WorkerRegistry, ps: seq<GapKey>, n0: VarId): seq<Constraint>
    requires WellFormed(d)
  {
    if |ps| == 0 then []
    else GapConstraints(d, A, ps[..|ps| - 1], n0) + PairConstraints(d, A, ps[|ps| - 1], n0 + 2 * (|ps| - 1))
  }

  /** The gap terms: the tmp variable of every pair, numbered from `n0`. */
  function GapTerms(ps: seq<GapKey>, n0: VarId): seq<LinearExpr>
  {
    if |ps| == 0 then [] else GapTerms(ps[..|ps| - 1], n0) + [Term(n0 + 2 * (|ps| - 1))]
  }

  /** Pair i owns variables n0 + 2i (its tmp, in [-100, 100]) and n0 + 2i + 1 (its abTmp, in [0, 100]). */
  lemma {:induction false} GapDeclsAt(ps: seq<GapKey>)
    ensures |GapDecls(ps)| == 2 * |ps|
    ensures forall i :: 0 <= i < |ps| ==>
              GapDecls(ps)[2 * i] == VarDecl(Tmp(ps[i]), -100, 100) && GapDecls(ps)[2 * i + 1] == VarDecl(AbTmp(ps[i]), 0, 100)
  {
    if |ps| > 0 {
      var init := ps[..|ps| - 1];
      GapDeclsAt(init);
      forall i | 0 <= i < |init|
        ensures GapDecls(ps)[2 * i] == VarDecl(Tmp(ps[i]), -100, 100) && GapDecls(ps)[2 * i + 1] == VarDecl(AbTmp(ps[i]), 0, 100)
      {
        assert ps[i] == init[i];
      }
    }
  }

  /** The i-th gap term is pair i's tmp variable n0 + 2i, not its absolute value n0 + 2i + 1. */
  lemma {:induction false} GapTermsAt(ps: seq<GapKey>, n0: VarId)
    ensures |GapTerms(ps, n0)| == |ps|
    ensures forall i :: 0 <= i < |ps| ==> GapTerms(ps, n0)[i] == Term(n0 + 2 * i)
  {
    if |ps| > 0 {
      GapTermsAt(ps[..|ps| - 1], n0);
    }
  }

  /** Pair i's two constraints sit at positions 2i and 2i + 1 and name its own variables. */
  lemma {:induction false} GapConstraintsAt(d: Data, A: WorkerRegistry, ps: seq<GapKey>, n0: VarId)
    requires WellFormed(d)
    ensures |GapConstraints(d, A, ps, n0)| == 2 * |ps|
    ensures forall i :: 0 <= i < |ps| ==>
              GapConstraints(d, A, ps, n0)[2 * i .. 2 * i + 2] == PairConstraints(d, A, ps[i], n0 + 2 * i)
  {
    if |ps| > 0 {
      var init := ps[..|ps| - 1];
      GapConstraintsAt(d, A, init, n0);
      var all := GapConstraints(d, A, ps, n0);
      assert all == GapConstraints(d, A, init, n0) + PairConstraints(d, A, ps[|ps| - 1], n0 + 2 * (|ps| - 1));
      forall i | 0 <= i < |init|
        ensures all[2 * i .. 2 * i + 2] == PairConstraints(d, A, ps[i], n0 + 2 * i)
      {
        assert ps[i] == init[i];
        assert all[2 * i .. 2 * i + 2] == GapConstraints(d, A, init, n0)[2 * i .. 2 * i + 2];
      }
    }
  }

  /** Appending pairs appends their declarations. */
  lemma {:induction false} GapDeclsAppend(ps: seq<GapKey>, q: seq<GapKey>)
    ensures GapDecls(ps + q) == GapDecls(ps) + GapDecls(q)
    decreases |q|
  {
    if |q| == 0 {
      assert ps + q == ps;
    } else {
      var init := q[..|q| - 1];
      GapDeclsAppend(ps, init);
      assert (ps + q)[..|ps + q| - 1] == ps + init;
      var last := [VarDecl(Tmp(q[|q| - 1]), -100, 100), VarDecl(AbTmp(q[|q| - 1]), 0, 100)];
      AppendAssoc(GapDecls(ps), GapDecls(init), last);
    }
  }

  /** Appending pairs appends their terms, numbered on from where `ps` ends. */
  lemma {:induction false} GapTermsAppend(ps: seq<GapKey>, q: seq<GapKey>, n0: VarId)
    ensures GapTerms(ps + q, n0) == GapTerms(ps, n0) + GapTerms(q, n0 + 2 * |ps|)
    decreases |q|
  {
    if |q| == 0 {
      assert ps + q == ps;
    } else {
      var init := q[..|q| - 1];
      GapTermsAppend(ps, init, n0);
      assert (ps + q)[..|ps + q| - 1] == ps + init;
      AppendAssoc(GapTerms(ps, n0), GapTerms(init, n0 + 2 * |ps|), [Term(n0 + 2 * (|ps + q| - 1))]);
    }
  }

  /** The constraints of `init + [last]` are those of `init` followed by the last pair's two. */
  lemma {:induction false} GapConstraintsSnoc(d: Data, A: WorkerRegistry, ps: seq<GapKey>, init: seq<GapKey>, last: GapKey,
                                              n0: VarId, id: VarId)
    requires WellFormed(d) && ps == init + [last] && id == n0 + 2 * |init|
    ensures GapConstraints(d, A, ps, n0) == GapConstraints(d, A, init, n0) + PairConstraints(d, A, last, id)
  {
    assert ps[..|ps| - 1] == init && ps[|ps| - 1] == last;
  }

  /** Two valid pair lists concatenate to a valid one. */
  lemma {:induction false} GapKeysValidConcat(d: Data, ps: seq<GapKey>, q: seq<GapKey>)
    requires WellFormed(d) && GapKeysValid(d, ps) && GapKeysValid(d, q)
    ensures GapKeysValid(d, ps + q)
  {
    forall i | 0 <= i < |ps + q| ensures IsGapKey(d, (ps + q)[i]) {
      if i < |ps| { assert (ps + q)[i] == ps[i]; } else { assert (ps + q)[i] == q[i - |ps|]; }
    }
  }

  /** Appending pairs appends their constraints, numbered on from where `ps` ends. */
  lemma {:induction false} GapConstraintsAppend(d: Data, A: WorkerRegistry, ps: seq<GapKey>, q: seq<GapKey>, n0: VarId)
    requires WellFormed(d)
    ensures GapConstraints(d, A, ps + q, n0) == GapConstraints(d, A, ps, n0) + GapConstraints(d, A, q, n0 + 2 * |ps|)
    decreases |q|
  {
    if |q| == 0 {
      assert ps + q == ps;
    } else {
      var init, last := q[..|q| - 1], q[|q| - 1];
      assert q == init + [last];
      assert ps + q == (ps + init) + [last];
      var m, id := n0 + 2 * |ps|, n0 + 2 * |ps| + 2 * |init|;
      GapConstraintsSnoc(d, A, q, init, last, m, id);
      GapConstraintsSnoc(d, A, ps + q, ps + init, last, n0, id);
      GapConstraintsAppend(d, A, ps, init, n0);
      AppendAssoc(GapConstraints(d, A, ps, n0), GapConstraints(d, A, init, m), PairConstraints(d, A, last, id));
    }
  }

  // ---- 2. Diversity (Problem.cs:302-320) ----

  /** Worker `w`'s variables over the stages below `m` of shift `sh`. */
  function ShiftWorkerLiterals(d: Data, A: WorkerRegistry, w: int, sh: int, m: int): seq<VarId>
    requires WellFormed(d) && WorkerVarsDefined(d, A)
    requires 0 <= w < d.NumOfWorkers && 0 <= sh < d.NumOfShifts && m <= d.NumOfStages
    decreases m
  {
    if m <= 0 then []
    else ShiftWorkerLiterals(d, A, w, sh, m - 1) + (if Qualifies(d, sh, m - 1, w) then [A[(sh, m - 1, w)]] else [])
  }

  /** Worker `w`'s variables over the shifts below `n`, shift-major. */
  function WorkerLiterals(d: Data, A: WorkerRegistry, w: int, n: int): seq<VarId>
    requires WellFormed(d) && WorkerVarsDefined(d, A) && 0 <= w < d.NumOfWorkers && n <= d.NumOfShifts
    decreases n
  {
    if n <= 0 then [] else WorkerLiterals(d, A, w, n - 1) + ShiftWorkerLiterals(d, A, w, n - 1, d.NumOfStages)
  }

  /** One sum per worker below `n`. */
  function DiversityTerms(d: Data, A: WorkerRegistry, n: int): seq<LinearExpr>
    requires WellFormed(d) && WorkerVarsDefined(d, A) && n <= d.NumOfWorkers
    decreases n
  {
    if n <= 0 then [] else DiversityTerms(d, A, n - 1) + [Sum(WorkerLiterals(d, A, n - 1, d.NumOfShifts))]
  }

  /** Only worker `w`'s own variables of shift `sh` go into the shift's part of its sum. */
  lemma {:induction false} ShiftWorkerLiteralsSound(d: Data, A: WorkerRegistry, w: int, sh: int, m: int, x: VarId)
    returns (st: int)
    requires WellFormed(d) && WorkerVarsDefined(d, A)
    requires 0 <= w < d.NumOfWorkers && 0 <= sh < d.NumOfShifts && m <= d.NumOfStages
    requires x in ShiftWorkerLiterals(d, A, w, sh, m)
    ensures 0 <= st < m && IsWorkerKey(d, (sh, st, w)) && x == A[(sh, st, w)]
  {
    if m > 0 {
      var left := ShiftWorkerLiterals(d, A, w, sh, m - 1);
      var right := if Qualifies(d, sh, m - 1, w) then [A[(sh, m - 1, w)]] else [];
      InParts(x, ShiftWorkerLiterals(d, A, w, sh, m), left, right);
      if x in left {
        st := ShiftWorkerLiteralsSound(d, A, w, sh, m - 1, x);
      } else {
        st := m - 1;
      }
    }
  }

  /** Only worker `w`'s own existing variables go into its sum. */
  lemma {:induction false} WorkerLiteralsSound(d: Data, A: WorkerRegistry, w: int, n: int, x: VarId)
    returns (sh: int, st: int)
    requires WellFormed(d) && WorkerVarsDefined(d, A) && 0 <= w < d.NumOfWorkers && n <= d.NumOfShifts
    requires x in WorkerLiterals(d, A, w, n)
    ensures 0 <= sh < n && 0 <= st < d.NumOfStages && IsWorkerKey(d, (sh, st, w)) && x == A[(sh, st, w)]
  {
    if n > 0 {
      var left, right := WorkerLiterals(d, A, w, n - 1), ShiftWorkerLiterals(d, A, w, n - 1, d.NumOfStages);
      InParts(x, WorkerLiterals(d, A, w, n), left, right);
      if x in left {
        sh, st := WorkerLiteralsSound(d, A, w, n - 1, x);
      } else {
        st := ShiftWorkerLiteralsSound(d, A, w, n - 1, d.NumOfStages, x);
        sh := n - 1;
      }
    }
  }

  /** Every existing variable of worker `w` goes into its sum. */
  lemma {:induction false} WorkerLiteralsComplete(d: Data, A: WorkerRegistry, w: int, n: int, sh: int, st: int)
    requires WellFormed(d) && WorkerVarsDefined(d, A) && 0 <= w < d.NumOfWorkers && n <= d.NumOfShifts
    requires 0 <= sh < n && 0 <= st < d.NumOfStages && Qualifies(d, sh, st, w)
    ensures A[(sh, st, w)] in WorkerLiterals(d, A, w, n)
  {
    var whole, left, right := WorkerLiterals(d, A, w, n), WorkerLiterals(d, A, w, n - 1), ShiftWorkerLiterals(d, A, w, n - 1, d.NumOfStages);
    if sh < n - 1 {
      WorkerLiteralsComplete(d, A, w, n - 1, sh, st);
      InConcat(A[(sh, st, w)], whole, left, right);
    } else {
      ShiftWorkerLiteralsComplete(d, A, w, sh, d.NumOfStages, st);
      InConcat(A[(sh, st, w)], whole, left, right);
    }
  }

  lemma {:induction false} ShiftWorkerLiteralsComplete(d: Data, A: WorkerRegistry, w: int, sh: int, m: int, st: int)
    requires WellFormed(d) && WorkerVarsDefined(d, A) && 0 <= w < d.NumOfWorkers && 0 <= sh < d.NumOfShifts
    requires 0 <= st < m <= d.NumOfStages && Qualifies(d, sh, st, w)
    ensures A[(sh, st, w)] in ShiftWorkerLiterals(d, A, w, sh, m)
  {
    var whole, left := ShiftWorkerLiterals(d, A, w, sh, m), ShiftWorkerLiterals(d, A, w, sh, m - 1);
    var right := if Qualifies(d, sh, m - 1, w) then [A[(sh, m - 1, w)]] else [];
    if st < m - 1 {
      ShiftWorkerLiteralsComplete(d, A, w, sh, m - 1, st);
      InConcat(A[(sh, st, w)], whole, left, right);
    } else {
      assert right == [A[(sh, st, w)]];
      InConcat(A[(sh, st, w)], whole, left, right);
    }
  }

  /** No variable of shift `sh` enters worker `w`'s sum twice, when distinct keys name distinct variables. */
  lemma {:induction false} ShiftWorkerLiteralsDistinct(d: Data, A: WorkerRegistry, w: int, sh: int, m: int)
    requires WellFormed(d) && WorkerVarsDefined(d, A) && WorkerInjective(A)
    requires 0 <= w < d.NumOfWorkers && 0 <= sh < d.NumOfShifts && m <= d.NumOfStages
    ensures Distinct(ShiftWorkerLiterals(d, A, w, sh, m))
    decreases m
  {
    if m > 0 {
      var left := ShiftWorkerLiterals(d, A, w, sh, m - 1);
      var right := if Qualifies(d, sh, m - 1, w) then [A[(sh, m - 1, w)]] else [];
      ShiftWorkerLiteralsDistinct(d, A, w, sh, m - 1);
      forall x | x in left
        ensures x !in right
      {
        // x is the variable of a stage below m - 1, whose key differs from (sh, m - 1, w)
        var st := ShiftWorkerLiteralsSound(d, A, w, sh, m - 1, x);
      }
      DistinctConcat(ShiftWorkerLiterals(d, A, w, sh, m), left, right);
    }
  }

  /** No variable enters worker `w`'s sum twice, so the sum counts each assignment once. */
  lemma {:induction false} WorkerLiteralsDistinct(d: Data, A: WorkerRegistry, w: int, n: int)
    requires WellFormed(d) && WorkerVarsDefined(d, A) && WorkerInjective(A)
    requires 0 <= w < d.NumOfWorkers && n <= d.NumOfShifts
    ensures Distinct(WorkerLiterals(d, A, w, n))
    decreases n
  {
    if n > 0 {
      var left, right := WorkerLiterals(d, A, w, n - 1), ShiftWorkerLiterals(d, A, w, n - 1, d.NumOfStages);
      WorkerLiteralsDistinct(d, A, w, n - 1);
      ShiftWorkerLiteralsDistinct(d, A, w, n - 1, d.NumOfStages);
      forall x | x in left
        ensures x !in right
      {
        // earlier shifts' keys differ from every key of shift n - 1
        var sh, st := WorkerLiteralsSound(d, A, w, n - 1, x);
        if x in right {
          var st2 := ShiftWorkerLiteralsSound(d, A, w, n - 1, d.NumOfStages, x);
        }
      }
      DistinctConcat(WorkerLiterals(d, A, w, n), left, right);
    }
  }

  /** For the registry VariableDefinition builds, no worker's sum repeats a variable. */
  lemma {:induction false} DiversityLiteralsDistinct(d: Data, A: WorkerRegistry, E: EquipmentRegistry, vars: seq<VarDecl>)
    requires WellFormed(d) && WorkerVarsDefined(d, A) && RegistryDeclared(A, E, vars)
    ensures forall w :: 0 <= w < d.NumOfWorkers ==> Distinct(WorkerLiterals(d, A, w, d.NumOfShifts))
  {
    RegistryInjective(A, E, vars);
    forall w | 0 <= w < d.NumOfWorkers
      ensures Distinct(WorkerLiterals(d, A, w, d.NumOfShifts))
    {
      WorkerLiteralsDistinct(d, A, w, d.NumOfShifts);
    }
  }

  /** The i-th diversity term is the sum of worker i's literals. */
  lemma {:induction false} DiversityTermsAt(d: Data, A: WorkerRegistry, n: int)
    requires WellFormed(d) && WorkerVarsDefined(d, A) && 0 <= n <= d.NumOfWorkers
    ensures |DiversityTerms(d, A, n)| == n
    ensures forall w :: 0 <= w < n ==> DiversityTerms(d, A, n)[w] == Sum(WorkerLiterals(d, A, w, d.NumOfShifts))
  {
    if n > 0 {
      DiversityTermsAt(d, A, n - 1);
    }
  }

  // ---- The gap log, as state changes ----

  /** From (v0, c0, g0), the pairs `ps` took the variable, constraint and gap-term logs to (v, c, g). */
  ghost predicate GapLog(d: Data, A: WorkerRegistry, ps: seq<GapKey>,
                         v0: seq<VarDecl>, c0: seq<Constraint>, g0: seq<LinearExpr>,
                         v: seq<VarDecl>, c: seq<Constraint>, g: seq<LinearExpr>)
    requires WellFormed(d) && WorkerVarsDefined(d, A) && GapKeysValid(d, ps)
  {
    v == v0 + GapDecls(ps) && c == c0 + GapConstraints(d, A, ps, |v0|) && g == g0 + GapTerms(ps, |v0|)
  }

  /** One pair: its tmp and abTmp, its two constraints, its tmp as a gap term. */
  lemma {:induction false} GapLogSingle(d: Data, A: WorkerRegistry, p: GapKey, v0: seq<VarDecl>, c0: seq<Constraint>, g0: seq<LinearExpr>)
    requires WellFormed(d) && WorkerVarsDefined(d, A) && IsGapKey(d, p)
    ensures GapKeysValid(d, [p])
    ensures GapLog(d, A, [p], v0, c0, g0,
                   v0 + [VarDecl(Tmp(p), -100, 100), VarDecl(AbTmp(p), 0, 100)],
                   c0 + PairConstraints(d, A, p, |v0|), g0 + [Term(|v0|)])
  {
    assert [p][..0] == [];
  }

  /** Two steps of gap logging compose into one. */
  lemma {:induction false} GapLogAppend(d: Data, A: WorkerRegistry, ps: seq<GapKey>, q: seq<GapKey>,
                     v0: seq<VarDecl>, c0: seq<Constraint>, g0: seq<LinearExpr>,
                     v1: seq<VarDecl>, c1: seq<Constraint>, g1: seq<LinearExpr>,
                     v2: seq<VarDecl>, c2: seq<Constraint>, g2: seq<LinearExpr>)
    requires WellFormed(d) && WorkerVarsDefined(d, A) && GapKeysValid(d, ps) && GapKeysValid(d, q)
    requires GapLog(d, A, ps, v0, c0, g0, v1, c1, g1) && GapLog(d, A, q, v1, c1, g1, v2, c2, g2)
    ensures GapKeysValid(d, ps + q) && GapLog(d, A, ps + q, v0, c0, g0, v2, c2, g2)
  {
    // the three Append lemmas carry the proof; keep the sections folded
    hide GapDecls, GapTerms, GapConstraints, PairConstraints;
    GapDeclsAt(ps);
    GapDeclsAppend(ps, q);
    GapTermsAppend(ps, q, |v0|);
    GapKeysValidConcat(d, ps, q);
    GapConstraintsAppend(d, A, ps, q, |v0|);
    AppendAssoc(v0, GapDecls(ps), GapDecls(q));
    AppendAssoc(c0, GapConstraints(d, A, ps, |v0|), GapConstraints(d, A, q, |v1|));
    AppendAssoc(g0, GapTerms(ps, |v0|), GapTerms(q, |v1|));
  }

  /** The `ow` loop's step: a qualifying second worker logs one more pair. */
  lemma {:induction false} GapLogNextOther(d: Data, A: WorkerRegistry, sh: int, ln: int, st: int, w: int, ow: int,
                        v0: seq<VarDecl>, c0: seq<Constraint>, g0: seq<LinearExpr>,
                        v1: seq<VarDecl>, c1: seq<Constraint>, g1: seq<LinearExpr>)
    requires WellFormed(d) && WorkerVarsDefined(d, A)
    requires 0 <= sh < d.NumOfShifts && 0 <= ln < d.NumOfLines && 0 <= st < d.NumOfStages
    requires 0 <= w < ow < d.NumOfWorkers && d.LineStage[ln][st] > 0
    requires Qualifies(d, sh, st, w) && Qualifies(d, sh, st, ow)
    requires GapKeysValid(d, OtherGapKeys(d, sh, ln, st, w, ow))
    requires GapLog(d, A, OtherGapKeys(d, sh, ln, st, w, ow), v0, c0, g0, v1, c1, g1)
    ensures GapKeysValid(d, OtherGapKeys(d, sh, ln, st, w, ow + 1))
    ensures GapLog(d, A, OtherGapKeys(d, sh, ln, st, w, ow + 1), v0, c0, g0,
                   v1 + [VarDecl(Tmp(GapKey(sh, ln, st, w, ow)), -100, 100)] + [VarDecl(AbTmp(GapKey(sh, ln, st, w, ow)), 0, 100)],
                   c1 + [EqualIf(|v1|, d.WorkerStageProductivityScore[st][w] - d.WorkerStageProductivityScore[st][ow],
                                 [A[(sh, st, w)], A[(sh, st, ow)]])]
                      + [AbsEquality(|v1| + 1, |v1|)],
                   g1 + [Term(|v1|)])
  {
    var p := GapKey(sh, ln, st, w, ow);
    GapLogSingle(d, A, p, v1, c1, g1);
    GapLogAppend(d, A, OtherGapKeys(d, sh, ln, st, w, ow), [p], v0, c0, g0, v1, c1, g1,
                 v1 + [VarDecl(Tmp(p), -100, 100), VarDecl(AbTmp(p), 0, 100)],
                 c1 + PairConstraints(d, A, p, |v1|), g1 + [Term(|v1|)]);
    AppendAssoc(v1, [VarDecl(Tmp(p), -100, 100)], [VarDecl(AbTmp(p), 0, 100)]);
    AppendAssoc(c1, [PairConstraints(d, A, p, |v1|)[0]], [PairConstraints(d, A, p, |v1|)[1]]);
  }

  /** The `w` loop's step: a qualifying first worker logs its `ow` pairs. */
  lemma {:induction false} GapLogNextWorker(d: Data, A: WorkerRegistry, sh: int, ln: int, st: int, w: int,
                         v0: seq<VarDecl>, c0: seq<Constraint>, g0: seq<LinearExpr>,
                         v1: seq<VarDecl>, c1: seq<Constraint>, g1: seq<LinearExpr>,
                         v2: seq<VarDecl>, c2: seq<Constraint>, g2: seq<LinearExpr>)
    requires WellFormed(d) && WorkerVarsDefined(d, A)
    requires 0 <= sh < d.NumOfShifts && 0 <= ln < d.NumOfLines && 0 <= st < d.NumOfStages
    requires 0 <= w < d.NumOfWorkers - 1 && Qualifies(d, sh, st, w)
    requires GapKeysValid(d, WorkerGapKeys(d, sh, ln, st, w))
    requires GapKeysValid(d, OtherGapKeys(d, sh, ln, st, w, d.NumOfWorkers))
    requires GapLog(d, A, WorkerGapKeys(d, sh, ln, st, w), v0, c0, g0, v1, c1, g1)
    requires GapLog(d, A, OtherGapKeys(d, sh, ln, st, w, d.NumOfWorkers), v1, c1, g1, v2, c2, g2)
    ensures GapKeysValid(d, WorkerGapKeys(d, sh, ln, st, w + 1))
    ensures GapLog(d, A, WorkerGapKeys(d, sh, ln, st, w + 1), v0, c0, g0, v2, c2, g2)
  {
    // GapLogAppend carries the proof; keep the appended key list and the sections folded
    hide OtherGapKeys, GapDecls, GapConstraints, GapTerms;
    GapLogAppend(d, A, WorkerGapKeys(d, sh, ln, st, w), OtherGapKeys(d, sh, ln, st, w, d.NumOfWorkers),
                 v0, c0, g0, v1, c1, g1, v2, c2, g2);
  }

  /** The `st` loop's step: a stage the line runs logs its `w` pairs. */
  lemma {:induction false} GapLogNextStage(d: Data, A: WorkerRegistry, sh: int, ln: int, st: int,
                        v0: seq<VarDecl>, c0: seq<Constraint>, g0: seq<LinearExpr>,
                        v1: seq<VarDecl>, c1: seq<Constraint>, g1: seq<LinearExpr>,
                        v2: seq<VarDecl>, c2: seq<Constraint>, g2: seq<LinearExpr>)
    requires WellFormed(d) && WorkerVarsDefined(d, A)
    requires 0 <= sh < d.NumOfShifts && 0 <= ln < d.NumOfLines && 0 <= st < d.NumOfStages
    requires d.LineStage[ln][st] > 0
    requires GapKeysValid(d, StageGapKeys(d, sh, ln, st))
    requires GapKeysValid(d, WorkerGapKeys(d, sh, ln, st, d.NumOfWorkers - 1))
    requires GapLog(d, A, StageGapKeys(d, sh, ln, st), v0, c0, g0, v1, c1, g1)
    requires GapLog(d, A, WorkerGapKeys(d, sh, ln, st, d.NumOfWorkers - 1), v1, c1, g1, v2, c2, g2)
    ensures GapKeysValid(d, StageGapKeys(d, sh, ln, st + 1))
    ensures GapLog(d, A, StageGapKeys(d, sh, ln, st + 1), v0, c0, g0, v2, c2, g2)
  {
    // GapLogAppend carries the proof; keep the appended key list and the sections folded
    hide WorkerGapKeys, OtherGapKeys, GapDecls, GapConstraints, GapTerms;
    GapLogAppend(d, A, StageGapKeys(d, sh, ln, st), WorkerGapKeys(d, sh, ln, st, d.NumOfWorkers - 1),
                 v0, c0, g0, v1, c1, g1, v2, c2, g2);
  }

  /** A second worker who does not qualify logs nothing. */
  lemma {:induction false} GapLogSkipOther(d: Data, A: WorkerRegistry, sh: int, ln: int, st: int, w: int, ow: int,
                        v0: seq<VarDecl>, c0: seq<Constraint>, g0: seq<LinearExpr>,
                        v: seq<VarDecl>, c: seq<Constraint>, g: seq<LinearExpr>)
    requires WellFormed(d) && WorkerVarsDefined(d, A)
    requires 0 <= sh < d.NumOfShifts && 0 <= st < d.NumOfStages && 0 <= w < ow < d.NumOfWorkers
    requires !Qualifies(d, sh, st, ow)
    requires GapKeysValid(d, OtherGapKeys(d, sh, ln, st, w, ow))
    requires GapLog(d, A, OtherGapKeys(d, sh, ln, st, w, ow), v0, c0, g0, v, c, g)
    ensures GapKeysValid(d, OtherGapKeys(d, sh, ln, st, w, ow + 1))
    ensures GapLog(d, A, OtherGapKeys(d, sh, ln, st, w, ow + 1), v0, c0, g0, v, c, g)
  {
    assert OtherGapKeys(d, sh, ln, st, w, ow + 1) == OtherGapKeys(d, sh, ln, st, w, ow);
  }

  /** A first worker who does not qualify logs nothing. */
  lemma {:induction false} GapLogSkipWorker(d: Data, A: WorkerRegistry, sh: int, ln: int, st: int, w: int,
                         v0: seq<VarDecl>, c0: seq<Constraint>, g0: seq<LinearExpr>,
                         v: seq<VarDecl>, c: seq<Constraint>, g: seq<LinearExpr>)
    requires WellFormed(d) && WorkerVarsDefined(d, A)
    requires 0 <= sh < d.NumOfShifts && 0 <= st < d.NumOfStages && 0 <= w < d.NumOfWorkers - 1
    requires !Qualifies(d, sh, st, w)
    requires GapKeysValid(d, WorkerGapKeys(d, sh, ln, st, w))
    requires GapLog(d, A, WorkerGapKeys(d, sh, ln, st, w), v0, c0, g0, v, c, g)
    ensures GapKeysValid(d, WorkerGapKeys(d, sh, ln, st, w + 1))
    ensures GapLog(d, A, WorkerGapKeys(d, sh, ln, st, w + 1), v0, c0, g0, v, c, g)
  {
    assert WorkerGapKeys(d, sh, ln, st, w + 1) == WorkerGapKeys(d, sh, ln, st, w);
  }

  /** A stage the line does not run logs nothing. */
  lemma {:induction false} GapLogSkipStage(d: Data, A: WorkerRegistry, sh: int, ln: int, st: int,
                        v0: seq<VarDecl>, c0: seq<Constraint>, g0: seq<LinearExpr>,
                        v: seq<VarDecl>, c: seq<Constraint>, g: seq<LinearExpr>)
    requires WellFormed(d) && WorkerVarsDefined(d, A)
    requires 0 <= sh < d.NumOfShifts && 0 <= ln < d.NumOfLines && 0 <= st < d.NumOfStages
    requires d.LineStage[ln][st] <= 0
    requires GapKeysValid(d, StageGapKeys(d, sh, ln, st))
    requires GapLog(d, A, StageGapKeys(d, sh, ln, st), v0, c0, g0, v, c, g)
    ensures GapKeysValid(d, StageGapKeys(d, sh, ln, st + 1))
    ensures GapLog(d, A, StageGapKeys(d, sh, ln, st + 1), v0, c0, g0, v, c, g)
  {
    assert StageGapKeys(d, sh, ln, st + 1) == StageGapKeys(d, sh, ln, st);
  }

  /** The `ln` loop's step: a line logs its `st` pairs. */
  lemma {:induction false} GapLogNextLine(d: Data, A: WorkerRegistry, sh: int, ln: int,
                       v0: seq<VarDecl>, c0: seq<Constraint>, g0: seq<LinearExpr>,
                       v1: seq<VarDecl>, c1: seq<Constraint>, g1: seq<LinearExpr>,
                       v2: seq<VarDecl>, c2: seq<Constraint>, g2: seq<LinearExpr>)
    requires WellFormed(d) && WorkerVarsDefined(d, A)
    requires 0 <= sh < d.NumOfShifts && 0 <= ln < d.NumOfLines
    requires GapKeysValid(d, LineGapKeys(d, sh, ln))
    requires GapKeysValid(d, StageGapKeys(d, sh, ln, d.NumOfStages))
    requires GapLog(d, A, LineGapKeys(d, sh, ln), v0, c0, g0, v1, c1, g1)
    requires GapLog(d, A, StageGapKeys(d, sh, ln, d.NumOfStages), v1, c1, g1, v2, c2, g2)
    ensures GapKeysValid(d, LineGapKeys(d, sh, ln + 1))
    ensures GapLog(d, A, LineGapKeys(d, sh, ln + 1), v0, c0, g0, v2, c2, g2)
  {
    GapLogAppend(d, A, LineGapKeys(d, sh, ln), StageGapKeys(d, sh, ln, d.NumOfStages),
                 v0, c0, g0, v1, c1, g1, v2, c2, g2);
  }

  /** The `sh` loop's step: a shift logs its `ln` pairs. */
  lemma {:induction false} GapLogNextShift(d: Data, A: WorkerRegistry, sh: int,
                        v0: seq<VarDecl>, c0: seq<Constraint>, g0: seq<LinearExpr>,
                        v1: seq<VarDecl>, c1: seq<Constraint>, g1: seq<LinearExpr>,
                        v2: seq<VarDecl>, c2: seq<Constraint>, g2: seq<LinearExpr>)
    requires WellFormed(d) && WorkerVarsDefined(d, A) && 0 <= sh < d.NumOfShifts
    requires GapKeysValid(d, GapKeys(d, sh))
    requires GapKeysValid(d, LineGapKeys(d, sh, d.NumOfLines))
    requires GapLog(d, A, GapKeys(d, sh), v0, c0, g0, v1, c1, g1)
    requires GapLog(d, A, LineGapKeys(d, sh, d.NumOfLines), v1, c1, g1, v2, c2, g2)
    ensures GapKeysValid(d, GapKeys(d, sh + 1))
    ensures GapLog(d, A, GapKeys(d, sh + 1), v0, c0, g0, v2, c2, g2)
  {
    GapLogAppend(d, A, GapKeys(d, sh), LineGapKeys(d, sh, d.NumOfLines), v0, c0, g0, v1, c1, g1, v2, c2, g2);
  }

  // ---- The sections ObjectiveDefinition appends ----

  /** The gap pairs created, when objective 0 is active. */
  function GapSection(d: Data): seq<GapKey>
    requires WellFormed(d)
  {
    if d.Activate[0] > 0 then GapKeys(d, d.NumOfShifts) else []
  }

  /** The diversity sums added, when objective 1 is active. */
  function DiversitySection(d: Data, A: WorkerRegistry): seq<LinearExpr>
    requires WellFormed(d) && WorkerVarsDefined(d, A)
  {
    if d.Activate[1] > 0 then DiversityTerms(d, A, d.NumOfWorkers) else []
  }

  /** The constraints objective 2 re-emits: the day-grouping pass once per line. */
  function ProductivitySection(d: Data, A: WorkerRegistry): seq<Constraint>
    requires WellFormed(d) && WorkerVarsDefined(d, A)
  {
    if d.Activate[2] > 0 then Repeat(DayGroups(d, A, d.NumOfStages), d.NumOfLines) else []
  }

  /** The variables ObjectiveDefinition appends, from `v0` on, when it creates the pairs `ps`. */
  function ObjectiveVars(v0: seq<VarDecl>, ps: seq<GapKey>): seq<VarDecl>
  {
    v0 + GapDecls(ps) + [VarDecl(TotalDiversity, 0, IntMaxValue), VarDecl(TotalGaps, 0, IntMaxValue)]
  }

  /**
   * The minimised variable, |v0| + 2|ps| + 1, is the TotalGaps total, and the
   * total before it is TotalDiversity, which the objective does not mention.
   */
  lemma {:induction false} ObjectiveTargetsTotalGaps(v0: seq<VarDecl>, ps: seq<GapKey>)
    ensures |ObjectiveVars(v0, ps)| == |v0| + 2 * |ps| + 2
    ensures ObjectiveVars(v0, ps)[|v0| + 2 * |ps| + 1] == VarDecl(TotalGaps, 0, IntMaxValue)
    ensures ObjectiveVars(v0, ps)[|v0| + 2 * |ps|] == VarDecl(TotalDiversity, 0, IntMaxValue)
  {
    GapDeclsAt(ps);
  }

  /**
   * Every gap term names the tmp variable of its pair, bounded by [-100, 100],
   * never the absolute-value variable abTmp.
   */
  lemma {:induction false} GapTotalSumsTmp(v0: seq<VarDecl>, ps: seq<GapKey>)
    ensures |GapTerms(ps, |v0|)| == |ps|
    ensures forall i :: 0 <= i < |ps| ==>
              GapTerms(ps, |v0|)[i].Term? && GapTerms(ps, |v0|)[i].v < |ObjectiveVars(v0, ps)| &&
              ObjectiveVars(v0, ps)[GapTerms(ps, |v0|)[i].v] == VarDecl(Tmp(ps[i]), -100, 100)
  {
    GapDeclsAt(ps);
    GapTermsAt(ps, |v0|);
    forall i | 0 <= i < |ps|
      ensures ObjectiveVars(v0, ps)[|v0| + 2 * i] == VarDecl(Tmp(ps[i]), -100, 100)
    {
      assert ObjectiveVars(v0, ps)[|v0| + 2 * i] == GapDecls(ps)[2 * i];
    }
  }
}
