/**
 * How often ConstraintDefinition (Problem.cs:78-260) emits each record: the
 * single-stage and exclusivity sections hold every guarded pair exactly once,
 * and within one shift the requirement block holds one record per (line,
 * function) with a positive requirement, in loop order.
 */
module ConstraintCounts {
  import opened ManPowerData
  import opened CpSat
  import opened Variables
  import opened Constraints
  import opened ConstraintFacts

  // ---- 2. One stage per worker and shift (Problem.cs:99-116) ----

  /** With distinct keys on distinct variables, a pair record determines its worker, shift and stages. */
  lemma {:induction false} StagePairKey(d: Data, A: WorkerRegistry, w: int, sh: int, st: int, ost: int,
                                        w2: int, sh2: int, st2: int, ost2: int)
    requires WellFormed(d) && WorkerVarsDefined(d, A) && WorkerInjective(A)
    requires IsWorkerKey(d, (sh, st, w)) && IsWorkerKey(d, (sh, ost, w))
    requires IsWorkerKey(d, (sh2, st2, w2)) && IsWorkerKey(d, (sh2, ost2, w2))
    ensures StagePair(d, A, w, sh, st, ost) == StagePair(d, A, w2, sh2, st2, ost2) ==>
              w == w2 && sh == sh2 && st == st2 && ost == ost2
  {
    if StagePair(d, A, w, sh, st, ost) == StagePair(d, A, w2, sh2, st2, ost2) {
      assert A[(sh, st, w)] == StagePair(d, A, w, sh, st, ost).lits[0] == A[(sh2, st2, w2)];
      assert A[(sh, ost, w)] == StagePair(d, A, w, sh, st, ost).lits[1] == A[(sh2, ost2, w2)];
    }
  }

  /** The `ost` loop emits no record twice. */
  lemma {:induction false} OtherStagePairsDistinct(d: Data, A: WorkerRegistry, w: int, sh: int, st: int, n: int)
    requires WellFormed(d) && WorkerVarsDefined(d, A) && WorkerInjective(A)
    requires 0 <= w < d.NumOfWorkers && 0 <= sh < d.NumOfShifts && 0 <= st < d.NumOfStages && n <= d.NumOfStages
    ensures Distinct(OtherStagePairs(d, A, w, sh, st, n))
    decreases n
  {
    // the lemmas called below describe the inner sections; keep their bodies folded
    hide StagePair, WorkerInjective;
    if n > st + 1 {
      var left := OtherStagePairs(d, A, w, sh, st, n - 1);
      var right := if PairGuard(d, w, sh, st, n - 1) then [StagePair(d, A, w, sh, st, n - 1)] else [];
      OtherStagePairsDistinct(d, A, w, sh, st, n - 1);
      forall c | c in left
        ensures c !in right
      {
        var ost := OtherStagePairsSound(d, A, w, sh, st, n - 1, c);
        if PairGuard(d, w, sh, st, n - 1) {
          StagePairKey(d, A, w, sh, st, ost, w, sh, st, n - 1);
        }
      }
      DistinctConcat(OtherStagePairs(d, A, w, sh, st, n), left, right);
    }
  }

  /** A record of a first stage below n - 1 is not one of first stage n - 1. */
  lemma {:induction false} ShiftStagePairsApart(d: Data, A: WorkerRegistry, w: int, sh: int, n: int, c: Constraint)
    requires WellFormed(d) && WorkerVarsDefined(d, A) && WorkerInjective(A)
    requires 0 <= w < d.NumOfWorkers && 0 <= sh < d.NumOfShifts && 0 < n <= d.NumOfStages
    requires c in ShiftStagePairs(d, A, w, sh, n - 1)
    ensures c !in OtherStagePairs(d, A, w, sh, n - 1, d.NumOfStages)
  {
    // only the contracts of the lemmas called below are needed
    hide ShiftStagePairs, OtherStagePairs, StagePair, WorkerInjective;
    var st, ost := ShiftStagePairsSound(d, A, w, sh, n - 1, c);
    var later := OtherStagePairs(d, A, w, sh, n - 1, d.NumOfStages);
    forall c2 | c2 in later
      ensures c2 != c
    {
      var ost2 := OtherStagePairsSound(d, A, w, sh, n - 1, d.NumOfStages, c2);
      StagePairKey(d, A, w, sh, st, ost, w, sh, n - 1, ost2);
    }
  }

  /** One worker and shift emit no record twice. */
  lemma {:induction false} ShiftStagePairsDistinct(d: Data, A: WorkerRegistry, w: int, sh: int, n: int)
    requires WellFormed(d) && WorkerVarsDefined(d, A) && WorkerInjective(A)
    requires 0 <= w < d.NumOfWorkers && 0 <= sh < d.NumOfShifts && n <= d.NumOfStages
    ensures Distinct(ShiftStagePairs(d, A, w, sh, n))
    decreases n
  {
    // the lemmas called below describe the inner sections; keep their bodies folded
    hide OtherStagePairs, StagePair, WorkerInjective;
    if n > 0 {
      var left, right := ShiftStagePairs(d, A, w, sh, n - 1), OtherStagePairs(d, A, w, sh, n - 1, d.NumOfStages);
      ShiftStagePairsDistinct(d, A, w, sh, n - 1);
      OtherStagePairsDistinct(d, A, w, sh, n - 1, d.NumOfStages);
      forall c | c in left
        ensures c !in right
      {
        ShiftStagePairsApart(d, A, w, sh, n, c);
      }
      DistinctConcat(ShiftStagePairs(d, A, w, sh, n), left, right);
    }
  }

  /** A record of a shift below n - 1 is not one of shift n - 1. */
  lemma {:induction false} WorkerStagePairsApart(d: Data, A: WorkerRegistry, w: int, n: int, c: Constraint)
    requires WellFormed(d) && WorkerVarsDefined(d, A) && WorkerInjective(A)
    requires 0 <= w < d.NumOfWorkers && 0 < n <= d.NumOfShifts
    requires c in WorkerStagePairs(d, A, w, n - 1)
    ensures c !in ShiftStagePairs(d, A, w, n - 1, d.NumOfStages - 1)
  {
    // only the contracts of the lemmas called below are needed
    hide WorkerStagePairs, ShiftStagePairs, OtherStagePairs, StagePair, WorkerInjective;
    var sh, st, ost := WorkerStagePairsSound(d, A, w, n - 1, c);
    var later := ShiftStagePairs(d, A, w, n - 1, d.NumOfStages - 1);
    forall c2 | c2 in later
      ensures c2 != c
    {
      var st2, ost2 := ShiftStagePairsSound(d, A, w, n - 1, d.NumOfStages - 1, c2);
      StagePairKey(d, A, w, sh, st, ost, w, n - 1, st2, ost2);
    }
  }

  /** One worker emits no record twice. */
  lemma {:induction false} WorkerStagePairsDistinct(d: Data, A: WorkerRegistry, w: int, n: int)
    requires WellFormed(d) && WorkerVarsDefined(d, A) && WorkerInjective(A)
    requires 0 <= w < d.NumOfWorkers && n <= d.NumOfShifts
    ensures Distinct(WorkerStagePairs(d, A, w, n))
    decreases n
  {
    // the lemmas called below describe the inner sections; keep their bodies folded
    hide ShiftStagePairs, OtherStagePairs, StagePair, WorkerInjective;
    if n > 0 {
      var left, right := WorkerStagePairs(d, A, w, n - 1), ShiftStagePairs(d, A, w, n - 1, d.NumOfStages - 1);
      WorkerStagePairsDistinct(d, A, w, n - 1);
      ShiftStagePairsDistinct(d, A, w, n - 1, d.NumOfStages - 1);
      forall c | c in left
        ensures c !in right
      {
        WorkerStagePairsApart(d, A, w, n, c);
      }
      DistinctConcat(WorkerStagePairs(d, A, w, n), left, right);
    }
  }

  /** A record of a worker below n - 1 is not one of worker n - 1. */
  lemma {:induction false} SingleStageApart(d: Data, A: WorkerRegistry, n: int, c: Constraint)
    requires WellFormed(d) && WorkerVarsDefined(d, A) && WorkerInjective(A) && 0 < n <= d.NumOfWorkers
    requires c in SingleStage(d, A, n - 1)
    ensures c !in WorkerStagePairs(d, A, n - 1, d.NumOfShifts)
  {
    // only the contracts of the lemmas called below are needed
    hide SingleStage, WorkerStagePairs, ShiftStagePairs, OtherStagePairs, StagePair, WorkerInjective;
    var w, sh, st, ost := SingleStageSound(d, A, n - 1, c);
    var later := WorkerStagePairs(d, A, n - 1, d.NumOfShifts);
    forall c2 | c2 in later
      ensures c2 != c
    {
      var sh2, st2, ost2 := WorkerStagePairsSound(d, A, n - 1, d.NumOfShifts, c2);
      StagePairKey(d, A, w, sh, st, ost, n - 1, sh2, st2, ost2);
    }
  }

  /**
   * The single-stage section emits no record twice; with SingleStageSound and
   * SingleStageComplete, every guarded (w, sh, st < ost) has exactly one AtMostOne.
   */
  lemma {:induction false} SingleStageDistinct(d: Data, A: WorkerRegistry, n: int)
    requires WellFormed(d) && WorkerVarsDefined(d, A) && WorkerInjective(A) && n <= d.NumOfWorkers
    ensures Distinct(SingleStage(d, A, n))
    decreases n
  {
    // the lemmas called below describe the inner sections; keep their bodies folded
    hide WorkerStagePairs, ShiftStagePairs, OtherStagePairs, StagePair, WorkerInjective;
    if n > 0 {
      var left, right := SingleStage(d, A, n - 1), WorkerStagePairs(d, A, n - 1, d.NumOfShifts);
      SingleStageDistinct(d, A, n - 1);
      WorkerStagePairsDistinct(d, A, n - 1, d.NumOfShifts);
      forall c | c in left
        ensures c !in right
      {
        SingleStageApart(d, A, n, c);
      }
      DistinctConcat(SingleStage(d, A, n), left, right);
    }
  }

  // ---- 5. Equipment exclusivity (Problem.cs:222-232) ----

  /** With distinct keys on distinct variables, an exclusivity record determines its two lines and equipment. */
  lemma {:induction false} EquipmentPairKey(d: Data, E: EquipmentRegistry, ln: int, oln: int, eq: int,
                                            ln2: int, oln2: int, eq2: int)
    requires EquipmentVarsDefined(d, E) && EquipmentInjective(E)
    requires IsEquipmentKey(d, (ln, eq)) && IsEquipmentKey(d, (oln, eq))
    requires IsEquipmentKey(d, (ln2, eq2)) && IsEquipmentKey(d, (oln2, eq2))
    ensures EquipmentPair(d, E, ln, oln, eq) == EquipmentPair(d, E, ln2, oln2, eq2) ==>
              ln == ln2 && oln == oln2 && eq == eq2
  {
    if EquipmentPair(d, E, ln, oln, eq) == EquipmentPair(d, E, ln2, oln2, eq2) {
      assert E[(ln, eq)] == EquipmentPair(d, E, ln, oln, eq).lits[0] == E[(ln2, eq2)];
      assert E[(oln, eq)] == EquipmentPair(d, E, ln, oln, eq).lits[1] == E[(oln2, eq2)];
    }
  }

  /** One line pair emits one record per equipment, no two alike. */
  lemma {:induction false} LinePairEquipmentDistinct(d: Data, E: EquipmentRegistry, ln: int, oln: int)
    requires EquipmentVarsDefined(d, E) && EquipmentInjective(E)
    requires 0 <= ln < d.NumOfLines && 0 <= oln < d.NumOfLines
    ensures Distinct(LinePairEquipment(d, E, ln, oln, d.NumOfEquipments))
  {
    var recs := LinePairEquipment(d, E, ln, oln, d.NumOfEquipments);
    LinePairEquipmentAt(d, E, ln, oln, d.NumOfEquipments);
    forall i, j | 0 <= i < j < |recs|
      ensures recs[i] != recs[j]
    {
      EquipmentPairKey(d, E, ln, oln, i, ln, oln, j);
    }
  }

  /** A record of a second line below n - 1 is not one of second line n - 1. */
  lemma {:induction false} OtherLinePairsApart(d: Data, E: EquipmentRegistry, ln: int, n: int, c: Constraint)
    requires EquipmentVarsDefined(d, E) && EquipmentInjective(E)
    requires 0 <= ln < n - 1 && n <= d.NumOfLines
    requires c in OtherLinePairs(d, E, ln, n - 1)
    ensures c !in LinePairEquipment(d, E, ln, n - 1, d.NumOfEquipments)
  {
    // only the contracts of the lemmas called below are needed
    hide OtherLinePairs, LinePairEquipment, EquipmentPair, EquipmentInjective;
    var oln, eq := OtherLinePairsSound(d, E, ln, n - 1, c);
    var later := LinePairEquipment(d, E, ln, n - 1, d.NumOfEquipments);
    LinePairEquipmentAt(d, E, ln, n - 1, d.NumOfEquipments);
    forall i | 0 <= i < |later|
      ensures later[i] != c
    {
      EquipmentPairKey(d, E, ln, oln, eq, ln, n - 1, i);
    }
  }

  /** Line `ln` emits no record twice. */
  lemma {:induction false} OtherLinePairsDistinct(d: Data, E: EquipmentRegistry, ln: int, n: int)
    requires EquipmentVarsDefined(d, E) && EquipmentInjective(E)
    requires 0 <= ln < d.NumOfLines && n <= d.NumOfLines
    ensures Distinct(OtherLinePairs(d, E, ln, n))
    decreases n
  {
    // the lemmas called below describe the inner sections; keep their bodies folded
    hide LinePairEquipment, EquipmentPair, EquipmentInjective;
    if n > ln + 1 {
      var left, right := OtherLinePairs(d, E, ln, n - 1), LinePairEquipment(d, E, ln, n - 1, d.NumOfEquipments);
      OtherLinePairsDistinct(d, E, ln, n - 1);
      LinePairEquipmentDistinct(d, E, ln, n - 1);
      forall c | c in left
        ensures c !in right
      {
        OtherLinePairsApart(d, E, ln, n, c);
      }
      DistinctConcat(OtherLinePairs(d, E, ln, n), left, right);
    }
  }

  /** A record of a first line below n - 1 is not one of first line n - 1. */
  lemma {:induction false} EquipmentExclusivityApart(d: Data, E: EquipmentRegistry, n: int, c: Constraint)
    requires EquipmentVarsDefined(d, E) && EquipmentInjective(E) && 0 < n <= d.NumOfLines
    requires c in EquipmentExclusivity(d, E, n - 1)
    ensures c !in OtherLinePairs(d, E, n - 1, d.NumOfLines)
  {
    // only the contracts of the lemmas called below are needed
    hide EquipmentExclusivity, OtherLinePairs, LinePairEquipment, EquipmentPair, EquipmentInjective;
    var ln, oln, eq := EquipmentExclusivitySound(d, E, n - 1, c);
    var later := OtherLinePairs(d, E, n - 1, d.NumOfLines);
    forall c2 | c2 in later
      ensures c2 != c
    {
      var oln2, eq2 := OtherLinePairsSound(d, E, n - 1, d.NumOfLines, c2);
      EquipmentPairKey(d, E, ln, oln, eq, n - 1, oln2, eq2);
    }
  }

  /**
   * The exclusivity section emits no record twice; with EquipmentExclusivitySound
   * and EquipmentExclusivityComplete, every (ln < oln, eq) has exactly one AtMostOne.
   */
  lemma {:induction false} EquipmentExclusivityDistinct(d: Data, E: EquipmentRegistry, n: int)
    requires EquipmentVarsDefined(d, E) && EquipmentInjective(E) && n <= d.NumOfLines
    ensures Distinct(EquipmentExclusivity(d, E, n))
    decreases n
  {
    // the lemmas called below describe the inner sections; keep their bodies folded
    hide OtherLinePairs, LinePairEquipment, EquipmentPair, EquipmentInjective;
    if n > 0 {
      var left, right := EquipmentExclusivity(d, E, n - 1), OtherLinePairs(d, E, n - 1, d.NumOfLines);
      EquipmentExclusivityDistinct(d, E, n - 1);
      OtherLinePairsDistinct(d, E, n - 1, d.NumOfLines);
      forall c | c in left
        ensures c !in right
      {
        EquipmentExclusivityApart(d, E, n, c);
      }
      DistinctConcat(EquipmentExclusivity(d, E, n), left, right);
    }
  }

  /** One more group of N. */
  lemma {:induction false} MulStep(a: int, N: int)
    ensures (a + 1) * N == a * N + N
  {
  }

  /** Line `ln` emits NumOfEquipments records for each later line below `n`. */
  lemma {:induction false} OtherLinePairsLength(d: Data, E: EquipmentRegistry, ln: int, n: int)
    requires EquipmentVarsDefined(d, E) && 0 <= ln < n <= d.NumOfLines
    ensures |OtherLinePairs(d, E, ln, n)| == (n - ln - 1) * d.NumOfEquipments
    decreases n
  {
    // the lemmas called below describe the inner sections; keep their bodies folded
    hide LinePairEquipment, EquipmentPair;
    if n > ln + 1 {
      OtherLinePairsLength(d, E, ln, n - 1);
      LinePairEquipmentAt(d, E, ln, n - 1, d.NumOfEquipments);
      MulStep(n - ln - 2, d.NumOfEquipments);
    }
  }

  /** Adding line n - 1's L - n pairs to the count of the lines before it. */
  lemma {:induction false} PairCountStep(n: int, L: int, N: int)
    ensures (n - 1) * (2 * L - n) * N + 2 * ((L - n) * N) == n * (2 * L - n - 1) * N
  {
    assert (n - 1) * (2 * L - n) + 2 * (L - n) == n * (2 * L - n - 1);
    assert (n - 1) * (2 * L - n) * N + 2 * (L - n) * N == ((n - 1) * (2 * L - n) + 2 * (L - n)) * N;
  }

  /** The first lines below `n` emit n(2L - n - 1)/2 line pairs of NumOfEquipments records each. */
  lemma {:induction false} EquipmentExclusivityLength(d: Data, E: EquipmentRegistry, n: int)
    requires EquipmentVarsDefined(d, E) && 0 <= n <= d.NumOfLines
    ensures 2 * |EquipmentExclusivity(d, E, n)| == n * (2 * d.NumOfLines - n - 1) * d.NumOfEquipments
    decreases n
  {
    // the lemmas called below describe the inner sections; keep their bodies folded
    hide OtherLinePairs, LinePairEquipment, EquipmentPair;
    if n > 0 {
      var L, N := d.NumOfLines, d.NumOfEquipments;
      EquipmentExclusivityLength(d, E, n - 1);
      OtherLinePairsLength(d, E, n - 1, L);
      PairCountStep(n, L, N);
    }
  }

  /** The whole exclusivity pass holds one record per pair of lines and equipment: L(L - 1)/2 * NumOfEquipments. */
  lemma {:induction false} EquipmentExclusivityCount(d: Data, E: EquipmentRegistry)
    requires EquipmentVarsDefined(d, E)
    ensures 2 * |EquipmentExclusivity(d, E, d.NumOfLines - 1)| == (d.NumOfLines - 1) * d.NumOfLines * d.NumOfEquipments
  {
    if d.NumOfLines > 0 {
      EquipmentExclusivityLength(d, E, d.NumOfLines - 1);
      assert (d.NumOfLines - 1) * (2 * d.NumOfLines - (d.NumOfLines - 1) - 1) == (d.NumOfLines - 1) * d.NumOfLines;
    }
  }

  // ---- 6. Function requirements (Problem.cs:234-256) ----

  /** Loop order of (line, function): line first. */
  predicate KeyLess(a: (int, int), b: (int, int))
  {
    a.0 < b.0 || (a.0 == b.0 && a.1 < b.1)
  }

  /** The functions below `m` for which line `ln` has a positive requirement, as (ln, fu), in function order. */
  function LineRequirementKeys(d: Data, ln: int, m: int): seq<(int, int)>
    requires WellFormed(d) && 0 <= ln < d.NumOfLines && m <= d.NumOfFunctions
    decreases m
  {
    if m <= 0 then []
    else LineRequirementKeys(d, ln, m - 1) + (if d.LineFunctionRequirement[ln][m - 1] > 0 then [(ln, m - 1)] else [])
  }

  /** The (line, function) pairs with a positive requirement, lines below `n`, in loop order. */
  function RequirementKeys(d: Data, n: int): seq<(int, int)>
    requires WellFormed(d) && n <= d.NumOfLines
    decreases n
  {
    if n <= 0 then [] else RequirementKeys(d, n - 1) + LineRequirementKeys(d, n - 1, d.NumOfFunctions)
  }

  /** Line `ln`'s records are the requirements of its keys, one each, in strictly increasing function order. */
  lemma {:induction false} LineRequirementsAt(d: Data, E: EquipmentRegistry, ln: int, m: int)
    requires WellFormed(d) && EquipmentVarsDefined(d, E) && 0 <= ln < d.NumOfLines && m <= d.NumOfFunctions
    ensures |LineRequirements(d, E, ln, m)| == |LineRequirementKeys(d, ln, m)|
    ensures forall i :: 0 <= i < |LineRequirementKeys(d, ln, m)| ==>
              LineRequirementKeys(d, ln, m)[i].0 == ln && 0 <= LineRequirementKeys(d, ln, m)[i].1 < m &&
              d.LineFunctionRequirement[ln][LineRequirementKeys(d, ln, m)[i].1] > 0 &&
              LineRequirements(d, E, ln, m)[i] == RequirementOf(d, E, ln, LineRequirementKeys(d, ln, m)[i].1)
    ensures forall i, j :: 0 <= i < j < |LineRequirementKeys(d, ln, m)| ==>
              LineRequirementKeys(d, ln, m)[i].1 < LineRequirementKeys(d, ln, m)[j].1
    decreases m
  {
    if m > 0 {
      LineRequirementsAt(d, E, ln, m - 1);
      var keys, recs := LineRequirementKeys(d, ln, m - 1), LineRequirements(d, E, ln, m - 1);
      var newKeys := if d.LineFunctionRequirement[ln][m - 1] > 0 then [(ln, m - 1)] else [];
      assert LineRequirementKeys(d, ln, m) == keys + newKeys;
      assert LineRequirements(d, E, ln, m) == recs + Requirement(d, E, ln, m - 1);
    }
  }

  /**
   * The requirement block of one shift holds, at position i, the record of the
   * i-th (line, function) with a positive requirement; the keys strictly
   * increase in loop order, so no (line, function) has two records.
   */
  lemma {:induction false} ShiftRequirementsAt(d: Data, E: EquipmentRegistry, n: int)
    requires WellFormed(d) && EquipmentVarsDefined(d, E) && n <= d.NumOfLines
    ensures |ShiftRequirements(d, E, n)| == |RequirementKeys(d, n)|
    ensures forall i :: 0 <= i < |RequirementKeys(d, n)| ==>
              0 <= RequirementKeys(d, n)[i].0 < n && 0 <= RequirementKeys(d, n)[i].1 < d.NumOfFunctions &&
              d.LineFunctionRequirement[RequirementKeys(d, n)[i].0][RequirementKeys(d, n)[i].1] > 0 &&
              ShiftRequirements(d, E, n)[i] == RequirementOf(d, E, RequirementKeys(d, n)[i].0, RequirementKeys(d, n)[i].1)
    ensures forall i, j :: 0 <= i < j < |RequirementKeys(d, n)| ==> KeyLess(RequirementKeys(d, n)[i], RequirementKeys(d, n)[j])
    decreases n
  {
    // the lemmas called below describe the inner sections; keep their bodies folded
    hide LineRequirements, LineRequirementKeys, Requirement, RequirementOf;
    if n > 0 {
      ShiftRequirementsAt(d, E, n - 1);
      LineRequirementsAt(d, E, n - 1, d.NumOfFunctions);
      var keys, recs := RequirementKeys(d, n - 1), ShiftRequirements(d, E, n - 1);
      var lineKeys, lineRecs := LineRequirementKeys(d, n - 1, d.NumOfFunctions), LineRequirements(d, E, n - 1, d.NumOfFunctions);
      var all, allRecs := RequirementKeys(d, n), ShiftRequirements(d, E, n);
      assert all == keys + lineKeys;
      assert allRecs == recs + lineRecs;
      forall i | 0 <= i < |all|
        ensures 0 <= all[i].0 < n && 0 <= all[i].1 < d.NumOfFunctions
        ensures d.LineFunctionRequirement[all[i].0][all[i].1] > 0 && allRecs[i] == RequirementOf(d, E, all[i].0, all[i].1)
      {
        if i < |keys| {
          assert all[i] == keys[i] && allRecs[i] == recs[i];
        } else {
          assert all[i] == lineKeys[i - |keys|] && allRecs[i] == lineRecs[i - |keys|];
        }
      }
      forall i, j | 0 <= i < j < |all|
        ensures KeyLess(all[i], all[j])
      {
        if j < |keys| {
          assert all[i] == keys[i] && all[j] == keys[j];
        } else if i < |keys| {
          assert all[i] == keys[i] && all[j] == lineKeys[j - |keys|];
        } else {
          assert all[i] == lineKeys[i - |keys|] && all[j] == lineKeys[j - |keys|];
        }
      }
    }
  }

  /** Every function of line `ln` below `m` with a positive requirement is a key. */
  lemma {:induction false} LineRequirementKeysComplete(d: Data, ln: int, m: int, fu: int)
    requires WellFormed(d) && 0 <= ln < d.NumOfLines && m <= d.NumOfFunctions
    requires 0 <= fu < m && d.LineFunctionRequirement[ln][fu] > 0
    ensures (ln, fu) in LineRequirementKeys(d, ln, m)
    decreases m
  {
    if fu < m - 1 {
      LineRequirementKeysComplete(d, ln, m - 1, fu);
    }
    assert LineRequirementKeys(d, ln, m)
           == LineRequirementKeys(d, ln, m - 1) + (if d.LineFunctionRequirement[ln][m - 1] > 0 then [(ln, m - 1)] else []);
  }

  /** Every (line, function) with a positive requirement and line below `n` is a key. */
  lemma {:induction false} RequirementKeysComplete(d: Data, n: int, ln: int, fu: int)
    requires WellFormed(d) && n <= d.NumOfLines
    requires 0 <= ln < n && 0 <= fu < d.NumOfFunctions && d.LineFunctionRequirement[ln][fu] > 0
    ensures (ln, fu) in RequirementKeys(d, n)
    decreases n
  {
    if ln < n - 1 {
      RequirementKeysComplete(d, n - 1, ln, fu);
    } else {
      LineRequirementKeysComplete(d, ln, d.NumOfFunctions, fu);
    }
    assert RequirementKeys(d, n) == RequirementKeys(d, n - 1) + LineRequirementKeys(d, n - 1, d.NumOfFunctions);
  }

  // ---- The registries the formulation builds ----

  /**
   * For registries whose variables are declared under their own keys, as
   * VariableDefinition builds them, neither pair section repeats a record.
   */
  lemma {:induction false} PairSectionsDistinct(d: Data, A: WorkerRegistry, E: EquipmentRegistry, vars: seq<VarDecl>)
    requires WellFormed(d) && WorkerVarsDefined(d, A) && EquipmentVarsDefined(d, E)
    requires RegistryDeclared(A, E, vars)
    ensures Distinct(SingleStage(d, A, d.NumOfWorkers))
    ensures Distinct(EquipmentExclusivity(d, E, d.NumOfLines - 1))
  {
    RegistryInjective(A, E, vars);
    SingleStageDistinct(d, A, d.NumOfWorkers);
    EquipmentExclusivityDistinct(d, E, d.NumOfLines - 1);
  }
}
