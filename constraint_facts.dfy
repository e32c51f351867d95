/**
 * What the constraint sections of ConstraintDefinition (Problem.cs:78-260)
 * contain: which records each section emits, over which keys, and how many.
 */
module ConstraintFacts {
  import opened ManPowerData
  import opened CpSat
  import opened Variables
  import opened Constraints

  // ---- Repetition ----

  /** `k` copies of `s` hold k * |s| records. */
  lemma {:induction false} RepeatLength(s: seq<Constraint>, k: nat)
    ensures |Repeat(s, k)| == k * |s|
  {
    if k > 0 {
      RepeatLength(s, k - 1);
      assert k * |s| == (k - 1) * |s| + |s|;
    }
  }

  /** A record is among the copies exactly when there is a copy and it is in `s`. */
  lemma {:induction false} RepeatMember(s: seq<Constraint>, k: int, c: Constraint)
    ensures c in Repeat(s, k) <==> k > 0 && c in s
  {
    if k > 1 {
      RepeatMember(s, k - 1, c);
    }
  }

  /** Copies of one record hold nothing else. */
  lemma {:induction false} RepeatOneMember(x: Constraint, k: int, c: Constraint)
    requires c in Repeat([x], k)
    ensures c == x
  {
    RepeatMember([x], k, c);
  }

  /** At least one copy of a record holds it. */
  lemma {:induction false} RepeatOneHas(x: Constraint, k: int)
    requires k > 0
    ensures x in Repeat([x], k)
  {
    RepeatMember([x], k, x);
  }

  /** Copy `i` of `s` sits at positions i * |s| up to (i + 1) * |s|. */
  lemma {:induction false} RepeatCopy(s: seq<Constraint>, k: nat, i: nat)
    requires i < k
    ensures 0 <= i * |s| && i * |s| + |s| <= |Repeat(s, k)|
    ensures Repeat(s, k)[i * |s| .. i * |s| + |s|] == s
  {
    var prev := Repeat(s, k - 1);
    RepeatLength(s, k - 1);
    assert Repeat(s, k) == prev + s;
    if i < k - 1 {
      RepeatCopy(s, k - 1, i);
      assert (prev + s)[i * |s| .. i * |s| + |s|] == prev[i * |s| .. i * |s| + |s|];
    } else {
      assert i * |s| == |prev|;
    }
  }

  // ---- 1. Stage coverage (Problem.cs:80-97) ----

  /** Shift `sh` contributes one coverage record per stage below `m`, in stage order. */
  lemma {:induction false} ShiftCoverageAt(d: Data, A: WorkerRegistry, sh: int, m: int)
    requires WellFormed(d) && WorkerVarsDefined(d, A)
    requires 0 <= sh < d.NumOfShifts && 0 <= m <= d.NumOfStages
    ensures |ShiftCoverage(d, A, sh, m)| == m
    ensures forall st :: 0 <= st < m ==> ShiftCoverage(d, A, sh, m)[st] == CoverageOf(d, A, sh, st)
  {
    if m > 0 {
      ShiftCoverageAt(d, A, sh, m - 1);
    }
  }

  /** The coverage section holds NumOfStages records per shift. */
  lemma {:induction false} CoverageLength(d: Data, A: WorkerRegistry, n: int)
    requires WellFormed(d) && WorkerVarsDefined(d, A) && 0 <= n <= d.NumOfShifts
    ensures |Coverage(d, A, n)| == n * d.NumOfStages
  {
    if n > 0 {
      CoverageLength(d, A, n - 1);
      ShiftCoverageAt(d, A, n - 1, d.NumOfStages);
      assert n * d.NumOfStages == (n - 1) * d.NumOfStages + d.NumOfStages;
    }
  }

  /**
   * Record sh * NumOfStages + st of the coverage section is the ExactlyOne of
   * (sh, st): one record per (shift, stage), shift-major.
   */
  lemma {:induction false} CoverageAt(d: Data, A: WorkerRegistry, n: int, sh: int, st: int)
    requires WellFormed(d) && WorkerVarsDefined(d, A) && n <= d.NumOfShifts
    requires 0 <= sh < n && 0 <= st < d.NumOfStages
    ensures 0 <= sh * d.NumOfStages && sh * d.NumOfStages + st < |Coverage(d, A, n)|
    ensures Coverage(d, A, n)[sh * d.NumOfStages + st] == CoverageOf(d, A, sh, st)
  {
    var T := d.NumOfStages;
    CoverageLength(d, A, n - 1);
    ShiftCoverageAt(d, A, n - 1, T);
    if sh < n - 1 {
      CoverageAt(d, A, n - 1, sh, st);
    } else {
      assert sh * T == |Coverage(d, A, n - 1)|;
    }
  }

  /** Every record of the coverage section is the ExactlyOne of some (sh, st) below the bounds. */
  lemma {:induction false} CoverageSound(d: Data, A: WorkerRegistry, n: int, c: Constraint) returns (sh: int, st: int)
    requires WellFormed(d) && WorkerVarsDefined(d, A) && n <= d.NumOfShifts
    requires c in Coverage(d, A, n)
    ensures 0 <= sh < n && 0 <= st < d.NumOfStages && c == CoverageOf(d, A, sh, st)
  {
    if n > 0 {
      var left, right := Coverage(d, A, n - 1), ShiftCoverage(d, A, n - 1, d.NumOfStages);
      InParts(c, Coverage(d, A, n), left, right);
      if c in left {
        sh, st := CoverageSound(d, A, n - 1, c);
      } else {
        ShiftCoverageAt(d, A, n - 1, d.NumOfStages);
        sh :| 0 <= sh < d.NumOfStages && ShiftCoverage(d, A, n - 1, d.NumOfStages)[sh] == c;
        sh, st := n - 1, sh;
      }
    }
  }

  // ---- 2. One stage per worker and shift (Problem.cs:99-116) ----

  /** Every record of the `ost` loop is a guarded pair of its (w, sh, st). */
  lemma {:induction false} OtherStagePairsSound(d: Data, A: WorkerRegistry, w: int, sh: int, st: int, n: int, c: Constraint)
    returns (ost: int)
    requires WellFormed(d) && WorkerVarsDefined(d, A)
    requires 0 <= w < d.NumOfWorkers && 0 <= sh < d.NumOfShifts && 0 <= st < d.NumOfStages && n <= d.NumOfStages
    requires c in OtherStagePairs(d, A, w, sh, st, n)
    ensures st < ost < n && PairGuard(d, w, sh, st, ost) && c == StagePair(d, A, w, sh, st, ost)
  {
    if n > 0 {
      var left := OtherStagePairs(d, A, w, sh, st, n - 1);
      var right := if PairGuard(d, w, sh, st, n - 1) then [StagePair(d, A, w, sh, st, n - 1)] else [];
      InParts(c, OtherStagePairs(d, A, w, sh, st, n), left, right);
      if c in left {
        ost := OtherStagePairsSound(d, A, w, sh, st, n - 1, c);
      } else {
        ost := n - 1;
      }
    }
  }

  /** A guarded pair st < ost below `n` is emitted by the `ost` loop. */
  lemma {:induction false} OtherStagePairsComplete(d: Data, A: WorkerRegistry, w: int, sh: int, st: int, n: int, ost: int)
    requires WellFormed(d) && WorkerVarsDefined(d, A)
    requires 0 <= w < d.NumOfWorkers && 0 <= sh < d.NumOfShifts && 0 <= st < d.NumOfStages && n <= d.NumOfStages
    requires st < ost < n && PairGuard(d, w, sh, st, ost)
    ensures StagePair(d, A, w, sh, st, ost) in OtherStagePairs(d, A, w, sh, st, n)
  {
    var left := OtherStagePairs(d, A, w, sh, st, n - 1);
    var right := if PairGuard(d, w, sh, st, n - 1) then [StagePair(d, A, w, sh, st, n - 1)] else [];
    if ost < n - 1 {
      OtherStagePairsComplete(d, A, w, sh, st, n - 1, ost);
    } else {
      assert right == [StagePair(d, A, w, sh, st, ost)];
    }
    InConcat(StagePair(d, A, w, sh, st, ost), OtherStagePairs(d, A, w, sh, st, n), left, right);
  }

  /** Every record of worker `w` in shift `sh` is a guarded pair of that worker and shift. */
  lemma {:induction false} ShiftStagePairsSound(d: Data, A: WorkerRegistry, w: int, sh: int, n: int, c: Constraint)
    returns (st: int, ost: int)
    requires WellFormed(d) && WorkerVarsDefined(d, A)
    requires 0 <= w < d.NumOfWorkers && 0 <= sh < d.NumOfShifts && n <= d.NumOfStages
    requires c in ShiftStagePairs(d, A, w, sh, n)
    ensures 0 <= st < n && st < ost < d.NumOfStages && PairGuard(d, w, sh, st, ost) && c == StagePair(d, A, w, sh, st, ost)
  {
    // the recursive call and the lemmas about the inner section carry the proof; keep that section folded
    hide OtherStagePairs;
    if n > 0 {
      var left, right := ShiftStagePairs(d, A, w, sh, n - 1), OtherStagePairs(d, A, w, sh, n - 1, d.NumOfStages);
      InParts(c, ShiftStagePairs(d, A, w, sh, n), left, right);
      if c in left {
        st, ost := ShiftStagePairsSound(d, A, w, sh, n - 1, c);
      } else {
        ost := OtherStagePairsSound(d, A, w, sh, n - 1, d.NumOfStages, c);
        st := n - 1;
      }
    }
  }

  /** Every guarded pair of worker `w` in shift `sh` whose first stage is below `n` is emitted. */
  lemma {:induction false} ShiftStagePairsComplete(d: Data, A: WorkerRegistry, w: int, sh: int, n: int, st: int, ost: int)
    requires WellFormed(d) && WorkerVarsDefined(d, A)
    requires 0 <= w < d.NumOfWorkers && 0 <= sh < d.NumOfShifts && n <= d.NumOfStages
    requires 0 <= st < n && st < ost < d.NumOfStages && PairGuard(d, w, sh, st, ost)
    ensures StagePair(d, A, w, sh, st, ost) in ShiftStagePairs(d, A, w, sh, n)
  {
    // the recursive call and the lemmas about the inner section carry the proof; keep that section folded
    hide OtherStagePairs;
    var left, right := ShiftStagePairs(d, A, w, sh, n - 1), OtherStagePairs(d, A, w, sh, n - 1, d.NumOfStages);
    if st < n - 1 {
      ShiftStagePairsComplete(d, A, w, sh, n - 1, st, ost);
    } else {
      OtherStagePairsComplete(d, A, w, sh, st, d.NumOfStages, ost);
    }
    InConcat(StagePair(d, A, w, sh, st, ost), ShiftStagePairs(d, A, w, sh, n), left, right);
  }

  /** Every record of worker `w` is a guarded pair of that worker. */
  lemma {:induction false} WorkerStagePairsSound(d: Data, A: WorkerRegistry, w: int, n: int, c: Constraint)
    returns (sh: int, st: int, ost: int)
    requires WellFormed(d) && WorkerVarsDefined(d, A)
    requires 0 <= w < d.NumOfWorkers && n <= d.NumOfShifts
    requires c in WorkerStagePairs(d, A, w, n)
    ensures 0 <= sh < n && 0 <= st < ost < d.NumOfStages && PairGuard(d, w, sh, st, ost) && c == StagePair(d, A, w, sh, st, ost)
  {
    // the recursive call and the lemmas about the inner section carry the proof; keep that section folded
    hide ShiftStagePairs, OtherStagePairs;
    if n > 0 {
      var left, right := WorkerStagePairs(d, A, w, n - 1), ShiftStagePairs(d, A, w, n - 1, d.NumOfStages - 1);
      InParts(c, WorkerStagePairs(d, A, w, n), left, right);
      if c in left {
        sh, st, ost := WorkerStagePairsSound(d, A, w, n - 1, c);
      } else {
        st, ost := ShiftStagePairsSound(d, A, w, n - 1, d.NumOfStages - 1, c);
        sh := n - 1;
      }
    }
  }

  /** Every guarded pair of worker `w` in a shift below `n` is emitted; the first stage stops at NumOfStages - 1, which loses no pair. */
  lemma {:induction false} WorkerStagePairsComplete(d: Data, A: WorkerRegistry, w: int, n: int, sh: int, st: int, ost: int)
    requires WellFormed(d) && WorkerVarsDefined(d, A)
    requires 0 <= w < d.NumOfWorkers && n <= d.NumOfShifts
    requires 0 <= sh < n && 0 <= st < ost < d.NumOfStages && PairGuard(d, w, sh, st, ost)
    ensures StagePair(d, A, w, sh, st, ost) in WorkerStagePairs(d, A, w, n)
  {
    // the recursive call and the lemmas about the inner section carry the proof; keep that section folded
    hide ShiftStagePairs, OtherStagePairs;
    var left, right := WorkerStagePairs(d, A, w, n - 1), ShiftStagePairs(d, A, w, n - 1, d.NumOfStages - 1);
    var x := StagePair(d, A, w, sh, st, ost);
    assert WorkerStagePairs(d, A, w, n) == left + right;
    if sh < n - 1 {
      WorkerStagePairsComplete(d, A, w, n - 1, sh, st, ost);
      assert x in left;
    } else {
      ShiftStagePairsComplete(d, A, w, sh, d.NumOfStages - 1, st, ost);
      assert x in right;
    }
    InConcat(x, WorkerStagePairs(d, A, w, n), left, right);
  }

  /** Every record of the single-stage section is the AtMostOne of a guarded pair st < ost. */
  lemma {:induction false} SingleStageSound(d: Data, A: WorkerRegistry, n: int, c: Constraint)
    returns (w: int, sh: int, st: int, ost: int)
    requires WellFormed(d) && WorkerVarsDefined(d, A) && n <= d.NumOfWorkers
    requires c in SingleStage(d, A, n)
    ensures 0 <= w < n && 0 <= sh < d.NumOfShifts && 0 <= st < ost < d.NumOfStages
    ensures PairGuard(d, w, sh, st, ost) && c == StagePair(d, A, w, sh, st, ost)
  {
    // the recursive call and the lemmas about the inner section carry the proof; keep that section folded
    hide WorkerStagePairs, ShiftStagePairs, OtherStagePairs;
    if n > 0 {
      var left, right := SingleStage(d, A, n - 1), WorkerStagePairs(d, A, n - 1, d.NumOfShifts);
      InParts(c, SingleStage(d, A, n), left, right);
      if c in left {
        w, sh, st, ost := SingleStageSound(d, A, n - 1, c);
      } else {
        sh, st, ost := WorkerStagePairsSound(d, A, n - 1, d.NumOfShifts, c);
        w := n - 1;
      }
    }
  }

  /** For every worker, shift and guarded stage pair st < ost, the AtMostOne of the two variables is emitted. */
  lemma {:induction false} SingleStageComplete(d: Data, A: WorkerRegistry, n: int, w: int, sh: int, st: int, ost: int)
    requires WellFormed(d) && WorkerVarsDefined(d, A) && n <= d.NumOfWorkers
    requires 0 <= w < n && 0 <= sh < d.NumOfShifts && 0 <= st < ost < d.NumOfStages && PairGuard(d, w, sh, st, ost)
    ensures StagePair(d, A, w, sh, st, ost) in SingleStage(d, A, n)
  {
    // the recursive call and the lemmas about the inner section carry the proof; keep that section folded
    hide WorkerStagePairs, ShiftStagePairs, OtherStagePairs;
    var left, right := SingleStage(d, A, n - 1), WorkerStagePairs(d, A, n - 1, d.NumOfShifts);
    if w < n - 1 {
      SingleStageComplete(d, A, n - 1, w, sh, st, ost);
    } else {
      WorkerStagePairsComplete(d, A, w, d.NumOfShifts, sh, st, ost);
    }
    InConcat(StagePair(d, A, w, sh, st, ost), SingleStage(d, A, n), left, right);
  }

  // ---- 3. Day grouping (Problem.cs:118-187) ----

  /**
   * The number of records the visits from a shift with `r` shifts remaining
   * emit: 3 per full group of three, then 3 for one leftover shift and 2 for two.
   */
  function DayGroupLength(r: int): int
  {
    if r <= 0 then 0 else 3 * (r / 3) + (if r % 3 == 1 then 3 else if r % 3 == 2 then 2 else 0)
  }

  /** One visit: `r` remaining shifts emit DayCopies for the first and DayGroupLength(r - 3) after it. */
  lemma {:induction false} DayGroupLengthStep(numOfShifts: int, sh: int)
    requires sh < numOfShifts
    ensures DayGroupLength(numOfShifts - sh) == DayCopies(numOfShifts, sh) + DayGroupLength(numOfShifts - (sh + 3))
  {
    var r := numOfShifts - sh;
    if r >= 3 {
      assert (r - 3) / 3 == r / 3 - 1 && (r - 3) % 3 == r % 3;
    }
  }

  /** The visits at sh, sh + 3, ... below NumOfShifts emit DayGroupLength(NumOfShifts - sh) records. */
  lemma {:induction false} DayGroupsFromLength(d: Data, A: WorkerRegistry, st: int, sh: int)
    requires WellFormed(d) && WorkerVarsDefined(d, A) && 0 <= st < d.NumOfStages && 0 <= sh
    ensures |DayGroupsFrom(d, A, st, sh)| == DayGroupLength(d.NumOfShifts - sh)
    decreases d.NumOfShifts - sh
  {
    // only the number of copies matters here, not the coverage record itself
    hide CoverageOf, StageLiterals;
    if sh < d.NumOfShifts {
      var copies := Repeat([CoverageOf(d, A, sh, st)], DayCopies(d.NumOfShifts, sh));
      assert DayGroupsFrom(d, A, st, sh) == copies + DayGroupsFrom(d, A, st, sh + 3);
      DayGroupsFromLength(d, A, st, sh + 3);
      RepeatLength([CoverageOf(d, A, sh, st)], DayCopies(d.NumOfShifts, sh));
      DayGroupLengthStep(d.NumOfShifts, sh);
    }
  }

  /**
   * The visits from `sh` on are at t = sh + 3j below NumOfShifts, and each copy
   * is the coverage record of the visited shift alone: no later shift is read.
   */
  lemma {:induction false} DayGroupsFromSound(d: Data, A: WorkerRegistry, st: int, sh: int, c: Constraint) returns (t: int, j: int)
    requires WellFormed(d) && WorkerVarsDefined(d, A) && 0 <= st < d.NumOfStages && 0 <= sh
    requires c in DayGroupsFrom(d, A, st, sh)
    ensures 0 <= j && t == sh + 3 * j && t < d.NumOfShifts && c == CoverageOf(d, A, t, st)
    decreases d.NumOfShifts - sh
  {
    if sh < d.NumOfShifts {
      var here, later := Repeat([CoverageOf(d, A, sh, st)], DayCopies(d.NumOfShifts, sh)), DayGroupsFrom(d, A, st, sh + 3);
      InParts(c, DayGroupsFrom(d, A, st, sh), here, later);
      if c in here {
        RepeatOneMember(CoverageOf(d, A, sh, st), DayCopies(d.NumOfShifts, sh), c);
        t, j := sh, 0;
      } else {
        var k;
        t, k := DayGroupsFromSound(d, A, st, sh + 3, c);
        j := k + 1;
      }
    }
  }

  /** Every visited shift t = sh + 3j below NumOfShifts has its coverage record re-emitted for stage `st`. */
  lemma {:induction false} DayGroupsFromComplete(d: Data, A: WorkerRegistry, st: int, sh: int, t: int, j: int)
    requires WellFormed(d) && WorkerVarsDefined(d, A) && 0 <= st < d.NumOfStages && 0 <= sh
    requires 0 <= j && t == sh + 3 * j && t < d.NumOfShifts
    ensures CoverageOf(d, A, t, st) in DayGroupsFrom(d, A, st, sh)
    decreases j
  {
    var whole := DayGroupsFrom(d, A, st, sh);
    var here, later := Repeat([CoverageOf(d, A, sh, st)], DayCopies(d.NumOfShifts, sh)), DayGroupsFrom(d, A, st, sh + 3);
    if j == 0 {
      RepeatOneHas(CoverageOf(d, A, sh, st), DayCopies(d.NumOfShifts, sh));
      InConcat(CoverageOf(d, A, sh, st), whole, here, later);
    } else {
      DayGroupsFromComplete(d, A, st, sh + 3, t, j - 1);
      InConcat(CoverageOf(d, A, t, st), whole, here, later);
    }
  }

  /** Every day-grouping record is the coverage record of a shift t = 3j and a stage below `m`. */
  lemma {:induction false} DayGroupsSound(d: Data, A: WorkerRegistry, m: int, c: Constraint) returns (t: int, j: int, st: int)
    requires WellFormed(d) && WorkerVarsDefined(d, A) && m <= d.NumOfStages
    requires c in DayGroups(d, A, m)
    ensures 0 <= j && t == 3 * j && t < d.NumOfShifts && 0 <= st < m && c == CoverageOf(d, A, t, st)
  {
    if m > 0 {
      var left, right := DayGroups(d, A, m - 1), DayGroupsFrom(d, A, m - 1, 0);
      InParts(c, DayGroups(d, A, m), left, right);
      if c in left {
        t, j, st := DayGroupsSound(d, A, m - 1, c);
      } else {
        t, j := DayGroupsFromSound(d, A, m - 1, 0, c);
        st := m - 1;
      }
    }
  }

  /** The day-grouping pass only repeats stage coverage: each of its records is already in the coverage section. */
  lemma {:induction false} DayGroupsRedundant(d: Data, A: WorkerRegistry, c: Constraint)
    requires WellFormed(d) && WorkerVarsDefined(d, A)
    requires c in DayGroups(d, A, d.NumOfStages)
    ensures c in Coverage(d, A, d.NumOfShifts)
  {
    var t, j, st := DayGroupsSound(d, A, d.NumOfStages, c);
    CoverageAt(d, A, d.NumOfShifts, t, st);
    IndexIn(Coverage(d, A, d.NumOfShifts), t * d.NumOfStages + st);
  }

  // ---- 5. Equipment exclusivity (Problem.cs:222-232) ----

  /** Every record of line pair (ln, oln) is the AtMostOne of one equipment on the two lines. */
  lemma {:induction false} LinePairEquipmentAt(d: Data, E: EquipmentRegistry, ln: int, oln: int, k: int)
    requires EquipmentVarsDefined(d, E)
    requires 0 <= ln < d.NumOfLines && 0 <= oln < d.NumOfLines && 0 <= k <= d.NumOfEquipments
    ensures |LinePairEquipment(d, E, ln, oln, k)| == k
    ensures forall eq :: 0 <= eq < k ==> LinePairEquipment(d, E, ln, oln, k)[eq] == EquipmentPair(d, E, ln, oln, eq)
  {
    if k > 0 {
      LinePairEquipmentAt(d, E, ln, oln, k - 1);
    }
  }

  /** Every record of line `ln`'s pairs names `ln`, a later line and an equipment. */
  lemma {:induction false} OtherLinePairsSound(d: Data, E: EquipmentRegistry, ln: int, n: int, c: Constraint)
    returns (oln: int, eq: int)
    requires EquipmentVarsDefined(d, E) && 0 <= ln < d.NumOfLines && n <= d.NumOfLines
    requires c in OtherLinePairs(d, E, ln, n)
    ensures ln < oln < n && 0 <= eq < d.NumOfEquipments && c == EquipmentPair(d, E, ln, oln, eq)
  {
    if n > 0 {
      var left, right := OtherLinePairs(d, E, ln, n - 1), LinePairEquipment(d, E, ln, n - 1, d.NumOfEquipments);
      InParts(c, OtherLinePairs(d, E, ln, n), left, right);
      if c in left {
        oln, eq := OtherLinePairsSound(d, E, ln, n - 1, c);
      } else {
        LinePairEquipmentAt(d, E, ln, n - 1, d.NumOfEquipments);
        eq :| 0 <= eq < d.NumOfEquipments && LinePairEquipment(d, E, ln, n - 1, d.NumOfEquipments)[eq] == c;
        oln := n - 1;
      }
    }
  }

  /** Every record of the exclusivity section is the AtMostOne of one equipment on two lines ln < oln. */
  lemma {:induction false} EquipmentExclusivitySound(d: Data, E: EquipmentRegistry, n: int, c: Constraint)
    returns (ln: int, oln: int, eq: int)
    requires EquipmentVarsDefined(d, E) && n <= d.NumOfLines
    requires c in EquipmentExclusivity(d, E, n)
    ensures 0 <= ln < n && ln < oln < d.NumOfLines && 0 <= eq < d.NumOfEquipments && c == EquipmentPair(d, E, ln, oln, eq)
  {
    if n > 0 {
      var left, right := EquipmentExclusivity(d, E, n - 1), OtherLinePairs(d, E, n - 1, d.NumOfLines);
      InParts(c, EquipmentExclusivity(d, E, n), left, right);
      if c in left {
        ln, oln, eq := EquipmentExclusivitySound(d, E, n - 1, c);
      } else {
        oln, eq := OtherLinePairsSound(d, E, n - 1, d.NumOfLines, c);
        ln := n - 1;
      }
    }
  }

  /**
   * For every two lines ln < oln and every equipment, the AtMostOne is emitted;
   * stopping the outer loop at NumOfLines - 1 loses no pair.
   */
  lemma {:induction false} EquipmentExclusivityComplete(d: Data, E: EquipmentRegistry, n: int, ln: int, oln: int, eq: int)
    requires EquipmentVarsDefined(d, E) && n <= d.NumOfLines
    requires 0 <= ln < n && ln < oln < d.NumOfLines && 0 <= eq < d.NumOfEquipments
    ensures EquipmentPair(d, E, ln, oln, eq) in EquipmentExclusivity(d, E, n)
  {
    var left, right := EquipmentExclusivity(d, E, n - 1), OtherLinePairs(d, E, n - 1, d.NumOfLines);
    if ln < n - 1 {
      EquipmentExclusivityComplete(d, E, n - 1, ln, oln, eq);
    } else {
      OtherLinePairsComplete(d, E, ln, d.NumOfLines, oln, eq);
    }
    InConcat(EquipmentPair(d, E, ln, oln, eq), EquipmentExclusivity(d, E, n), left, right);
  }

  /** The `oln` loop of line `ln` emits the pair with every later line below `n`. */
  lemma {:induction false} OtherLinePairsComplete(d: Data, E: EquipmentRegistry, ln: int, n: int, oln: int, eq: int)
    requires EquipmentVarsDefined(d, E) && 0 <= ln < d.NumOfLines && n <= d.NumOfLines
    requires ln < oln < n && 0 <= eq < d.NumOfEquipments
    ensures EquipmentPair(d, E, ln, oln, eq) in OtherLinePairs(d, E, ln, n)
  {
    var left, right := OtherLinePairs(d, E, ln, n - 1), LinePairEquipment(d, E, ln, n - 1, d.NumOfEquipments);
    if oln < n - 1 {
      OtherLinePairsComplete(d, E, ln, n - 1, oln, eq);
    } else {
      LinePairEquipmentAt(d, E, ln, oln, d.NumOfEquipments);
      assert right[eq] == EquipmentPair(d, E, ln, oln, eq);
    }
    InConcat(EquipmentPair(d, E, ln, oln, eq), OtherLinePairs(d, E, ln, n), left, right);
  }

  // ---- 6. Function requirements (Problem.cs:234-256) ----

  /** The record of line `ln` and function `fu` when its requirement is positive. */
  function RequirementOf(d: Data, E: EquipmentRegistry, ln: int, fu: int): Constraint
    requires WellFormed(d) && EquipmentVarsDefined(d, E)
    requires 0 <= ln < d.NumOfLines && 0 <= fu < d.NumOfFunctions
  {
    WeightedAtLeast(RequirementLiterals(d, E, ln), RequirementCoefficients(d, fu), d.LineFunctionRequirement[ln][fu])
  }

  /**
   * Every requirement record is the weighted sum over all equipment of line `ln`
   * for a function `fu` whose requirement is positive; its bound is that requirement.
   */
  lemma {:induction false} ShiftRequirementsSound(d: Data, E: EquipmentRegistry, n: int, c: Constraint)
    returns (ln: int, fu: int)
    requires WellFormed(d) && EquipmentVarsDefined(d, E) && n <= d.NumOfLines
    requires c in ShiftRequirements(d, E, n)
    ensures 0 <= ln < n && 0 <= fu < d.NumOfFunctions && d.LineFunctionRequirement[ln][fu] > 0
    ensures c == RequirementOf(d, E, ln, fu)
  {
    if n > 0 {
      var left, right := ShiftRequirements(d, E, n - 1), LineRequirements(d, E, n - 1, d.NumOfFunctions);
      InParts(c, ShiftRequirements(d, E, n), left, right);
      if c in left {
        ln, fu := ShiftRequirementsSound(d, E, n - 1, c);
      } else {
        fu := LineRequirementsSound(d, E, n - 1, d.NumOfFunctions, c);
        ln := n - 1;
      }
    }
  }

  /** Every record of line `ln` is the requirement of a function with a positive requirement. */
  lemma {:induction false} LineRequirementsSound(d: Data, E: EquipmentRegistry, ln: int, m: int, c: Constraint)
    returns (fu: int)
    requires WellFormed(d) && EquipmentVarsDefined(d, E) && 0 <= ln < d.NumOfLines && m <= d.NumOfFunctions
    requires c in LineRequirements(d, E, ln, m)
    ensures 0 <= fu < m && d.LineFunctionRequirement[ln][fu] > 0 && c == RequirementOf(d, E, ln, fu)
  {
    if m > 0 {
      var left, right := LineRequirements(d, E, ln, m - 1), Requirement(d, E, ln, m - 1);
      InParts(c, LineRequirements(d, E, ln, m), left, right);
      if c in left {
        fu := LineRequirementsSound(d, E, ln, m - 1, c);
      } else {
        fu := m - 1;
      }
    }
  }

  /** Every positive requirement of a line below `n` is emitted. */
  lemma {:induction false} ShiftRequirementsComplete(d: Data, E: EquipmentRegistry, n: int, ln: int, fu: int)
    requires WellFormed(d) && EquipmentVarsDefined(d, E) && n <= d.NumOfLines
    requires 0 <= ln < n && 0 <= fu < d.NumOfFunctions && d.LineFunctionRequirement[ln][fu] > 0
    ensures RequirementOf(d, E, ln, fu) in ShiftRequirements(d, E, n)
  {
    var left, right := ShiftRequirements(d, E, n - 1), LineRequirements(d, E, n - 1, d.NumOfFunctions);
    if ln < n - 1 {
      ShiftRequirementsComplete(d, E, n - 1, ln, fu);
    } else {
      LineRequirementsComplete(d, E, ln, d.NumOfFunctions, fu);
    }
    InConcat(RequirementOf(d, E, ln, fu), ShiftRequirements(d, E, n), left, right);
  }

  /** Every positive requirement of line `ln` for a function below `m` is emitted. */
  lemma {:induction false} LineRequirementsComplete(d: Data, E: EquipmentRegistry, ln: int, m: int, fu: int)
    requires WellFormed(d) && EquipmentVarsDefined(d, E) && 0 <= ln < d.NumOfLines && m <= d.NumOfFunctions
    requires 0 <= fu < m && d.LineFunctionRequirement[ln][fu] > 0
    ensures RequirementOf(d, E, ln, fu) in LineRequirements(d, E, ln, m)
  {
    var left, right := LineRequirements(d, E, ln, m - 1), Requirement(d, E, ln, m - 1);
    if fu < m - 1 {
      LineRequirementsComplete(d, E, ln, m - 1, fu);
    } else {
      assert right == [RequirementOf(d, E, ln, fu)];
    }
    InConcat(RequirementOf(d, E, ln, fu), LineRequirements(d, E, ln, m), left, right);
  }

  /**
   * The requirement section is the same list of records once per shift, and a
   * record is in it exactly when it is in one shift's list and there is a shift.
   */
  lemma {:induction false} RequirementsPerShift(d: Data, E: EquipmentRegistry, sh: int, c: Constraint)
    requires WellFormed(d) && EquipmentVarsDefined(d, E) && 0 <= sh < d.NumOfShifts
    ensures |Repeat(ShiftRequirements(d, E, d.NumOfLines), d.NumOfShifts)|
              == d.NumOfShifts * |ShiftRequirements(d, E, d.NumOfLines)|
    ensures 0 <= sh * |ShiftRequirements(d, E, d.NumOfLines)|
    ensures sh * |ShiftRequirements(d, E, d.NumOfLines)| + |ShiftRequirements(d, E, d.NumOfLines)|
              <= |Repeat(ShiftRequirements(d, E, d.NumOfLines), d.NumOfShifts)|
    ensures Repeat(ShiftRequirements(d, E, d.NumOfLines), d.NumOfShifts)
              [sh * |ShiftRequirements(d, E, d.NumOfLines)|
               .. sh * |ShiftRequirements(d, E, d.NumOfLines)| + |ShiftRequirements(d, E, d.NumOfLines)|]
              == ShiftRequirements(d, E, d.NumOfLines)
    ensures c in Repeat(ShiftRequirements(d, E, d.NumOfLines), d.NumOfShifts) <==> c in ShiftRequirements(d, E, d.NumOfLines)
  {
    RepeatLength(ShiftRequirements(d, E, d.NumOfLines), d.NumOfShifts);
    RepeatCopy(ShiftRequirements(d, E, d.NumOfLines), d.NumOfShifts, sh);
    RepeatMember(ShiftRequirements(d, E, d.NumOfLines), d.NumOfShifts, c);
  }
}
