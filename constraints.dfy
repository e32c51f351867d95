/**
 * The constraint records that ConstraintDefinition (Problem.cs:78-260) appends
 * to the model, section by section, each written as a function that follows
 * its loop nest: a function of `n` covers the iterations below `n`.
 */
module Constraints {
  import opened ManPowerData
  import opened CpSat
  import opened Variables

  /** `k` copies of `s`, one after the other. */
  function Repeat(s: seq<Constraint>, k: int): seq<Constraint>
    decreases k
  {
    if k <= 0 then [] else Repeat(s, k - 1) + s
  }

  // ---- 1. Stage coverage (Problem.cs:80-97) ----

  /** The coverage constraint of (sh, st): exactly one of the qualifying workers' variables is true. */
  function CoverageOf(d: Data, A: WorkerRegistry, sh: int, st: int): Constraint
    requires WellFormed(d) && WorkerVarsDefined(d, A)
    requires 0 <= sh < d.NumOfShifts && 0 <= st < d.NumOfStages
  {
    ExactlyOne(StageLiterals(d, A, sh, st, d.NumOfWorkers))
  }

  /** Coverage constraints of shift `sh`, stages below `m`. */
  function ShiftCoverage(d: Data, A: WorkerRegistry, sh: int, m: int): seq<Constraint>
    requires WellFormed(d) && WorkerVarsDefined(d, A)
    requires 0 <= sh < d.NumOfShifts && m <= d.NumOfStages
    decreases m
  {
    if m <= 0 then [] else ShiftCoverage(d, A, sh, m - 1) + [CoverageOf(d, A, sh, m - 1)]
  }

  /** Coverage constraints of the shifts below `n`. */
  function Coverage(d: Data, A: WorkerRegistry, n: int): seq<Constraint>
    requires WellFormed(d) && WorkerVarsDefined(d, A) && n <= d.NumOfShifts
    decreases n
  {
    if n <= 0 then [] else Coverage(d, A, n - 1) + ShiftCoverage(d, A, n - 1, d.NumOfStages)
  }

  // ---- 2. One stage per worker and shift (Problem.cs:99-116) ----

  /** At most one of stages `st` and `ost` for worker `w` in shift `sh`. */
  function StagePair(d: Data, A: WorkerRegistry, w: int, sh: int, st: int, ost: int): Constraint
    requires WellFormed(d) && WorkerVarsDefined(d, A)
    requires IsWorkerKey(d, (sh, st, w)) && IsWorkerKey(d, (sh, ost, w))
  {
    AtMostOne([A[(sh, st, w)], A[(sh, ost, w)]])
  }

  /** The guard of Problem.cs:108-109: both allowances positive and the worker available. */
  predicate PairGuard(d: Data, w: int, sh: int, st: int, ost: int)
    requires WellFormed(d)
    requires 0 <= w < d.NumOfWorkers && 0 <= sh < d.NumOfShifts && 0 <= st < d.NumOfStages && 0 <= ost < d.NumOfStages
  {
    d.WorkerStageAllowance[st][w] > 0 && d.WorkerStageAllowance[ost][w] > 0 && d.WorkerShift[w][sh] > 0
  }

  /** Pairs (st, ost) for st + 1 <= ost < n. */
  function OtherStagePairs(d: Data, A: WorkerRegistry, w: int, sh: int, st: int, n: int): seq<Constraint>
    requires WellFormed(d) && WorkerVarsDefined(d, A)
    requires 0 <= w < d.NumOfWorkers && 0 <= sh < d.NumOfShifts && 0 <= st < d.NumOfStages && n <= d.NumOfStages
    decreases n
  {
    if n <= st + 1 then []
    else OtherStagePairs(d, A, w, sh, st, n - 1)
         + (if PairGuard(d, w, sh, st, n - 1) then [StagePair(d, A, w, sh, st, n - 1)] else [])
  }

  /** Pairs of worker `w` in shift `sh` whose first stage is below `n`. */
  function ShiftStagePairs(d: Data, A: WorkerRegistry, w: int, sh: int, n: int): seq<Constraint>
    requires WellFormed(d) && WorkerVarsDefined(d, A)
    requires 0 <= w < d.NumOfWorkers && 0 <= sh < d.NumOfShifts && n <= d.NumOfStages
    decreases n
  {
    if n <= 0 then [] else ShiftStagePairs(d, A, w, sh, n - 1) + OtherStagePairs(d, A, w, sh, n - 1, d.NumOfStages)
  }

  /** Pairs of worker `w` in the shifts below `n`. */
  function WorkerStagePairs(d: Data, A: WorkerRegistry, w: int, n: int): seq<Constraint>
    requires WellFormed(d) && WorkerVarsDefined(d, A)
    requires 0 <= w < d.NumOfWorkers && n <= d.NumOfShifts
    decreases n
  {
    if n <= 0 then [] else WorkerStagePairs(d, A, w, n - 1) + ShiftStagePairs(d, A, w, n - 1, d.NumOfStages - 1)
  }

  /** Pairs of the workers below `n`. */
  function SingleStage(d: Data, A: WorkerRegistry, n: int): seq<Constraint>
    requires WellFormed(d) && WorkerVarsDefined(d, A) && n <= d.NumOfWorkers
    decreases n
  {
    if n <= 0 then [] else SingleStage(d, A, n - 1) + WorkerStagePairs(d, A, n - 1, d.NumOfShifts)
  }

  // ---- 3. Day grouping (Problem.cs:118-187) ----

  /**
   * How many copies the visit at shift `sh` emits: 3 for a full group, 2 when
   * two shifts remain, and 3 again when one shift remains.
   */
  function DayCopies(numOfShifts: int, sh: int): int
  {
    if sh + 2 < numOfShifts then 3 else if sh + 1 < numOfShifts then 2 else 3
  }

  /** The day-grouping constraints of stage `st` emitted by the visits at sh, sh + 3, ... */
  function DayGroupsFrom(d: Data, A: WorkerRegistry, st: int, sh: int): seq<Constraint>
    requires WellFormed(d) && WorkerVarsDefined(d, A)
    requires 0 <= st < d.NumOfStages && 0 <= sh
    decreases d.NumOfShifts - sh
  {
    if sh >= d.NumOfShifts then []
    else Repeat([CoverageOf(d, A, sh, st)], DayCopies(d.NumOfShifts, sh)) + DayGroupsFrom(d, A, st, sh + 3)
  }

  /** The day-grouping constraints of the stages below `m`. */
  function DayGroups(d: Data, A: WorkerRegistry, m: int): seq<Constraint>
    requires WellFormed(d) && WorkerVarsDefined(d, A) && m <= d.NumOfStages
    decreases m
  {
    if m <= 0 then [] else DayGroups(d, A, m - 1) + DayGroupsFrom(d, A, m - 1, 0)
  }

  // ---- 5. Equipment exclusivity (Problem.cs:222-232) ----

  /** Equipment `eq` is on at most one of lines `ln` and `oln`. */
  function EquipmentPair(d: Data, E: EquipmentRegistry, ln: int, oln: int, eq: int): Constraint
    requires EquipmentVarsDefined(d, E)
    requires IsEquipmentKey(d, (ln, eq)) && IsEquipmentKey(d, (oln, eq))
  {
    AtMostOne([E[(ln, eq)], E[(oln, eq)]])
  }

  /** Exclusivity of lines `ln`, `oln` for the equipment below `k`. */
  function LinePairEquipment(d: Data, E: EquipmentRegistry, ln: int, oln: int, k: int): seq<Constraint>
    requires EquipmentVarsDefined(d, E)
    requires 0 <= ln < d.NumOfLines && 0 <= oln < d.NumOfLines && k <= d.NumOfEquipments
    decreases k
  {
    if k <= 0 then [] else LinePairEquipment(d, E, ln, oln, k - 1) + [EquipmentPair(d, E, ln, oln, k - 1)]
  }

  /** Exclusivity of line `ln` against the lines ln + 1 <= oln < n. */
  function OtherLinePairs(d: Data, E: EquipmentRegistry, ln: int, n: int): seq<Constraint>
    requires EquipmentVarsDefined(d, E)
    requires 0 <= ln < d.NumOfLines && n <= d.NumOfLines
    decreases n
  {
    if n <= ln + 1 then []
    else OtherLinePairs(d, E, ln, n - 1) + LinePairEquipment(d, E, ln, n - 1, d.NumOfEquipments)
  }

  /** Exclusivity for the first lines below `n`. */
  function EquipmentExclusivity(d: Data, E: EquipmentRegistry, n: int): seq<Constraint>
    requires EquipmentVarsDefined(d, E) && n <= d.NumOfLines
    decreases n
  {
    if n <= 0 then [] else EquipmentExclusivity(d, E, n - 1) + OtherLinePairs(d, E, n - 1, d.NumOfLines)
  }

  // ---- 6. Function requirements (Problem.cs:234-256) ----

  /** The equipment variables of line `ln`, equipment 0 first. */
  function RequirementLiterals(d: Data, E: EquipmentRegistry, ln: int): seq<VarId>
    requires EquipmentVarsDefined(d, E) && 0 <= ln < d.NumOfLines
  {
    seq(d.NumOfEquipments, eq requires 0 <= eq < d.NumOfEquipments => E[(ln, eq)])
  }

  /** How many units of function `fu` each equipment provides. */
  function RequirementCoefficients(d: Data, fu: int): seq<int>
    requires WellFormed(d) && 0 <= fu < d.NumOfFunctions
  {
    seq(d.NumOfEquipments, eq requires 0 <= eq < d.NumOfEquipments => d.EquipmentFunction[eq][fu])
  }

  /** The requirement of line `ln` for function `fu`, emitted only when it is positive. */
  function Requirement(d: Data, E: EquipmentRegistry, ln: int, fu: int): seq<Constraint>
    requires WellFormed(d) && EquipmentVarsDefined(d, E)
    requires 0 <= ln < d.NumOfLines && 0 <= fu < d.NumOfFunctions
  {
    if d.LineFunctionRequirement[ln][fu] > 0
    then [WeightedAtLeast(RequirementLiterals(d, E, ln), RequirementCoefficients(d, fu), d.LineFunctionRequirement[ln][fu])]
    else []
  }

  /** Requirements of line `ln`, functions below `m`. */
  function LineRequirements(d: Data, E: EquipmentRegistry, ln: int, m: int): seq<Constraint>
    requires WellFormed(d) && EquipmentVarsDefined(d, E)
    requires 0 <= ln < d.NumOfLines && m <= d.NumOfFunctions
    decreases m
  {
    if m <= 0 then [] else LineRequirements(d, E, ln, m - 1) + Requirement(d, E, ln, m - 1)
  }

  /** Requirements of the lines below `n`; the loop body of one shift. */
  function ShiftRequirements(d: Data, E: EquipmentRegistry, n: int): seq<Constraint>
    requires WellFormed(d) && EquipmentVarsDefined(d, E) && n <= d.NumOfLines
    decreases n
  {
    if n <= 0 then [] else ShiftRequirements(d, E, n - 1) + LineRequirements(d, E, n - 1, d.NumOfFunctions)
  }

  // ---- The whole pass ----

  /** Everything ConstraintDefinition appends, in order; the pre-assignment pass adds nothing. */
  function ConstraintLog(d: Data, A: WorkerRegistry, E: EquipmentRegistry): seq<Constraint>
    requires WellFormed(d) && WorkerVarsDefined(d, A) && EquipmentVarsDefined(d, E)
  {
    Coverage(d, A, d.NumOfShifts)
    + SingleStage(d, A, d.NumOfWorkers)
    + DayGroups(d, A, d.NumOfStages)
    + EquipmentExclusivity(d, E, d.NumOfLines - 1)
    + Repeat(ShiftRequirements(d, E, d.NumOfLines), d.NumOfShifts)
  }
}
