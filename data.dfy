/**
 * The input record of one scheduling instance: the counts and the integer
 * matrices that the model formulation in Problem.cs reads, and the
 * dimension record it echoes back.
 */
module ManPowerData {

  /** A worker-assignment key (shift, stage, worker). */
  type WorkerKey = (int, int, int)

  /** An equipment-assignment key (line, equipment). */
  type EquipmentKey = (int, int)

  /** The key of one productivity-gap pair: two workers w < ow at a stage of a line in a shift. */
  datatype GapKey = GapKey(shift: int, line: int, stage: int, worker: int, other: int)

  datatype Data = Data(
    NumOfLines: nat,
    NumOfStages: nat,
    NumOfWorkers: nat,
    NumOfEquipments: nat,
    NumOfFunctions: nat,
    NumOfShifts: nat,
    WorkerStageAllowance: seq<seq<int>>,          // [stage][worker]
    WorkerShift: seq<seq<int>>,                   // [worker][shift]
    WorkerPreassign: seq<seq<int>>,               // [stage][worker]
    LineStage: seq<seq<int>>,                     // [line][stage]
    EquipmentFunction: seq<seq<int>>,             // [equipment][function]
    LineFunctionRequirement: seq<seq<int>>,       // [line][function]
    WorkerStageProductivityScore: seq<seq<int>>,  // [stage][worker]
    Activate: seq<int>)                           // objective switches, indices 0..4

  /** `m` has `rows` rows of `cols` entries each. */
  predicate Rectangular(m: seq<seq<int>>, rows: nat, cols: nat)
  {
    |m| == rows && forall i :: 0 <= i < rows ==> |m[i]| == cols
  }

  /** Every matrix matches the declared counts, so no index the formulation uses is out of range. */
  predicate WellFormed(d: Data)
  {
    && Rectangular(d.WorkerStageAllowance, d.NumOfStages, d.NumOfWorkers)
    && Rectangular(d.WorkerShift, d.NumOfWorkers, d.NumOfShifts)
    && Rectangular(d.WorkerPreassign, d.NumOfStages, d.NumOfWorkers)
    && Rectangular(d.LineStage, d.NumOfLines, d.NumOfStages)
    && Rectangular(d.EquipmentFunction, d.NumOfEquipments, d.NumOfFunctions)
    && Rectangular(d.LineFunctionRequirement, d.NumOfLines, d.NumOfFunctions)
    && Rectangular(d.WorkerStageProductivityScore, d.NumOfStages, d.NumOfWorkers)
    && |d.Activate| >= 5
  }

  /** The allowance-and-availability guard: worker `w` may do stage `st` and works shift `sh`. */
  predicate Qualifies(d: Data, sh: int, st: int, w: int)
    requires WellFormed(d)
    requires 0 <= sh < d.NumOfShifts && 0 <= st < d.NumOfStages && 0 <= w < d.NumOfWorkers
  {
    d.WorkerStageAllowance[st][w] > 0 && d.WorkerShift[w][sh] > 0
  }

  /** `k` is in range and passes the guard: the keys for which an assignment variable is created. */
  predicate IsWorkerKey(d: Data, k: WorkerKey)
    requires WellFormed(d)
  {
    && 0 <= k.0 < d.NumOfShifts && 0 <= k.1 < d.NumOfStages && 0 <= k.2 < d.NumOfWorkers
    && Qualifies(d, k.0, k.1, k.2)
  }

  /** Every in-range (line, equipment) pair gets a variable. */
  predicate IsEquipmentKey(d: Data, k: EquipmentKey)
  {
    0 <= k.0 < d.NumOfLines && 0 <= k.1 < d.NumOfEquipments
  }

  /** The instance dimensions echoed in the result. */
  datatype ResultModel = ResultModel(
    NumOfShifts: int,
    NumOfLines: int,
    NumOfStages: int,
    NumOfWorkers: int,
    NumOfEquipments: int,
    NumOfFunctions: int)
}
