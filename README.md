# ManPower model formulation, in Dafny

This project models the constraint-model formulation of the ManPower
scheduler (`DensoHack/ManPower/Problem.cs`). A factory has production lines
made of stages. Workers are eligible for some stages and available on some
shifts. Equipment units provide functions that lines require. `Problem` turns
the integer matrices of one instance into three things for a CP-SAT solver:

- a sparse registry of boolean decision variables, keyed by
  `(shift, stage, worker)` and `(line, equipment)`;
- a list of constraints (exactly-one, at-most-one, weighted at-least,
  conditional equality, absolute value, sum equality);
- objective terms and the minimisation target.

The solver is not modelled. Its model object (`CpSat.CpModel`) is a log:
`NewBoolVar`/`NewIntVar` append a declaration with its bounds and return its
position as the variable id, every `Add*` call appends a `Constraint` record,
and `Minimize` records its target. The problem object (`ManPower.Problem`) is a
class whose fields are the source's fields: the two registries are `map`s that
the loops fill, and the two objective lists are `seq`s that the loops extend.

Each loop nest of the source is a method with loop invariants. Its `ensures`
ties the new log to a specification function that follows the same loop nest
(for example `Constraints.Coverage`, `Constraints.DayGroupsFrom`,
`Objectives.GapKeys`). Lemmas in `ConstraintFacts`, `Objectives` and `Variables`
then state what those functions contain, in both directions: every emitted
record belongs to a key that passes the source's guard, and every key that
passes the guard has its record.
`ConstraintCounts` adds that the pairwise sections emit each such record once.
Those lemmas need distinct keys to name distinct variables, which holds for the
registries `VariableDefinition` builds (`Variables.RegistryInjective`).

Files:

- `data.dfy` (`ManPowerData`): the input record with the fields
  `Problem.cs` reads, the well-formedness predicate (rectangular matrices
  matching the counts, at least five activation flags), and the
  allowance-and-availability guard.
- `cpsat.dfy` (`CpSat`): the solver's model as a log, plus small sequence lemmas.
- `variables.dfy` (`Variables`): the variable registry and the per-stage literal lists.
- `constraints.dfy` (`Constraints`): one specification function per constraint section.
- `constraint_facts.dfy` (`ConstraintFacts`): what each constraint section contains.
- `constraint_counts.dfy` (`ConstraintCounts`): how often each record occurs.
- `objectives.dfy` (`Objectives`): the gap pairs, the diversity sums, the totals.
- `problem.dfy` (`ManPower`): the `Problem` class and the driver order of `Program.cs`.

Behaviour of the code worth knowing:

- Pre-assignment directives do nothing. Every branch of the pass is commented out.
- When no worker qualifies for stage `st` on shift `sh`, the coverage
  constraint is an exactly-one over an empty list. No assignment satisfies it,
  so the whole instance is infeasible (`Variables.StageLiteralsEmpty` states
  when the list is empty).
- The "one shift per day" pass does not group shifts. Each visit at shift
  `sh = 0, 3, 6, ...` re-emits the stage-coverage constraint of shift `sh`
  alone: three copies for a full group or a single trailing shift, two copies
  for two trailing shifts. The loop counter `temp` is never read.
- The function requirement does not depend on the shift, yet it is emitted
  once per shift, so the same records appear `NumOfShifts` times.
- Equipment is assigned per line, not per shift and line.
- Objective switch 2 re-emits the day-grouping constraints once per line
  instead of adding a productivity term. Switches 3 and 4 do nothing.
- The gap list collects the signed `tmp` variable, not its absolute value
  `abTmp`, and only `TotalGaps` is minimised. `TotalDiversity` is constrained
  but not part of the objective.
- `Data.cs` declares an older subset of fields (`LineStages`,
  `WorkerStageAllowance`, `StageFunctions`). The input record here has the
  fields `Problem.cs` reads instead.

## Model

| member | source | states |
|---|---|---|
| `CpSat.CpModel.constructor` | DensoHack/ManPower/Problem.cs:33 | a new model has no variables, no constraints and no objective |
| `CpSat.CpModel.NewBoolVar` | DensoHack/ManPower/Problem.cs:61 | a boolean variable gets the next free id and is logged with bounds [0, 1]; constraints and objective are unchanged |
| `CpSat.CpModel.NewIntVar` | DensoHack/ManPower/Problem.cs:283-284 | an integer variable gets the next free id and is logged with its bounds; nothing else changes |
| `CpSat.CpModel.Add` | DensoHack/ManPower/Problem.cs:251-252 | a constraint is appended to the log; variables and objective are unchanged |
| `CpSat.CpModel.Minimize` | DensoHack/ManPower/Problem.cs:418 | the objective becomes the given expression; variables and constraints are unchanged |
| `ManPower.Problem.constructor` | DensoHack/ManPower/Problem.cs:26-36 | a new problem holds the data, a fresh empty model, empty registries and empty objective lists |
| `ManPower.Problem.VariableDefinition` | DensoHack/ManPower/Problem.cs:50-76 | afterwards `(sh, st, w)` is a worker key iff it is in range, the allowance is positive and the worker is available; every in-range `(ln, eq)` is an equipment key; each new entry is a fresh boolean variable named by its key; no constraint is added |
| `ManPower.Problem.DefineWorkerVars` | DensoHack/ManPower/Problem.cs:53-65 | the worker loop adds exactly the guarded keys, in shift, stage, worker order, each with a fresh variable, and keeps older entries |
| `ManPower.Problem.DefineShiftVars` | DensoHack/ManPower/Problem.cs:55-64 | one shift of the worker loop adds the guarded keys of that shift |
| `ManPower.Problem.DefineStageVars` | DensoHack/ManPower/Problem.cs:57-63 | one stage of one shift adds a variable for each qualifying worker in worker order |
| `ManPower.Problem.DefineEquipmentVars` | DensoHack/ManPower/Problem.cs:69-75 | the equipment loop adds every in-range `(ln, eq)` unconditionally, each with a fresh variable |
| `ManPower.Problem.DefineLineVars` | DensoHack/ManPower/Problem.cs:71-74 | one line adds a variable for every equipment |
| `Variables.WorkerVarsAddedStep` | DensoHack/ManPower/Problem.cs:59-62 | one worker iteration adds its key exactly when the guard holds |
| `Variables.WorkerVarsAddedAll` | DensoHack/ManPower/Problem.cs:53-65 | after the worker loop, a key is present iff it was present before or passes the guard, so every guarded lookup later finds its key |
| `Variables.EquipmentVarsAddedStep` | DensoHack/ManPower/Problem.cs:73 | one equipment iteration adds its `(ln, eq)` key |
| `Variables.EquipmentVarsAddedAll` | DensoHack/ManPower/Problem.cs:69-75 | after the equipment loop every in-range `(ln, eq)` is present |
| `Variables.RegistryDeclaredInsert` | DensoHack/ManPower/Problem.cs:61 | storing the new variable under its key keeps every registry entry pointing at a boolean declaration named by that key |
| `Variables.StageWorkersSound` | DensoHack/ManPower/Problem.cs:87-93 | the coverage list names only qualifying workers, each once, in increasing worker order |
| `Variables.StageWorkersComplete` | DensoHack/ManPower/Problem.cs:87-93 | every qualifying worker is in the coverage list |
| `Variables.StageLiteralsAt` | DensoHack/ManPower/Problem.cs:85-93 | the i-th coverage literal is the registry variable of the i-th qualifying worker, whose key exists |
| `Variables.StageLiteralsEmpty` | DensoHack/ManPower/Problem.cs:85-95 | the coverage list of `(sh, st)` is empty iff no worker qualifies |
| `ManPower.Problem.ConstraintDefinition` | DensoHack/ManPower/Problem.cs:78-260 | the log grows by coverage, single-stage pairs, day groups, nothing for pre-assignment, equipment exclusivity and per-shift requirements, in that order; no variable is added |
| `ManPower.Problem.CoverageLiterals` | DensoHack/ManPower/Problem.cs:85-93 | the collected literals are the existing variables of `(sh, st)` in worker order |
| `ManPower.Problem.StageCoverage` | DensoHack/ManPower/Problem.cs:81-97 | one exactly-one record is appended per `(shift, stage)`, shift-major |
| `ConstraintFacts.CoverageLength` | DensoHack/ManPower/Problem.cs:81-97 | the coverage section has `NumOfShifts * NumOfStages` records |
| `ConstraintFacts.CoverageAt` | DensoHack/ManPower/Problem.cs:81-97 | record `sh * NumOfStages + st` is the exactly-one over the existing keys of `(sh, st)` |
| `ConstraintFacts.CoverageSound` | DensoHack/ManPower/Problem.cs:81-97 | every coverage record is the exactly-one of some in-range `(sh, st)` |
| `ManPower.Problem.SingleStagePerShift` | DensoHack/ManPower/Problem.cs:100-116 | the log grows by the at-most-one pairs of every worker, shift and stage pair |
| `ManPower.Problem.StagePairsOf` | DensoHack/ManPower/Problem.cs:104-114 | for one worker and shift, one at-most-one per guarded stage pair `st < ost` |
| `ConstraintFacts.SingleStageSound` | DensoHack/ManPower/Problem.cs:100-116 | every record is the at-most-one of two existing variables `(sh, st, w)`, `(sh, ost, w)` with `st < ost`, both allowances positive and the worker available |
| `ConstraintFacts.SingleStageComplete` | DensoHack/ManPower/Problem.cs:100-116 | every such guarded pair has its at-most-one; the outer bound `NumOfStages - 1` loses no pair |
| `ConstraintCounts.SingleStageDistinct` | DensoHack/ManPower/Problem.cs:100-116 | when distinct keys name distinct variables, no record occurs twice, so with the two lemmas above each guarded `(w, sh, st < ost)` has exactly one at-most-one |
| `ManPower.Problem.DayGroupingAllStages` | DensoHack/ManPower/Problem.cs:119-187 | the log grows by the day-grouping records of every stage |
| `ManPower.Problem.DayGrouping` | DensoHack/ManPower/Problem.cs:121-186 | the while loop visits `sh = 0, 3, 6, ...` and runs ceil(NumOfShifts / 3) times |
| `ManPower.Problem.DayVisit` | DensoHack/ManPower/Problem.cs:124-183 | one visit emits three copies of shift `sh`'s coverage record, or two when exactly two shifts remain |
| `ManPower.Problem.CoverageCopies` | DensoHack/ManPower/Problem.cs:126-142 | the `temp` loop emits `last - sh + 1` identical copies built from shift `sh` only |
| `ConstraintFacts.DayGroupsFromLength` | DensoHack/ManPower/Problem.cs:121-186 | the visits of one stage emit 3 per full group, then 3 for one trailing shift or 2 for two |
| `ConstraintFacts.DayGroupsFromSound` | DensoHack/ManPower/Problem.cs:121-186 | every day-group record is the coverage record of a visited shift `sh + 3j < NumOfShifts`, so no shift at or beyond `NumOfShifts` is read |
| `ConstraintFacts.DayGroupsFromComplete` | DensoHack/ManPower/Problem.cs:121-186 | every visited shift has its coverage record re-emitted |
| `ConstraintFacts.DayGroupsSound` | DensoHack/ManPower/Problem.cs:119-187 | every record of the pass is the coverage record of some shift `3j` and stage |
| `ConstraintFacts.DayGroupsRedundant` | DensoHack/ManPower/Problem.cs:119-187 | every day-group record is already in the stage-coverage section |
| `ManPower.Problem.Preassignment` | DensoHack/ManPower/Problem.cs:190-220 | for any directives, the variables, constraints and objective are the same after the pass as before |
| `ManPower.Problem.EquipmentExclusivityConstraints` | DensoHack/ManPower/Problem.cs:223-232 | the log grows by one at-most-one per line pair `ln < oln` and equipment |
| `ManPower.Problem.LinePairConstraints` | DensoHack/ManPower/Problem.cs:227-230 | for one line pair, one at-most-one per equipment, in equipment order |
| `ConstraintFacts.EquipmentExclusivitySound` | DensoHack/ManPower/Problem.cs:223-232 | every record is the at-most-one of one equipment on two lines `ln < oln` |
| `ConstraintFacts.EquipmentExclusivityComplete` | DensoHack/ManPower/Problem.cs:223-232 | every line pair `ln < oln` and equipment has its record |
| `ConstraintCounts.EquipmentExclusivityDistinct` | DensoHack/ManPower/Problem.cs:223-232 | when distinct keys name distinct variables, no record occurs twice, so each `(ln < oln, eq)` has exactly one at-most-one |
| `ConstraintCounts.OtherLinePairsLength` | DensoHack/ManPower/Problem.cs:225-231 | line `ln` emits `NumOfEquipments` records for each later line |
| `ConstraintCounts.EquipmentExclusivityLength` | DensoHack/ManPower/Problem.cs:223-232 | the first `n` lines emit `n(2L - n - 1)/2` line pairs of `NumOfEquipments` records each |
| `ConstraintCounts.EquipmentExclusivityCount` | DensoHack/ManPower/Problem.cs:223-232 | the whole pass, outer line below `L - 1`, emits `L(L - 1)/2 * NumOfEquipments` records: one per line pair and equipment |
| `Variables.RegistryInjective` | DensoHack/ManPower/Problem.cs:53-75 | every variable is declared under its own key, so no two keys share a variable |
| `ConstraintCounts.PairSectionsDistinct` | DensoHack/ManPower/Problem.cs:100-116 | for registries built as `VariableDefinition` builds them, the single-stage section repeats no record, and neither does the exclusivity section of lines 223-232 |
| `ManPower.Problem.RequirementTerms` | DensoHack/ManPower/Problem.cs:241-247 | the terms are every equipment variable of the line with that equipment's count of the function |
| `ManPower.Problem.LineRequirementConstraints` | DensoHack/ManPower/Problem.cs:239-254 | for one line, a weighted at-least record per function with a positive requirement |
| `ManPower.Problem.FunctionRequirements` | DensoHack/ManPower/Problem.cs:235-256 | the same requirement records are appended once per shift |
| `ConstraintFacts.ShiftRequirementsSound` | DensoHack/ManPower/Problem.cs:237-255 | every requirement record has a positive requirement as its bound, so a requirement of zero or less emits nothing |
| `ConstraintFacts.ShiftRequirementsComplete` | DensoHack/ManPower/Problem.cs:237-255 | every positive requirement of every line and function has its record |
| `ConstraintCounts.LineRequirementsAt` | DensoHack/ManPower/Problem.cs:239-254 | record i of line `ln` is the requirement of the i-th function with a positive requirement; those functions strictly increase |
| `ConstraintCounts.ShiftRequirementsAt` | DensoHack/ManPower/Problem.cs:237-255 | within one shift, record i is the requirement of the i-th `(ln, fu)` with a positive requirement, and those pairs strictly increase in loop order, so no pair has two records |
| `ConstraintCounts.RequirementKeysComplete` | DensoHack/ManPower/Problem.cs:237-255 | every `(ln, fu)` with a positive requirement is one of those pairs |
| `ConstraintFacts.RequirementsPerShift` | DensoHack/ManPower/Problem.cs:235-256 | the section is `NumOfShifts` copies of one shift's records; copy `sh` sits at its own offset |
| `ManPower.Problem.ObjectiveDefinition` | DensoHack/ManPower/Problem.cs:262-419 | the gap pairs, diversity sums, re-emitted day groups and the two totals are logged, and the objective is the `TotalGaps` variable |
| `ManPower.Problem.ObjectiveLists` | DensoHack/ManPower/Problem.cs:265-408 | each section is added only when its switch is positive; switches 3 and 4 change nothing |
| `ManPower.Problem.ObjectiveTotals` | DensoHack/ManPower/Problem.cs:411-418 | two totals in [0, int.MaxValue] are declared and tied to their lists, and `TotalGaps` alone is minimised |
| `ManPower.Problem.GapObjective` | DensoHack/ManPower/Problem.cs:265-299 | switch 0 logs the variables, constraints and gap terms of every gap pair, in loop order |
| `ManPower.Problem.ShiftGaps` | DensoHack/ManPower/Problem.cs:269-297 | one shift logs the pairs of every line |
| `ManPower.Problem.LineGaps` | DensoHack/ManPower/Problem.cs:271-296 | one line logs the pairs of the stages it runs only |
| `ManPower.Problem.StageGaps` | DensoHack/ManPower/Problem.cs:275-294 | one stage logs the pairs of qualifying first workers below `NumOfWorkers - 1` |
| `ManPower.Problem.PairGaps` | DensoHack/ManPower/Problem.cs:279-292 | one first worker logs a pair for every later qualifying worker |
| `ManPower.Problem.AddGapPair` | DensoHack/ManPower/Problem.cs:283-290 | a pair declares `tmp` in [-100, 100] and `abTmp` in [0, 100], logs the conditional score difference and the absolute value, and appends `tmp` to the gap list |
| `Objectives.GapLogNextOther` | DensoHack/ManPower/Problem.cs:279-291 | a qualifying second worker extends the gap log by exactly its pair |
| `Objectives.GapKeysSound` | DensoHack/ManPower/Problem.cs:265-299 | every gap pair is `w < ow` at a stage the line runs, both workers qualifying, listed in loop order with no pair twice |
| `Objectives.GapKeysComplete` | DensoHack/ManPower/Problem.cs:265-299 | every such pair is listed |
| `Objectives.GapDeclsAt` | DensoHack/ManPower/Problem.cs:283-284 | pair i owns variable 2i (`tmp`, [-100, 100]) and 2i + 1 (`abTmp`, [0, 100]) of the section |
| `Objectives.GapConstraintsAt` | DensoHack/ManPower/Problem.cs:285-289 | pair i's two constraints sit at 2i and 2i + 1 and name its own variables |
| `Objectives.GapTermsAt` | DensoHack/ManPower/Problem.cs:290 | the i-th gap term is pair i's `tmp` |
| `Objectives.GapTotalSumsTmp` | DensoHack/ManPower/Problem.cs:283-290 | every gap term names a `tmp` declaration, never an `abTmp` |
| `Objectives.ObjectiveTargetsTotalGaps` | DensoHack/ManPower/Problem.cs:411-418 | the minimised variable is the `TotalGaps` declaration and the one before it is `TotalDiversity` |
| `ManPower.Problem.DiversityObjective` | DensoHack/ManPower/Problem.cs:302-320 | switch 1 appends one sum per worker |
| `ManPower.Problem.CollectWorkerLiterals` | DensoHack/ManPower/Problem.cs:306-316 | a worker's literals are its existing variables, shift-major |
| `Objectives.DiversityTermsAt` | DensoHack/ManPower/Problem.cs:302-320 | the w-th diversity term is the sum of worker w's literals |
| `Objectives.WorkerLiteralsSound` | DensoHack/ManPower/Problem.cs:306-316 | every literal of worker w's sum is an existing variable of worker w |
| `Objectives.WorkerLiteralsComplete` | DensoHack/ManPower/Problem.cs:306-316 | every existing variable of worker w is in its sum |
| `Objectives.ShiftWorkerLiteralsDistinct` | DensoHack/ManPower/Problem.cs:308-315 | when distinct keys name distinct variables, one shift's part of worker w's sum names no variable twice |
| `Objectives.WorkerLiteralsDistinct` | DensoHack/ManPower/Problem.cs:306-316 | when distinct keys name distinct variables, worker w's sum names no variable twice, so each assignment counts once |
| `Objectives.DiversityLiteralsDistinct` | DensoHack/ManPower/Problem.cs:304-319 | for the registry `VariableDefinition` builds, no worker's diversity sum repeats a variable |
| `ManPower.Problem.LineProductivity` | DensoHack/ManPower/Problem.cs:323-398 | switch 2 appends the day-grouping records once per line and no productivity term |
| `ManPower.Problem.GetJSONResult` | DensoHack/ManPower/Problem.cs:421-432 | the result echoes the six instance counts |
| `ManPower.Formulate` | DensoHack/ManPower/Program.cs:9-12 | in the driver's order the registries hold exactly the guarded worker keys and every in-range equipment key, the log is the constraint sections, and no objective is set |

## Left out

- `Setup` (solver parameter string) and `Solve` (the CP-SAT search and its console output): a foreign solver and I/O.
- `Data.Populate` and `ExcelDataContext`: spreadsheet loading through a process-wide singleton with a fixed path. The input is an abstract record instead.
- The `DensoBE/Server` tree (REST controller, JSON-file persistence, DTOs, an empty solver stub) and `ResultModel` beyond its six counts: no behaviour of the formulation.
- The `_totalSalary`, `_totalChance` and `_totalProductivity` lists: declared in the source but never created or used.
- Variable names: the source formats strings such as `A[sh|st|w]`; the model uses a structured name with the same indices.
- 32-bit integers: counts and matrix entries are unbounded; index arithmetic such as `sh + 2` cannot wrap in the model, and `int.MaxValue` is the constant 2147483647.
- Malformed input: the model requires every matrix to have exactly the dimensions its counts give, and `Activate` to have at least five entries, as a validated instance does. Instances with longer rows, which the source would accept, and with a short `Activate` are excluded here; a row shorter than its count, on which the source throws an index exception, is not modelled either.
- `ManPower.Problem.ConstraintDefinition`: requires that every guarded key is already in the registries (`VariableDefinition` ran first). Called earlier, the source throws a missing-key exception, which is not modelled.
- `ManPower.Problem.ObjectiveDefinition`: requires the same of the worker registry, for the same reason.
- `ManPower.Formulate`: follows `Program.cs`, which never calls `ObjectiveDefinition`, so the formulated model has no objective.
