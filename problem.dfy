/**
 * The model formulation of Problem.cs: a Problem object owns a CP model log,
 * the sparse variable registries and the objective term lists, and fills them
 * in three passes (variables, constraints, objectives).
 */
module ManPower {
  import opened ManPowerData
  import opened CpSat
  import opened Variables
  import opened Constraints
  import opened Objectives

  class Problem {
    const data: Data
    const model: CpModel
    var assignWorker: WorkerRegistry
    var assignEquipment: EquipmentRegistry
    var totalDiversity: seq<LinearExpr>
    var totalGaps: seq<LinearExpr>

    /** Every registry entry names the boolean variable declared for its key. */
    ghost predicate Valid()
      reads this, model
    {
      RegistryDeclared(assignWorker, assignEquipment, model.vars)
    }

    constructor (data: Data)
      ensures this.data == data && fresh(model) && Valid()
      ensures model.vars == [] && model.constraints == [] && model.objective == None
      ensures assignWorker == map[] && assignEquipment == map[]
      ensures totalDiversity == [] && totalGaps == []
    {
      this.data := data;
      model := new CpModel();
      assignWorker, assignEquipment := map[], map[];
      totalDiversity, totalGaps := [], [];
    }

    /**
     * Creates one boolean variable per (shift, stage, worker) that passes the
     * allowance-and-availability guard, then one per (line, equipment).
     */
    method VariableDefinition()
      requires WellFormed(data) && Valid()
      modifies this`assignWorker, this`assignEquipment, model
      ensures Valid()
      ensures model.vars == old(model.vars) + WorkerDecls(data, data.NumOfShifts) + EquipmentDecls(data, data.NumOfLines)
      ensures model.constraints == old(model.constraints) && model.objective == old(model.objective)
      ensures forall k :: k in assignWorker <==> k in old(assignWorker) || IsWorkerKey(data, k)
      ensures forall k :: IsWorkerKey(data, k) ==> |old(model.vars)| <= assignWorker[k]
      ensures forall k :: k in old(assignWorker) && !IsWorkerKey(data, k) ==> assignWorker[k] == old(assignWorker)[k]
      ensures forall k :: k in assignEquipment <==> k in old(assignEquipment) || IsEquipmentKey(data, k)
      ensures forall k :: IsEquipmentKey(data, k) ==> |old(model.vars)| <= assignEquipment[k]
      ensures forall k :: k in old(assignEquipment) && !IsEquipmentKey(data, k) ==> assignEquipment[k] == old(assignEquipment)[k]
      ensures WorkerVarsDefined(data, assignWorker) && EquipmentVarsDefined(data, assignEquipment)
    {
      DefineWorkerVars();
      WorkerVarsAddedAll(data, old(assignWorker), assignWorker, |old(model.vars)|);
      ghost var E0, m0 := assignEquipment, |model.vars|;
      DefineEquipmentVars();
      EquipmentVarsAddedAll(data, E0, assignEquipment, m0);
    }

    /** The worker half of VariableDefinition: one variable per qualifying (shift, stage, worker). */
    method DefineWorkerVars()
      requires WellFormed(data) && Valid()
      modifies this`assignWorker, model
      ensures Valid()
      ensures model.vars == old(model.vars) + WorkerDecls(data, data.NumOfShifts)
      ensures model.constraints == old(model.constraints) && model.objective == old(model.objective)
      ensures WorkerVarsAdded(data, old(assignWorker), assignWorker, |old(model.vars)|, data.NumOfShifts, 0, 0)
    {
      ghost var A0, n0 := assignWorker, |model.vars|;
      for sh := 0 to data.NumOfShifts
        invariant Valid() && n0 <= |model.vars|
        invariant model.vars == old(model.vars) + WorkerDecls(data, sh)
        invariant model.constraints == old(model.constraints) && model.objective == old(model.objective)
        invariant WorkerVarsAdded(data, A0, assignWorker, n0, sh, 0, 0)
      {
        DefineShiftVars(sh, A0, n0);
        AppendAssoc(old(model.vars), WorkerDecls(data, sh), ShiftDecls(data, sh, data.NumOfStages));
      }
    }

    /** The equipment half of VariableDefinition: one variable per (line, equipment), unconditionally. */
    method DefineEquipmentVars()
      requires Valid()
      modifies this`assignEquipment, model
      ensures Valid()
      ensures model.vars == old(model.vars) + EquipmentDecls(data, data.NumOfLines)
      ensures model.constraints == old(model.constraints) && model.objective == old(model.objective)
      ensures EquipmentVarsAdded(data, old(assignEquipment), assignEquipment, |old(model.vars)|, data.NumOfLines, 0)
    {
      ghost var E0, m0 := assignEquipment, |model.vars|;
      for ln := 0 to data.NumOfLines
        invariant Valid() && m0 <= |model.vars|
        invariant model.vars == old(model.vars) + EquipmentDecls(data, ln)
        invariant model.constraints == old(model.constraints) && model.objective == old(model.objective)
        invariant EquipmentVarsAdded(data, E0, assignEquipment, m0, ln, 0)
      {
        DefineLineVars(ln, E0, m0);
        AppendAssoc(old(model.vars), EquipmentDecls(data, ln), LineDecls(data, ln, data.NumOfEquipments));
      }
    }

    /** The equipment loop of VariableDefinition for line `ln`. */
    method DefineLineVars(ln: int, ghost E0: EquipmentRegistry, ghost m0: int)
      requires Valid() && 0 <= ln < data.NumOfLines
      requires EquipmentVarsAdded(data, E0, assignEquipment, m0, ln, 0) && m0 <= |model.vars|
      modifies this`assignEquipment, model
      ensures Valid() && m0 <= |model.vars|
      ensures model.vars == old(model.vars) + LineDecls(data, ln, data.NumOfEquipments)
      ensures model.constraints == old(model.constraints) && model.objective == old(model.objective)
      ensures EquipmentVarsAdded(data, E0, assignEquipment, m0, ln + 1, 0)
    {
      for eq := 0 to data.NumOfEquipments
        invariant Valid() && m0 <= |model.vars|
        invariant model.vars == old(model.vars) + LineDecls(data, ln, eq)
        invariant model.constraints == old(model.constraints) && model.objective == old(model.objective)
        invariant EquipmentVarsAdded(data, E0, assignEquipment, m0, ln, eq)
      {
        EquipmentVarsAddedStep(data, E0, assignEquipment, m0, ln, eq, |model.vars|);
        RegistryDeclaredInsertEquipment(assignWorker, assignEquipment, model.vars, ln, eq);
        var v := model.NewBoolVar(Equip(ln, eq));
        assignEquipment := assignEquipment[(ln, eq) := v];
        AppendAssoc(old(model.vars), LineDecls(data, ln, eq), [BoolDecl(Equip(ln, eq))]);
      }
      EquipmentVarsAddedNextLine(data, E0, assignEquipment, m0, ln);
    }

    /** The stage loop of VariableDefinition for shift `sh`. */
    method DefineShiftVars(sh: int, ghost A0: WorkerRegistry, ghost n0: int)
      requires WellFormed(data) && Valid() && 0 <= sh < data.NumOfShifts
      requires WorkerVarsAdded(data, A0, assignWorker, n0, sh, 0, 0) && n0 <= |model.vars|
      modifies this`assignWorker, model
      ensures Valid() && n0 <= |model.vars|
      ensures model.vars == old(model.vars) + ShiftDecls(data, sh, data.NumOfStages)
      ensures model.constraints == old(model.constraints) && model.objective == old(model.objective)
      ensures WorkerVarsAdded(data, A0, assignWorker, n0, sh + 1, 0, 0)
    {
      for st := 0 to data.NumOfStages
        invariant Valid() && n0 <= |model.vars|
        invariant model.vars == old(model.vars) + ShiftDecls(data, sh, st)
        invariant model.constraints == old(model.constraints) && model.objective == old(model.objective)
        invariant WorkerVarsAdded(data, A0, assignWorker, n0, sh, st, 0)
      {
        DefineStageVars(sh, st, A0, n0);
        AppendAssoc(old(model.vars), ShiftDecls(data, sh, st), StageDecls(data, sh, st, data.NumOfWorkers));
      }
      WorkerVarsAddedNextShift(data, A0, assignWorker, n0, sh);
    }

    /** The innermost loop of VariableDefinition: workers of stage `st` in shift `sh`. */
    method DefineStageVars(sh: int, st: int, ghost A0: WorkerRegistry, ghost n0: int)
      requires WellFormed(data) && Valid()
      requires 0 <= sh < data.NumOfShifts && 0 <= st < data.NumOfStages
      requires WorkerVarsAdded(data, A0, assignWorker, n0, sh, st, 0) && n0 <= |model.vars|
      modifies this`assignWorker, model
      ensures Valid() && n0 <= |model.vars|
      ensures model.vars == old(model.vars) + StageDecls(data, sh, st, data.NumOfWorkers)
      ensures model.constraints == old(model.constraints) && model.objective == old(model.objective)
      ensures WorkerVarsAdded(data, A0, assignWorker, n0, sh, st + 1, 0)
    {
      // the step lemmas of Variables carry the registry facts; keep their predicates folded
      hide WorkerVarsAdded, RegistryDeclared;
      for w := 0 to data.NumOfWorkers
        invariant Valid() && n0 <= |model.vars|
        invariant model.vars == old(model.vars) + StageDecls(data, sh, st, w)
        invariant model.constraints == old(model.constraints) && model.objective == old(model.objective)
        invariant WorkerVarsAdded(data, A0, assignWorker, n0, sh, st, w)
      {
        WorkerVarsAddedStep(data, A0, assignWorker, n0, sh, st, w, |model.vars|);
        if data.WorkerStageAllowance[st][w] > 0 && data.WorkerShift[w][sh] > 0 {
          RegistryDeclaredInsert(assignWorker, assignEquipment, model.vars, sh, st, w);
          var v := model.NewBoolVar(Assign(sh, st, w));
          assignWorker := assignWorker[(sh, st, w) := v];
        }
        AppendAssoc(old(model.vars), StageDecls(data, sh, st, w),
                    if Qualifies(data, sh, st, w) then [BoolDecl(Assign(sh, st, w))] else []);
      }
      WorkerVarsAddedNextStage(data, A0, assignWorker, n0, sh, st);
    }
    // ---- ConstraintDefinition (Problem.cs:78-260) ----

    /**
     * Appends every hard constraint. Each registry lookup sits behind the guard
     * that created its key, so the pass needs no more than the keys that
     * VariableDefinition creates.
     */
    method ConstraintDefinition()
      requires WellFormed(data) && Valid()
      requires WorkerVarsDefined(data, assignWorker) && EquipmentVarsDefined(data, assignEquipment)
      modifies model
      ensures Valid()
      ensures model.vars == old(model.vars) && model.objective == old(model.objective)
      ensures model.constraints == old(model.constraints) + ConstraintLog(data, assignWorker, assignEquipment)
    {
      // each pass's ensures names its section; keep the section bodies folded
      hide Coverage, SingleStage, DayGroups, EquipmentExclusivity, ShiftRequirements, Repeat, RegistryDeclared;
      ghost var c0, A, E := model.constraints, assignWorker, assignEquipment;
      StageCoverage();
      ghost var s1 := Coverage(data, A, data.NumOfShifts);
      SingleStagePerShift();
      ghost var s2 := SingleStage(data, A, data.NumOfWorkers);
      AppendAssoc(c0, s1, s2);
      DayGroupingAllStages();
      ghost var s3 := DayGroups(data, A, data.NumOfStages);
      AppendAssoc(c0, s1 + s2, s3);
      Preassignment();
      EquipmentExclusivityConstraints();
      ghost var s4 := EquipmentExclusivity(data, E, data.NumOfLines - 1);
      AppendAssoc(c0, s1 + s2 + s3, s4);
      FunctionRequirements();
      ghost var s5 := Repeat(ShiftRequirements(data, E, data.NumOfLines), data.NumOfShifts);
      AppendAssoc(c0, s1 + s2 + s3 + s4, s5);
    }

    /** 3. The day-grouping pass over all stages. */
    method DayGroupingAllStages()
      requires WellFormed(data) && WorkerVarsDefined(data, assignWorker)
      modifies model
      ensures model.vars == old(model.vars) && model.objective == old(model.objective)
      ensures model.constraints == old(model.constraints) + DayGroups(data, assignWorker, data.NumOfStages)
    {
      for st := 0 to data.NumOfStages
        invariant model.vars == old(model.vars) && model.objective == old(model.objective)
        invariant model.constraints == old(model.constraints) + DayGroups(data, assignWorker, st)
      {
        ghost var visits := DayGrouping(st);
        AppendAssoc(old(model.constraints), DayGroups(data, assignWorker, st), DayGroupsFrom(data, assignWorker, st, 0));
      }
    }

    /** The literal list of (sh, st): the registry variables of the qualifying workers, in worker order. */
    method CoverageLiterals(sh: int, st: int) returns (lits: seq<VarId>)
      requires WellFormed(data) && WorkerVarsDefined(data, assignWorker)
      requires 0 <= sh < data.NumOfShifts && 0 <= st < data.NumOfStages
      ensures lits == StageLiterals(data, assignWorker, sh, st, data.NumOfWorkers)
    {
      lits := [];
      for w := 0 to data.NumOfWorkers
        invariant lits == StageLiterals(data, assignWorker, sh, st, w)
      {
        if data.WorkerStageAllowance[st][w] > 0 && data.WorkerShift[w][sh] > 0 {
          lits := lits + [assignWorker[(sh, st, w)]];
        }
      }
    }

    /** 1. Each stage needs exactly one worker in every shift. */
    method StageCoverage()
      requires WellFormed(data) && WorkerVarsDefined(data, assignWorker)
      modifies model
      ensures model.vars == old(model.vars) && model.objective == old(model.objective)
      ensures model.constraints == old(model.constraints) + Coverage(data, assignWorker, data.NumOfShifts)
    {
      for sh := 0 to data.NumOfShifts
        invariant model.vars == old(model.vars) && model.objective == old(model.objective)
        invariant model.constraints == old(model.constraints) + Coverage(data, assignWorker, sh)
      {
        ghost var before := model.constraints;
        for st := 0 to data.NumOfStages
          invariant model.vars == old(model.vars) && model.objective == old(model.objective)
          invariant model.constraints == before + ShiftCoverage(data, assignWorker, sh, st)
        {
          var lits := CoverageLiterals(sh, st);
          model.Add(ExactlyOne(lits));
          AppendAssoc(before, ShiftCoverage(data, assignWorker, sh, st), [CoverageOf(data, assignWorker, sh, st)]);
        }
        AppendAssoc(old(model.constraints), Coverage(data, assignWorker, sh), ShiftCoverage(data, assignWorker, sh, data.NumOfStages));
      }
    }

    /** 2. A worker works at most one stage per shift, as pairwise at-most-one constraints. */
    method SingleStagePerShift()
      requires WellFormed(data) && WorkerVarsDefined(data, assignWorker)
      modifies model
      ensures model.vars == old(model.vars) && model.objective == old(model.objective)
      ensures model.constraints == old(model.constraints) + SingleStage(data, assignWorker, data.NumOfWorkers)
    {
      for w := 0 to data.NumOfWorkers
        invariant model.vars == old(model.vars) && model.objective == old(model.objective)
        invariant model.constraints == old(model.constraints) + SingleStage(data, assignWorker, w)
      {
        ghost var before := model.constraints;
        for sh := 0 to data.NumOfShifts
          invariant model.vars == old(model.vars) && model.objective == old(model.objective)
          invariant model.constraints == before + WorkerStagePairs(data, assignWorker, w, sh)
        {
          StagePairsOf(w, sh);
          AppendAssoc(before, WorkerStagePairs(data, assignWorker, w, sh), ShiftStagePairs(data, assignWorker, w, sh, data.NumOfStages - 1));
        }
        AppendAssoc(old(model.constraints), SingleStage(data, assignWorker, w), WorkerStagePairs(data, assignWorker, w, data.NumOfShifts));
      }
    }

    /** The two inner loops of pass 2 for worker `w` in shift `sh`: every stage pair st < ost. */
    method StagePairsOf(w: int, sh: int)
      requires WellFormed(data) && WorkerVarsDefined(data, assignWorker)
      requires 0 <= w < data.NumOfWorkers && 0 <= sh < data.NumOfShifts
      modifies model
      ensures model.vars == old(model.vars) && model.objective == old(model.objective)
      ensures model.constraints == old(model.constraints) + ShiftStagePairs(data, assignWorker, w, sh, data.NumOfStages - 1)
    {
      var st := 0;
      while st < data.NumOfStages - 1
        invariant 0 <= st && (st <= data.NumOfStages - 1 || st == 0)
        invariant model.vars == old(model.vars) && model.objective == old(model.objective)
        invariant model.constraints == old(model.constraints) + ShiftStagePairs(data, assignWorker, w, sh, st)
      {
        ghost var before := model.constraints;
        for ost := st + 1 to data.NumOfStages
          invariant model.vars == old(model.vars) && model.objective == old(model.objective)
          invariant model.constraints == before + OtherStagePairs(data, assignWorker, w, sh, st, ost)
        {
          if data.WorkerStageAllowance[st][w] > 0 && data.WorkerStageAllowance[ost][w] > 0 && data.WorkerShift[w][sh] > 0 {
            model.Add(AtMostOne([assignWorker[(sh, st, w)], assignWorker[(sh, ost, w)]]));
          }
          AppendAssoc(before, OtherStagePairs(data, assignWorker, w, sh, st, ost),
                      if PairGuard(data, w, sh, st, ost) then [StagePair(data, assignWorker, w, sh, st, ost)] else []);
        }
        AppendAssoc(old(model.constraints), ShiftStagePairs(data, assignWorker, w, sh, st), OtherStagePairs(data, assignWorker, w, sh, st, data.NumOfStages));
        st := st + 1;
      }
    }

    /**
     * 3. The day-grouping loop of stage `st`: it visits sh = 0, 3, 6, ... and at
     * each visit emits copies of the coverage constraint of shift `sh` alone;
     * `visits` counts the iterations.
     */
    method DayGrouping(st: int) returns (ghost visits: nat)
      requires WellFormed(data) && WorkerVarsDefined(data, assignWorker)
      requires 0 <= st < data.NumOfStages
      modifies model
      ensures model.vars == old(model.vars) && model.objective == old(model.objective)
      ensures model.constraints == old(model.constraints) + DayGroupsFrom(data, assignWorker, st, 0)
      ensures visits == (data.NumOfShifts + 2) / 3
    {
      var sh := 0;
      visits := 0;
      while sh < data.NumOfShifts
        invariant 0 <= sh <= data.NumOfShifts + 2 && sh == 3 * visits
        invariant model.vars == old(model.vars) && model.objective == old(model.objective)
        invariant old(model.constraints) + DayGroupsFrom(data, assignWorker, st, 0)
                  == model.constraints + DayGroupsFrom(data, assignWorker, st, sh)
        decreases data.NumOfShifts - sh
      {
        DayVisit(sh, st);
        sh := sh + 3;
        visits := visits + 1;
      }
      VisitCount(data.NumOfShifts, visits);
    }

    /** One visit of the day-grouping loop at shift `sh`: the three branches on the shifts left. */
    method DayVisit(sh: int, st: int)
      requires WellFormed(data) && WorkerVarsDefined(data, assignWorker)
      requires 0 <= sh < data.NumOfShifts && 0 <= st < data.NumOfStages
      modifies model
      ensures model.vars == old(model.vars) && model.objective == old(model.objective)
      ensures model.constraints == old(model.constraints) + Repeat([CoverageOf(data, assignWorker, sh, st)], DayCopies(data.NumOfShifts, sh))
      ensures old(model.constraints) + DayGroupsFrom(data, assignWorker, st, sh)
              == model.constraints + DayGroupsFrom(data, assignWorker, st, sh + 3)
    {
      ghost var copies := Repeat([CoverageOf(data, assignWorker, sh, st)], DayCopies(data.NumOfShifts, sh));
      if sh + 2 < data.NumOfShifts {
        CoverageCopies(sh, st, sh + 2);
      } else if sh + 1 < data.NumOfShifts {
        CoverageCopies(sh, st, sh + 1);
      } else {
        CoverageCopies(sh, st, sh + 2);
      }
      assert DayGroupsFrom(data, assignWorker, st, sh) == copies + DayGroupsFrom(data, assignWorker, st, sh + 3);
      AppendAssoc(old(model.constraints), copies, DayGroupsFrom(data, assignWorker, st, sh + 3));
    }

    /** The `for (temp = sh; temp <= last; temp++)` loop: the counter is never read. */
    method CoverageCopies(sh: int, st: int, last: int)
      requires WellFormed(data) && WorkerVarsDefined(data, assignWorker)
      requires 0 <= sh < data.NumOfShifts && 0 <= st < data.NumOfStages && sh <= last + 1
      modifies model
      ensures model.vars == old(model.vars) && model.objective == old(model.objective)
      ensures model.constraints == old(model.constraints) + Repeat([CoverageOf(data, assignWorker, sh, st)], last - sh + 1)
    {
      for temp := sh to last + 1
        invariant model.vars == old(model.vars) && model.objective == old(model.objective)
        invariant model.constraints == old(model.constraints) + Repeat([CoverageOf(data, assignWorker, sh, st)], temp - sh)
      {
        var lits := CoverageLiterals(sh, st);
        model.Add(ExactlyOne(lits));
        AppendAssoc(old(model.constraints), Repeat([CoverageOf(data, assignWorker, sh, st)], temp - sh), [CoverageOf(data, assignWorker, sh, st)]);
      }
    }

    /**
     * 4. The pre-assignment pass. It visits every existing variable and tests
     * its directive (1, 1 again, -1, -2), but every directive branch is empty,
     * so the model and the registries leave the pass as they entered it.
     */
    method Preassignment()
      requires WellFormed(data)
      modifies model
      ensures model.vars == old(model.vars) && model.constraints == old(model.constraints)
      ensures model.objective == old(model.objective)
    {
      for sh := 0 to data.NumOfShifts
        invariant model.vars == old(model.vars) && model.constraints == old(model.constraints)
        invariant model.objective == old(model.objective)
      {
        for st := 0 to data.NumOfStages
          invariant model.vars == old(model.vars) && model.constraints == old(model.constraints)
          invariant model.objective == old(model.objective)
        {
          for w := 0 to data.NumOfWorkers
            invariant model.vars == old(model.vars) && model.constraints == old(model.constraints)
            invariant model.objective == old(model.objective)
          {
            if data.WorkerStageAllowance[st][w] > 0 && data.WorkerShift[w][sh] > 0 {
              var directive := data.WorkerPreassign[st][w];
              if directive == 1 {
                // forcing the variable to 1 is commented out in the source
              }
              if directive == 1 {
                // the search hint towards 1 is commented out in the source
              }
              if directive == -1 {
                // the search hint towards 0 is commented out in the source
              }
              if directive == -2 {
                // forcing the variable to 0 is commented out in the source
              }
            }
          }
        }
      }
    }

    /** 5. Each equipment stays on at most one line: one at-most-one per line pair and equipment. */
    method EquipmentExclusivityConstraints()
      requires EquipmentVarsDefined(data, assignEquipment)
      modifies model
      ensures model.vars == old(model.vars) && model.objective == old(model.objective)
      ensures model.constraints == old(model.constraints) + EquipmentExclusivity(data, assignEquipment, data.NumOfLines - 1)
    {
      // LinePairConstraints' ensures names its records; keep them folded
      hide LinePairEquipment, EquipmentPair;
      var ln := 0;
      while ln < data.NumOfLines - 1
        invariant 0 <= ln && (ln <= data.NumOfLines - 1 || ln == 0)
        invariant model.vars == old(model.vars) && model.objective == old(model.objective)
        invariant model.constraints == old(model.constraints) + EquipmentExclusivity(data, assignEquipment, ln)
      {
        ghost var before := model.constraints;
        for oln := ln + 1 to data.NumOfLines
          invariant model.vars == old(model.vars) && model.objective == old(model.objective)
          invariant model.constraints == before + OtherLinePairs(data, assignEquipment, ln, oln)
        {
          LinePairConstraints(ln, oln);
          AppendAssoc(before, OtherLinePairs(data, assignEquipment, ln, oln), LinePairEquipment(data, assignEquipment, ln, oln, data.NumOfEquipments));
        }
        AppendAssoc(old(model.constraints), EquipmentExclusivity(data, assignEquipment, ln), OtherLinePairs(data, assignEquipment, ln, data.NumOfLines));
        ln := ln + 1;
      }
    }

    /** The innermost loop of pass 5: every equipment for lines `ln` and `oln`. */
    method LinePairConstraints(ln: int, oln: int)
      requires EquipmentVarsDefined(data, assignEquipment)
      requires 0 <= ln < data.NumOfLines && 0 <= oln < data.NumOfLines
      modifies model
      ensures model.vars == old(model.vars) && model.objective == old(model.objective)
      ensures model.constraints == old(model.constraints) + LinePairEquipment(data, assignEquipment, ln, oln, data.NumOfEquipments)
    {
      for eq := 0 to data.NumOfEquipments
        invariant model.vars == old(model.vars) && model.objective == old(model.objective)
        invariant model.constraints == old(model.constraints) + LinePairEquipment(data, assignEquipment, ln, oln, eq)
      {
        model.Add(AtMostOne([assignEquipment[(ln, eq)], assignEquipment[(oln, eq)]]));
        AppendAssoc(old(model.constraints), LinePairEquipment(data, assignEquipment, ln, oln, eq), [EquipmentPair(data, assignEquipment, ln, oln, eq)]);
      }
    }

    /** The weighted terms of line `ln` and function `fu`: every equipment variable of the line with its function count. */
    method RequirementTerms(ln: int, fu: int) returns (lits: seq<VarId>, coeffs: seq<int>)
      requires WellFormed(data) && EquipmentVarsDefined(data, assignEquipment)
      requires 0 <= ln < data.NumOfLines && 0 <= fu < data.NumOfFunctions
      ensures |lits| == data.NumOfEquipments && |coeffs| == data.NumOfEquipments
      ensures forall eq :: 0 <= eq < data.NumOfEquipments ==>
                lits[eq] == assignEquipment[(ln, eq)] && coeffs[eq] == data.EquipmentFunction[eq][fu]
    {
      lits, coeffs := [], [];
      for eq := 0 to data.NumOfEquipments
        invariant |lits| == eq && |coeffs| == eq
        invariant forall i :: 0 <= i < eq ==> lits[i] == assignEquipment[(ln, i)] && coeffs[i] == data.EquipmentFunction[i][fu]
      {
        lits := lits + [assignEquipment[(ln, eq)]];
        coeffs := coeffs + [data.EquipmentFunction[eq][fu]];
      }
    }

    /** 6. Equipment on a line must provide each function it requires, once per shift. */
    method FunctionRequirements()
      requires WellFormed(data) && EquipmentVarsDefined(data, assignEquipment)
      modifies model
      ensures model.vars == old(model.vars) && model.objective == old(model.objective)
      ensures model.constraints == old(model.constraints)
                + Repeat(ShiftRequirements(data, assignEquipment, data.NumOfLines), data.NumOfShifts)
    {
      for sh := 0 to data.NumOfShifts
        invariant model.vars == old(model.vars) && model.objective == old(model.objective)
        invariant model.constraints == old(model.constraints) + Repeat(ShiftRequirements(data, assignEquipment, data.NumOfLines), sh)
      {
        ghost var before := model.constraints;
        for ln := 0 to data.NumOfLines
          invariant model.vars == old(model.vars) && model.objective == old(model.objective)
          invariant model.constraints == before + ShiftRequirements(data, assignEquipment, ln)
        {
          LineRequirementConstraints(ln);
          AppendAssoc(before, ShiftRequirements(data, assignEquipment, ln), LineRequirements(data, assignEquipment, ln, data.NumOfFunctions));
        }
        AppendAssoc(old(model.constraints), Repeat(ShiftRequirements(data, assignEquipment, data.NumOfLines), sh),
                    ShiftRequirements(data, assignEquipment, data.NumOfLines));
      }
    }

    /** The function loop of pass 6 for line `ln`: a weighted at-least constraint per positive requirement. */
    method LineRequirementConstraints(ln: int)
      requires WellFormed(data) && EquipmentVarsDefined(data, assignEquipment) && 0 <= ln < data.NumOfLines
      modifies model
      ensures model.vars == old(model.vars) && model.objective == old(model.objective)
      ensures model.constraints == old(model.constraints) + LineRequirements(data, assignEquipment, ln, data.NumOfFunctions)
    {
      for fu := 0 to data.NumOfFunctions
        invariant model.vars == old(model.vars) && model.objective == old(model.objective)
        invariant model.constraints == old(model.constraints) + LineRequirements(data, assignEquipment, ln, fu)
      {
        var lits, coeffs := RequirementTerms(ln, fu);
        assert lits == RequirementLiterals(data, assignEquipment, ln);
        assert coeffs == RequirementCoefficients(data, fu);
        if data.LineFunctionRequirement[ln][fu] > 0 {
          model.Add(WeightedAtLeast(lits, coeffs, data.LineFunctionRequirement[ln][fu]));
        }
        AppendAssoc(old(model.constraints), LineRequirements(data, assignEquipment, ln, fu), Requirement(data, assignEquipment, ln, fu));
      }
    }

    // ---- ObjectiveDefinition (Problem.cs:262-419) ----

    /**
     * Fills the objective lists and records the objective: productivity-gap
     * pairs (switch 0), per-worker diversity sums (switch 1), the day-grouping
     * constraints once more per line (switch 2), then the two totals, of which
     * only TotalGaps is minimised. Switches 3 and 4 do nothing.
     */
    method ObjectiveDefinition()
      requires WellFormed(data) && Valid() && WorkerVarsDefined(data, assignWorker)
      modifies this`totalGaps, this`totalDiversity, model
      ensures Valid()
      ensures GapKeysValid(data, GapSection(data))
      ensures model.vars == ObjectiveVars(old(model.vars), GapSection(data))
      ensures totalGaps == old(totalGaps) + GapTerms(GapSection(data), |old(model.vars)|)
      ensures totalDiversity == old(totalDiversity) + DiversitySection(data, assignWorker)
      ensures model.constraints == old(model.constraints)
                + GapConstraints(data, assignWorker, GapSection(data), |old(model.vars)|)
                + ProductivitySection(data, assignWorker)
                + [SumEquals(totalDiversity, |old(model.vars)| + 2 * |GapSection(data)|),
                   SumEquals(totalGaps, |old(model.vars)| + 2 * |GapSection(data)| + 1)]
      ensures model.objective == Some(Term(|old(model.vars)| + 2 * |GapSection(data)| + 1))
    {
      // the called methods' ensures name the sections; keep their bodies folded
      hide GapDecls, GapConstraints, GapTerms, ProductivitySection, DiversitySection, GapSection, RegistryDeclared;
      ObjectiveLists();
      ObjectiveTotals();
    }

    /** The closing lines of ObjectiveDefinition: the two totals, and TotalGaps as the objective. */
    method ObjectiveTotals()
      requires Valid()
      modifies model
      ensures Valid()
      ensures model.vars == old(model.vars) + [VarDecl(TotalDiversity, 0, IntMaxValue), VarDecl(TotalGaps, 0, IntMaxValue)]
      ensures model.constraints == old(model.constraints)
                + [SumEquals(totalDiversity, |old(model.vars)|), SumEquals(totalGaps, |old(model.vars)| + 1)]
      ensures model.objective == Some(Term(|old(model.vars)| + 1))
    {
      RegistryDeclaredAppend(assignWorker, assignEquipment, model.vars, [VarDecl(TotalDiversity, 0, IntMaxValue)]);
      var diversityTotal := model.NewIntVar(0, IntMaxValue, TotalDiversity);
      model.Add(SumEquals(totalDiversity, diversityTotal));
      RegistryDeclaredAppend(assignWorker, assignEquipment, model.vars, [VarDecl(TotalGaps, 0, IntMaxValue)]);
      var gapsTotal := model.NewIntVar(0, IntMaxValue, TotalGaps);
      model.Add(SumEquals(totalGaps, gapsTotal));
      model.Minimize(Term(gapsTotal));
      AppendAssoc(old(model.vars), [VarDecl(TotalDiversity, 0, IntMaxValue)], [VarDecl(TotalGaps, 0, IntMaxValue)]);
      AppendAssoc(old(model.constraints), [SumEquals(totalDiversity, diversityTotal)], [SumEquals(totalGaps, gapsTotal)]);
    }

    /** The five switches of ObjectiveDefinition, before the totals are created. */
    method ObjectiveLists()
      requires WellFormed(data) && Valid() && WorkerVarsDefined(data, assignWorker)
      modifies this`totalGaps, this`totalDiversity, model
      ensures Valid() && model.objective == old(model.objective)
      ensures GapKeysValid(data, GapSection(data))
      ensures model.vars == old(model.vars) + GapDecls(GapSection(data))
      ensures |model.vars| == |old(model.vars)| + 2 * |GapSection(data)|
      ensures totalGaps == old(totalGaps) + GapTerms(GapSection(data), |old(model.vars)|)
      ensures totalDiversity == old(totalDiversity) + DiversitySection(data, assignWorker)
      ensures model.constraints == old(model.constraints)
                + GapConstraints(data, assignWorker, GapSection(data), |old(model.vars)|)
                + ProductivitySection(data, assignWorker)
    {
      // the called methods' ensures name the sections; keep their bodies folded
      hide GapKeys, DayGroups, DiversityTerms, Repeat, RegistryDeclared;
      ghost var v0, c0, g0 := model.vars, model.constraints, totalGaps;
      if data.Activate[0] > 0 {
        GapObjective();
      } else {
        assert GapLog(data, assignWorker, [], v0, c0, g0, model.vars, model.constraints, totalGaps);
      }
      if data.Activate[1] > 0 {
        DiversityObjective();
      }
      if data.Activate[2] > 0 {
        LineProductivity();
      }
      if data.Activate[3] > 0 {
        // salary objective: no statement
      }
      if data.Activate[4] > 0 {
        // new-worker objective: no statement
      }
      GapDeclsAt(GapSection(data));
    }

    /** Switch 0: the gap pairs of every shift. */
    method GapObjective()
      requires WellFormed(data) && Valid() && WorkerVarsDefined(data, assignWorker)
      modifies this`totalGaps, model
      ensures Valid() && model.objective == old(model.objective)
      ensures GapKeysValid(data, GapKeys(data, data.NumOfShifts))
      ensures GapLog(data, assignWorker, GapKeys(data, data.NumOfShifts),
                     old(model.vars), old(model.constraints), old(totalGaps), model.vars, model.constraints, totalGaps)
    {
      ghost var v0, c0, g0 := model.vars, model.constraints, totalGaps;
      for sh := 0 to data.NumOfShifts
        invariant Valid() && model.objective == old(model.objective)
        invariant GapKeysValid(data, GapKeys(data, sh))
        invariant GapLog(data, assignWorker, GapKeys(data, sh), v0, c0, g0, model.vars, model.constraints, totalGaps)
      {
        GapShiftStep(sh, v0, c0, g0);
      }
    }

    /** One iteration of the shift loop of switch 0: the log grows by shift `sh`'s pairs. */
    method GapShiftStep(sh: int, ghost v0: seq<VarDecl>, ghost c0: seq<Constraint>, ghost g0: seq<LinearExpr>)
      requires WellFormed(data) && Valid() && WorkerVarsDefined(data, assignWorker) && 0 <= sh < data.NumOfShifts
      requires GapKeysValid(data, GapKeys(data, sh))
      requires GapLog(data, assignWorker, GapKeys(data, sh), v0, c0, g0, model.vars, model.constraints, totalGaps)
      modifies this`totalGaps, model
      ensures Valid() && model.objective == old(model.objective)
      ensures GapKeysValid(data, GapKeys(data, sh + 1))
      ensures GapLog(data, assignWorker, GapKeys(data, sh + 1), v0, c0, g0, model.vars, model.constraints, totalGaps)
    {
      ghost var v1, c1, g1 := model.vars, model.constraints, totalGaps;
      ShiftGaps(sh);
      GapLogNextShift(data, assignWorker, sh, v0, c0, g0, v1, c1, g1, model.vars, model.constraints, totalGaps);
    }

    /** The line loop of switch 0 for shift `sh`. */
    method ShiftGaps(sh: int)
      requires WellFormed(data) && Valid() && WorkerVarsDefined(data, assignWorker) && 0 <= sh < data.NumOfShifts
      modifies this`totalGaps, model
      ensures Valid() && model.objective == old(model.objective)
      ensures GapKeysValid(data, LineGapKeys(data, sh, data.NumOfLines))
      ensures GapLog(data, assignWorker, LineGapKeys(data, sh, data.NumOfLines),
                     old(model.vars), old(model.constraints), old(totalGaps), model.vars, model.constraints, totalGaps)
    {
      ghost var v0, c0, g0 := model.vars, model.constraints, totalGaps;
      for ln := 0 to data.NumOfLines
        invariant Valid() && model.objective == old(model.objective)
        invariant GapKeysValid(data, LineGapKeys(data, sh, ln))
        invariant GapLog(data, assignWorker, LineGapKeys(data, sh, ln), v0, c0, g0, model.vars, model.constraints, totalGaps)
      {
        GapLineStep(sh, ln, v0, c0, g0);
      }
    }

    /** One iteration of the line loop of switch 0: the log grows by line `ln`'s pairs. */
    method GapLineStep(sh: int, ln: int, ghost v0: seq<VarDecl>, ghost c0: seq<Constraint>, ghost g0: seq<LinearExpr>)
      requires WellFormed(data) && Valid() && WorkerVarsDefined(data, assignWorker)
      requires 0 <= sh < data.NumOfShifts && 0 <= ln < data.NumOfLines
      requires GapKeysValid(data, LineGapKeys(data, sh, ln))
      requires GapLog(data, assignWorker, LineGapKeys(data, sh, ln), v0, c0, g0, model.vars, model.constraints, totalGaps)
      modifies this`totalGaps, model
      ensures Valid() && model.objective == old(model.objective)
      ensures GapKeysValid(data, LineGapKeys(data, sh, ln + 1))
      ensures GapLog(data, assignWorker, LineGapKeys(data, sh, ln + 1), v0, c0, g0, model.vars, model.constraints, totalGaps)
    {
      ghost var v1, c1, g1 := model.vars, model.constraints, totalGaps;
      LineGaps(sh, ln);
      GapLogNextLine(data, assignWorker, sh, ln, v0, c0, g0, v1, c1, g1, model.vars, model.constraints, totalGaps);
    }

    /** The stage loop of switch 0 for line `ln` in shift `sh`: only stages the line runs. */
    method LineGaps(sh: int, ln: int)
      requires WellFormed(data) && Valid() && WorkerVarsDefined(data, assignWorker)
      requires 0 <= sh < data.NumOfShifts && 0 <= ln < data.NumOfLines
      modifies this`totalGaps, model
      ensures Valid() && model.objective == old(model.objective)
      ensures GapKeysValid(data, StageGapKeys(data, sh, ln, data.NumOfStages))
      ensures GapLog(data, assignWorker, StageGapKeys(data, sh, ln, data.NumOfStages),
                     old(model.vars), old(model.constraints), old(totalGaps), model.vars, model.constraints, totalGaps)
    {
      // the step methods and the GapLog lemmas carry the loop; keep the inner key lists folded
      hide WorkerGapKeys, OtherGapKeys, RegistryDeclared;
      ghost var v0, c0, g0 := model.vars, model.constraints, totalGaps;
      for st := 0 to data.NumOfStages
        invariant Valid() && model.objective == old(model.objective)
        invariant GapKeysValid(data, StageGapKeys(data, sh, ln, st))
        invariant GapLog(data, assignWorker, StageGapKeys(data, sh, ln, st), v0, c0, g0, model.vars, model.constraints, totalGaps)
      {
        // the step method and the GapLog lemmas describe one iteration; keep the log folded
        hide StageGapKeys, GapLog, GapDecls, GapConstraints, GapTerms;
        if data.LineStage[ln][st] > 0 {
          GapStageStep(sh, ln, st, v0, c0, g0);
        } else {
          GapLogSkipStage(data, assignWorker, sh, ln, st, v0, c0, g0, model.vars, model.constraints, totalGaps);
        }
      }
    }

    /** The iteration of the stage loop of switch 0 for a stage the line runs: the log grows by its pairs. */
    method GapStageStep(sh: int, ln: int, st: int, ghost v0: seq<VarDecl>, ghost c0: seq<Constraint>, ghost g0: seq<LinearExpr>)
      requires WellFormed(data) && Valid() && WorkerVarsDefined(data, assignWorker)
      requires 0 <= sh < data.NumOfShifts && 0 <= ln < data.NumOfLines && 0 <= st < data.NumOfStages
      requires data.LineStage[ln][st] > 0
      requires GapKeysValid(data, StageGapKeys(data, sh, ln, st))
      requires GapLog(data, assignWorker, StageGapKeys(data, sh, ln, st), v0, c0, g0, model.vars, model.constraints, totalGaps)
      modifies this`totalGaps, model
      ensures Valid() && model.objective == old(model.objective)
      ensures GapKeysValid(data, StageGapKeys(data, sh, ln, st + 1))
      ensures GapLog(data, assignWorker, StageGapKeys(data, sh, ln, st + 1), v0, c0, g0, model.vars, model.constraints, totalGaps)
    {
      ghost var v1, c1, g1 := model.vars, model.constraints, totalGaps;
      StageGaps(sh, ln, st);
      GapLogNextStage(data, assignWorker, sh, ln, st, v0, c0, g0, v1, c1, g1, model.vars, model.constraints, totalGaps);
    }

    /** The first-worker loop of switch 0, which stops one short of the last worker. */
    method StageGaps(sh: int, ln: int, st: int)
      requires WellFormed(data) && Valid() && WorkerVarsDefined(data, assignWorker)
      requires 0 <= sh < data.NumOfShifts && 0 <= ln < data.NumOfLines && 0 <= st < data.NumOfStages
      requires data.LineStage[ln][st] > 0
      modifies this`totalGaps, model
      ensures Valid() && model.objective == old(model.objective)
      ensures GapKeysValid(data, WorkerGapKeys(data, sh, ln, st, data.NumOfWorkers - 1))
      ensures GapLog(data, assignWorker, WorkerGapKeys(data, sh, ln, st, data.NumOfWorkers - 1),
                     old(model.vars), old(model.constraints), old(totalGaps), model.vars, model.constraints, totalGaps)
    {
      // the step methods and the GapLog lemmas carry the loop; keep the inner key lists folded
      hide OtherGapKeys, RegistryDeclared;
      ghost var v0, c0, g0 := model.vars, model.constraints, totalGaps;
      // the source's bound NumOfWorkers - 1 runs no iteration when there are no workers
      var last := if data.NumOfWorkers > 0 then data.NumOfWorkers - 1 else 0;
      for w := 0 to last
        invariant Valid() && model.objective == old(model.objective)
        invariant GapKeysValid(data, WorkerGapKeys(data, sh, ln, st, w))
        invariant GapLog(data, assignWorker, WorkerGapKeys(data, sh, ln, st, w), v0, c0, g0, model.vars, model.constraints, totalGaps)
      {
        // the step method and the GapLog lemmas describe one iteration; keep the log folded
        hide WorkerGapKeys, GapLog, GapDecls, GapConstraints, GapTerms;
        if data.WorkerStageAllowance[st][w] > 0 && data.WorkerShift[w][sh] > 0 {
          GapWorkerStep(sh, ln, st, w, v0, c0, g0);
        } else {
          GapLogSkipWorker(data, assignWorker, sh, ln, st, w, v0, c0, g0, model.vars, model.constraints, totalGaps);
        }
      }
      if data.NumOfWorkers == 0 {
        assert WorkerGapKeys(data, sh, ln, st, data.NumOfWorkers - 1) == WorkerGapKeys(data, sh, ln, st, 0);
      }
    }

    /** The iteration of the first-worker loop of switch 0 for a qualifying worker: the log grows by its pairs. */
    method GapWorkerStep(sh: int, ln: int, st: int, w: int, ghost v0: seq<VarDecl>, ghost c0: seq<Constraint>, ghost g0: seq<LinearExpr>)
      requires WellFormed(data) && Valid() && WorkerVarsDefined(data, assignWorker)
      requires 0 <= sh < data.NumOfShifts && 0 <= ln < data.NumOfLines && 0 <= st < data.NumOfStages
      requires 0 <= w < data.NumOfWorkers - 1 && data.LineStage[ln][st] > 0 && Qualifies(data, sh, st, w)
      requires GapKeysValid(data, WorkerGapKeys(data, sh, ln, st, w))
      requires GapLog(data, assignWorker, WorkerGapKeys(data, sh, ln, st, w), v0, c0, g0, model.vars, model.constraints, totalGaps)
      modifies this`totalGaps, model
      ensures Valid() && model.objective == old(model.objective)
      ensures GapKeysValid(data, WorkerGapKeys(data, sh, ln, st, w + 1))
      ensures GapLog(data, assignWorker, WorkerGapKeys(data, sh, ln, st, w + 1), v0, c0, g0, model.vars, model.constraints, totalGaps)
    {
      ghost var v1, c1, g1 := model.vars, model.constraints, totalGaps;
      PairGaps(sh, ln, st, w);
      GapLogNextWorker(data, assignWorker, sh, ln, st, w, v0, c0, g0, v1, c1, g1, model.vars, model.constraints, totalGaps);
    }

    /**
     * The second-worker loop of switch 0: for each later qualifying worker `ow`,
     * a tmp in [-100, 100] equal to the score difference when both are assigned,
     * an abTmp in [0, 100] equal to |tmp|, and tmp appended to the gap terms.
     */
    method PairGaps(sh: int, ln: int, st: int, w: int)
      requires WellFormed(data) && Valid() && WorkerVarsDefined(data, assignWorker)
      requires 0 <= sh < data.NumOfShifts && 0 <= ln < data.NumOfLines && 0 <= st < data.NumOfStages
      requires 0 <= w < data.NumOfWorkers && data.LineStage[ln][st] > 0 && Qualifies(data, sh, st, w)
      modifies this`totalGaps, model
      ensures Valid() && model.objective == old(model.objective)
      ensures GapKeysValid(data, OtherGapKeys(data, sh, ln, st, w, data.NumOfWorkers))
      ensures GapLog(data, assignWorker, OtherGapKeys(data, sh, ln, st, w, data.NumOfWorkers),
                     old(model.vars), old(model.constraints), old(totalGaps), model.vars, model.constraints, totalGaps)
    {
      ghost var v0, c0, g0 := model.vars, model.constraints, totalGaps;
      for ow := w + 1 to data.NumOfWorkers
        invariant Valid() && model.objective == old(model.objective)
        invariant GapKeysValid(data, OtherGapKeys(data, sh, ln, st, w, ow))
        invariant GapLog(data, assignWorker, OtherGapKeys(data, sh, ln, st, w, ow), v0, c0, g0, model.vars, model.constraints, totalGaps)
      {
        PairGap(sh, ln, st, w, ow, v0, c0, g0);
      }
    }

    /** One iteration of the `ow` loop: a pair is added when the second worker qualifies too. */
    method PairGap(sh: int, ln: int, st: int, w: int, ow: int,
                   ghost v0: seq<VarDecl>, ghost c0: seq<Constraint>, ghost g0: seq<LinearExpr>)
      requires WellFormed(data) && Valid() && WorkerVarsDefined(data, assignWorker)
      requires 0 <= sh < data.NumOfShifts && 0 <= ln < data.NumOfLines && 0 <= st < data.NumOfStages
      requires 0 <= w < ow < data.NumOfWorkers && data.LineStage[ln][st] > 0 && Qualifies(data, sh, st, w)
      requires GapKeysValid(data, OtherGapKeys(data, sh, ln, st, w, ow))
      requires GapLog(data, assignWorker, OtherGapKeys(data, sh, ln, st, w, ow), v0, c0, g0, model.vars, model.constraints, totalGaps)
      modifies this`totalGaps, model
      ensures Valid() && model.objective == old(model.objective)
      ensures GapKeysValid(data, OtherGapKeys(data, sh, ln, st, w, ow + 1))
      ensures GapLog(data, assignWorker, OtherGapKeys(data, sh, ln, st, w, ow + 1), v0, c0, g0, model.vars, model.constraints, totalGaps)
    {
      if data.WorkerStageAllowance[st][ow] > 0 && data.WorkerShift[ow][sh] > 0 {
        QualifyingPair(sh, ln, st, w, ow, v0, c0, g0);
      } else {
        GapLogSkipOther(data, assignWorker, sh, ln, st, w, ow, v0, c0, g0, model.vars, model.constraints, totalGaps);
      }
    }

    /** The qualifying branch of one `ow` iteration, with the log extended by its pair. */
    method QualifyingPair(sh: int, ln: int, st: int, w: int, ow: int,
                          ghost v0: seq<VarDecl>, ghost c0: seq<Constraint>, ghost g0: seq<LinearExpr>)
      requires WellFormed(data) && Valid() && WorkerVarsDefined(data, assignWorker)
      requires 0 <= sh < data.NumOfShifts && 0 <= ln < data.NumOfLines && 0 <= st < data.NumOfStages
      requires 0 <= w < ow < data.NumOfWorkers && data.LineStage[ln][st] > 0
      requires Qualifies(data, sh, st, w) && Qualifies(data, sh, st, ow)
      requires GapKeysValid(data, OtherGapKeys(data, sh, ln, st, w, ow))
      requires GapLog(data, assignWorker, OtherGapKeys(data, sh, ln, st, w, ow), v0, c0, g0, model.vars, model.constraints, totalGaps)
      modifies this`totalGaps, model
      ensures Valid() && model.objective == old(model.objective)
      ensures GapKeysValid(data, OtherGapKeys(data, sh, ln, st, w, ow + 1))
      ensures GapLog(data, assignWorker, OtherGapKeys(data, sh, ln, st, w, ow + 1), v0, c0, g0, model.vars, model.constraints, totalGaps)
    {
      GapLogNextOther(data, assignWorker, sh, ln, st, w, ow, v0, c0, g0, model.vars, model.constraints, totalGaps);
      AddGapPair(sh, ln, st, w, ow);
    }

    /** One iteration of the `ow` loop for a qualifying pair: tmp, abTmp, their two constraints, tmp as a gap term. */
    method AddGapPair(sh: int, ln: int, st: int, w: int, ow: int)
      requires WellFormed(data) && Valid() && WorkerVarsDefined(data, assignWorker)
      requires 0 <= sh < data.NumOfShifts && 0 <= st < data.NumOfStages && 0 <= w < data.NumOfWorkers && 0 <= ow < data.NumOfWorkers
      requires IsWorkerKey(data, (sh, st, w)) && IsWorkerKey(data, (sh, st, ow))
      modifies this`totalGaps, model
      ensures Valid() && model.objective == old(model.objective)
      ensures model.vars == old(model.vars) + [VarDecl(Tmp(GapKey(sh, ln, st, w, ow)), -100, 100)]
                                            + [VarDecl(AbTmp(GapKey(sh, ln, st, w, ow)), 0, 100)]
      ensures model.constraints == old(model.constraints)
                + [EqualIf(|old(model.vars)|, data.WorkerStageProductivityScore[st][w] - data.WorkerStageProductivityScore[st][ow],
                           [assignWorker[(sh, st, w)], assignWorker[(sh, st, ow)]])]
                + [AbsEquality(|old(model.vars)| + 1, |old(model.vars)|)]
      ensures totalGaps == old(totalGaps) + [Term(|old(model.vars)|)]
    {
      var p := GapKey(sh, ln, st, w, ow);
      RegistryDeclaredAppend(assignWorker, assignEquipment, model.vars, [VarDecl(Tmp(p), -100, 100)]);
      var tmp := model.NewIntVar(-100, 100, Tmp(p));
      RegistryDeclaredAppend(assignWorker, assignEquipment, model.vars, [VarDecl(AbTmp(p), 0, 100)]);
      var abTmp := model.NewIntVar(0, 100, AbTmp(p));
      model.Add(EqualIf(tmp, data.WorkerStageProductivityScore[st][w] - data.WorkerStageProductivityScore[st][ow],
                        [assignWorker[(sh, st, w)], assignWorker[(sh, st, ow)]]));
      model.Add(AbsEquality(abTmp, tmp));
      totalGaps := totalGaps + [Term(tmp)];
    }

    /** Switch 1: one sum per worker of that worker's assignment variables. */
    method DiversityObjective()
      requires WellFormed(data) && WorkerVarsDefined(data, assignWorker)
      modifies this`totalDiversity
      ensures totalDiversity == old(totalDiversity) + DiversityTerms(data, assignWorker, data.NumOfWorkers)
    {
      for w := 0 to data.NumOfWorkers
        invariant totalDiversity == old(totalDiversity) + DiversityTerms(data, assignWorker, w)
      {
        var literals := CollectWorkerLiterals(w);
        totalDiversity := totalDiversity + [Sum(literals)];
        AppendAssoc(old(totalDiversity), DiversityTerms(data, assignWorker, w), [Sum(literals)]);
      }
    }

    /** The literal list of worker `w`: its existing variables, shift by shift, stage by stage. */
    method CollectWorkerLiterals(w: int) returns (literals: seq<VarId>)
      requires WellFormed(data) && WorkerVarsDefined(data, assignWorker) && 0 <= w < data.NumOfWorkers
      ensures literals == WorkerLiterals(data, assignWorker, w, data.NumOfShifts)
    {
      literals := [];
      for sh := 0 to data.NumOfShifts
        invariant literals == WorkerLiterals(data, assignWorker, w, sh)
      {
        ghost var before := literals;
        for st := 0 to data.NumOfStages
          invariant literals == before + ShiftWorkerLiterals(data, assignWorker, w, sh, st)
        {
          if data.WorkerStageAllowance[st][w] > 0 && data.WorkerShift[w][sh] > 0 {
            literals := literals + [assignWorker[(sh, st, w)]];
          }
          AppendAssoc(before, ShiftWorkerLiterals(data, assignWorker, w, sh, st),
                      if Qualifies(data, sh, st, w) then [assignWorker[(sh, st, w)]] else []);
        }
      }
    }

    /** Switch 2: the day-grouping pass again, once per line. */
    method LineProductivity()
      requires WellFormed(data) && WorkerVarsDefined(data, assignWorker)
      modifies model
      ensures model.vars == old(model.vars) && model.objective == old(model.objective)
      ensures model.constraints == old(model.constraints)
                + Repeat(DayGroups(data, assignWorker, data.NumOfStages), data.NumOfLines)
    {
      for ln := 0 to data.NumOfLines
        invariant model.vars == old(model.vars) && model.objective == old(model.objective)
        invariant model.constraints == old(model.constraints)
                    + Repeat(DayGroups(data, assignWorker, data.NumOfStages), ln)
      {
        DayGroupingAllStages();
        AppendAssoc(old(model.constraints), Repeat(DayGroups(data, assignWorker, data.NumOfStages), ln),
                    DayGroups(data, assignWorker, data.NumOfStages));
      }
    }

    // ---- GetJSONResult (Problem.cs:421-432) ----

    /** The dimension record of the instance; the source builds it and then drops it. */
    method GetJSONResult() returns (result: ResultModel)
      ensures result.NumOfShifts == data.NumOfShifts && result.NumOfLines == data.NumOfLines
      ensures result.NumOfStages == data.NumOfStages && result.NumOfWorkers == data.NumOfWorkers
      ensures result.NumOfEquipments == data.NumOfEquipments && result.NumOfFunctions == data.NumOfFunctions
    {
      result := ResultModel(data.NumOfShifts, data.NumOfLines, data.NumOfStages,
                            data.NumOfWorkers, data.NumOfEquipments, data.NumOfFunctions);
    }
  }

  /** Stepping by three from 0 until reaching `n` takes ceil(n / 3) steps. */
  lemma {:induction false} VisitCount(n: int, visits: int)
    requires 0 <= n <= 3 * visits <= n + 2
    ensures visits == (n + 2) / 3
  {
  }

  /**
   * The driver's order (Program.cs:9-12): a fresh problem, its variables, then
   * its constraints. Every registry lookup of the constraint pass finds its key.
   */
  method Formulate(data: Data) returns (p: Problem)
    requires WellFormed(data)
    ensures fresh(p) && fresh(p.model) && p.data == data && p.Valid()
    ensures forall k :: k in p.assignWorker <==> IsWorkerKey(data, k)
    ensures forall k :: k in p.assignEquipment <==> IsEquipmentKey(data, k)
    ensures p.model.vars == WorkerDecls(data, data.NumOfShifts) + EquipmentDecls(data, data.NumOfLines)
    ensures p.model.constraints == ConstraintLog(data, p.assignWorker, p.assignEquipment)
    ensures p.model.objective == None
  {
    // the three calls' ensures fix the state; keep the sections they name folded
    hide ConstraintLog, WorkerDecls, EquipmentDecls, RegistryDeclared;
    p := new Problem(data);
    p.VariableDefinition();
    p.ConstraintDefinition();
  }
}
