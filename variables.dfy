/**
 * The sparse variable registry built by VariableDefinition (Problem.cs:50-76):
 * which keys exist, which declarations are appended, and the literal lists
 * that later passes read back out of the registry.
 */
module Variables {
  import opened ManPowerData
  import opened CpSat

  type WorkerRegistry = map<WorkerKey, VarId>
  type EquipmentRegistry = map<EquipmentKey, VarId>

  /** Every key that passes the creation guard has a variable: what a guarded lookup needs. */
  ghost predicate WorkerVarsDefined(d: Data, A: WorkerRegistry)
    requires WellFormed(d)
  {
    forall k :: IsWorkerKey(d, k) ==> k in A
  }

  /** Every in-range (line, equipment) pair has a variable. */
  ghost predicate EquipmentVarsDefined(d: Data, E: EquipmentRegistry)
  {
    forall k :: IsEquipmentKey(d, k) ==> k in E
  }

  /** Each registry entry names a declared boolean variable carrying that entry's own key. */
  ghost predicate RegistryDeclared(A: WorkerRegistry, E: EquipmentRegistry, vars: seq<VarDecl>)
  {
    && (forall k :: k in A ==> A[k] < |vars| && vars[A[k]] == BoolDecl(Assign(k.0, k.1, k.2)))
    && (forall k :: k in E ==> E[k] < |vars| && vars[E[k]] == BoolDecl(Equip(k.0, k.1)))
  }

  /** Distinct worker keys name distinct variables. */
  ghost predicate WorkerInjective(A: WorkerRegistry)
  {
    forall k1, k2 :: k1 in A && k2 in A && A[k1] == A[k2] ==> k1 == k2
  }

  /** Distinct equipment keys name distinct variables. */
  ghost predicate EquipmentInjective(E: EquipmentRegistry)
  {
    forall k1, k2 :: k1 in E && k2 in E && E[k1] == E[k2] ==> k1 == k2
  }

  /** A variable's declaration carries its key, so a registry of declared variables never shares one between two keys. */
  lemma {:induction false} RegistryInjective(A: WorkerRegistry, E: EquipmentRegistry, vars: seq<VarDecl>)
    requires RegistryDeclared(A, E, vars)
    ensures WorkerInjective(A) && EquipmentInjective(E)
  {
    forall k1, k2 | k1 in A && k2 in A && A[k1] == A[k2]
      ensures k1 == k2
    {
      assert vars[A[k1]].name == Assign(k1.0, k1.1, k1.2) && vars[A[k2]].name == Assign(k2.0, k2.1, k2.2);
    }
    forall k1, k2 | k1 in E && k2 in E && E[k1] == E[k2]
      ensures k1 == k2
    {
      assert vars[E[k1]].name == Equip(k1.0, k1.1) && vars[E[k2]].name == Equip(k2.0, k2.1);
    }
  }

  lemma {:induction false} RegistryDeclaredAppend(A: WorkerRegistry, E: EquipmentRegistry, vars: seq<VarDecl>, extra: seq<VarDecl>)
    requires RegistryDeclared(A, E, vars)
    ensures RegistryDeclared(A, E, vars + extra)
  {
  }

  /** Keys strictly before (sh, st, w) in the loop order shift, stage, worker. */
  predicate Before(k: WorkerKey, sh: int, st: int, w: int)
  {
    k.0 < sh || (k.0 == sh && (k.1 < st || (k.1 == st && k.2 < w)))
  }

  /**
   * Registry `A` is `A0` with a variable added, numbered from `n0` on, for every
   * creatable key before (sh, st, w); every other entry is untouched.
   */
  ghost predicate WorkerVarsAdded(d: Data, A0: WorkerRegistry, A: WorkerRegistry, n0: int, sh: int, st: int, w: int)
    requires WellFormed(d)
  {
    && (forall k :: k in A <==> k in A0 || (IsWorkerKey(d, k) && Before(k, sh, st, w)))
    && (forall k :: IsWorkerKey(d, k) && Before(k, sh, st, w) ==> n0 <= A[k])
    && (forall k :: k in A0 && !(IsWorkerKey(d, k) && Before(k, sh, st, w)) ==> A[k] == A0[k])
  }

  /** Recording the variable `v` of the next key (sh, st, w) keeps the registry declared. */
  lemma {:induction false} RegistryDeclaredInsert(A: WorkerRegistry, E: EquipmentRegistry, vars: seq<VarDecl>, sh: int, st: int, w: int)
    requires RegistryDeclared(A, E, vars)
    ensures RegistryDeclared(A[(sh, st, w) := |vars|], E, vars + [BoolDecl(Assign(sh, st, w))])
  {
  }

  lemma {:induction false} RegistryDeclaredInsertEquipment(A: WorkerRegistry, E: EquipmentRegistry, vars: seq<VarDecl>, ln: int, eq: int)
    requires RegistryDeclared(A, E, vars)
    ensures RegistryDeclared(A, E[(ln, eq) := |vars|], vars + [BoolDecl(Equip(ln, eq))])
  {
  }

  /** One step of the worker loop: a qualifying key gains a fresh variable, any other key nothing. */
  lemma {:induction false} WorkerVarsAddedStep(d: Data, A0: WorkerRegistry, A: WorkerRegistry, n0: int, sh: int, st: int, w: int, v: nat)
    requires WellFormed(d) && 0 <= sh < d.NumOfShifts && 0 <= st < d.NumOfStages && 0 <= w < d.NumOfWorkers
    requires WorkerVarsAdded(d, A0, A, n0, sh, st, w) && n0 <= v
    ensures Qualifies(d, sh, st, w) ==> WorkerVarsAdded(d, A0, A[(sh, st, w) := v], n0, sh, st, w + 1)
    ensures !Qualifies(d, sh, st, w) ==> WorkerVarsAdded(d, A0, A, n0, sh, st, w + 1)
  {
    assert forall k: WorkerKey :: Before(k, sh, st, w + 1) <==> Before(k, sh, st, w) || (k.0 == sh && k.1 == st && k.2 == w);
  }

  lemma {:induction false} WorkerVarsAddedNextStage(d: Data, A0: WorkerRegistry, A: WorkerRegistry, n0: int, sh: int, st: int)
    requires WellFormed(d) && WorkerVarsAdded(d, A0, A, n0, sh, st, d.NumOfWorkers)
    ensures WorkerVarsAdded(d, A0, A, n0, sh, st + 1, 0)
  {
    assert forall k :: IsWorkerKey(d, k) ==> (Before(k, sh, st, d.NumOfWorkers) <==> Before(k, sh, st + 1, 0));
  }

  lemma {:induction false} WorkerVarsAddedNextShift(d: Data, A0: WorkerRegistry, A: WorkerRegistry, n0: int, sh: int)
    requires WellFormed(d) && WorkerVarsAdded(d, A0, A, n0, sh, d.NumOfStages, 0)
    ensures WorkerVarsAdded(d, A0, A, n0, sh + 1, 0, 0)
  {
    assert forall k :: IsWorkerKey(d, k) ==> (Before(k, sh, d.NumOfStages, 0) <==> Before(k, sh + 1, 0, 0));
  }

  /** After the last shift every creatable key has been added: the post-state of the worker half. */
  lemma {:induction false} WorkerVarsAddedAll(d: Data, A0: WorkerRegistry, A: WorkerRegistry, n0: int)
    requires WellFormed(d) && WorkerVarsAdded(d, A0, A, n0, d.NumOfShifts, 0, 0)
    ensures forall k :: k in A <==> k in A0 || IsWorkerKey(d, k)
    ensures forall k :: IsWorkerKey(d, k) ==> n0 <= A[k]
    ensures forall k :: k in A0 && !IsWorkerKey(d, k) ==> A[k] == A0[k]
    ensures WorkerVarsDefined(d, A)
  {
    assert forall k :: IsWorkerKey(d, k) ==> Before(k, d.NumOfShifts, 0, 0);
  }

  /**
   * Registry `E` is `E0` with a variable added, numbered from `m0` on, for every
   * (line, equipment) pair before (ln, eq); every other entry is untouched.
   */
  ghost predicate EquipmentVarsAdded(d: Data, E0: EquipmentRegistry, E: EquipmentRegistry, m0: int, ln: int, eq: int)
  {
    && (forall k :: k in E <==> k in E0 || (IsEquipmentKey(d, k) && (k.0 < ln || (k.0 == ln && k.1 < eq))))
    && (forall k :: IsEquipmentKey(d, k) && (k.0 < ln || (k.0 == ln && k.1 < eq)) ==> m0 <= E[k])
    && (forall k :: k in E0 && !(IsEquipmentKey(d, k) && (k.0 < ln || (k.0 == ln && k.1 < eq))) ==> E[k] == E0[k])
  }

  lemma {:induction false} EquipmentVarsAddedStep(d: Data, E0: EquipmentRegistry, E: EquipmentRegistry, m0: int, ln: int, eq: int, v: nat)
    requires 0 <= ln < d.NumOfLines && 0 <= eq < d.NumOfEquipments
    requires EquipmentVarsAdded(d, E0, E, m0, ln, eq) && m0 <= v
    ensures EquipmentVarsAdded(d, E0, E[(ln, eq) := v], m0, ln, eq + 1)
  {
  }

  lemma {:induction false} EquipmentVarsAddedNextLine(d: Data, E0: EquipmentRegistry, E: EquipmentRegistry, m0: int, ln: int)
    requires EquipmentVarsAdded(d, E0, E, m0, ln, d.NumOfEquipments)
    ensures EquipmentVarsAdded(d, E0, E, m0, ln + 1, 0)
  {
  }

  /** After the last line every in-range pair has been added: the post-state of the equipment half. */
  lemma {:induction false} EquipmentVarsAddedAll(d: Data, E0: EquipmentRegistry, E: EquipmentRegistry, m0: int)
    requires EquipmentVarsAdded(d, E0, E, m0, d.NumOfLines, 0)
    ensures forall k :: k in E <==> k in E0 || IsEquipmentKey(d, k)
    ensures forall k :: IsEquipmentKey(d, k) ==> m0 <= E[k]
    ensures forall k :: k in E0 && !IsEquipmentKey(d, k) ==> E[k] == E0[k]
    ensures EquipmentVarsDefined(d, E)
  {
  }

  /** Workers below `n` that qualify for (sh, st), in increasing order. */
  function StageWorkers(d: Data, sh: int, st: int, n: int): seq<int>
    requires WellFormed(d) && 0 <= sh < d.NumOfShifts && 0 <= st < d.NumOfStages && n <= d.NumOfWorkers
    decreases n
  {
    if n <= 0 then []
    else StageWorkers(d, sh, st, n - 1) + (if Qualifies(d, sh, st, n - 1) then [n - 1] else [])
  }

  /** Only qualifying workers below `n` are listed, each once, in increasing order. */
  lemma {:induction false} StageWorkersSound(d: Data, sh: int, st: int, n: int)
    requires WellFormed(d) && 0 <= sh < d.NumOfShifts && 0 <= st < d.NumOfStages && n <= d.NumOfWorkers
    ensures forall i :: 0 <= i < |StageWorkers(d, sh, st, n)| ==>
              0 <= StageWorkers(d, sh, st, n)[i] < n && Qualifies(d, sh, st, StageWorkers(d, sh, st, n)[i])
    ensures forall i, j :: 0 <= i < j < |StageWorkers(d, sh, st, n)| ==> StageWorkers(d, sh, st, n)[i] < StageWorkers(d, sh, st, n)[j]
  {
    if n > 0 {
      StageWorkersSound(d, sh, st, n - 1);
    }
  }

  /** No qualifying worker is missed. */
  lemma {:induction false} StageWorkersComplete(d: Data, sh: int, st: int, n: int, w: int)
    requires WellFormed(d) && 0 <= sh < d.NumOfShifts && 0 <= st < d.NumOfStages && n <= d.NumOfWorkers
    requires 0 <= w < n && Qualifies(d, sh, st, w)
    ensures w in StageWorkers(d, sh, st, n)
  {
    if w < n - 1 {
      StageWorkersComplete(d, sh, st, n - 1, w);
    }
  }

  /**
   * The registry variables of the workers qualifying for (sh, st), workers below `n`,
   * in increasing worker order: the literal list built at Problem.cs:85-93.
   */
  function StageLiterals(d: Data, A: WorkerRegistry, sh: int, st: int, n: int): seq<VarId>
    requires WellFormed(d) && WorkerVarsDefined(d, A)
    requires 0 <= sh < d.NumOfShifts && 0 <= st < d.NumOfStages && n <= d.NumOfWorkers
    decreases n
  {
    if n <= 0 then []
    else StageLiterals(d, A, sh, st, n - 1) + (if Qualifies(d, sh, st, n - 1) then [A[(sh, st, n - 1)]] else [])
  }

  /** The i-th literal is the registry variable of the i-th qualifying worker. */
  lemma {:induction false} StageLiteralsAt(d: Data, A: WorkerRegistry, sh: int, st: int, n: int)
    requires WellFormed(d) && WorkerVarsDefined(d, A)
    requires 0 <= sh < d.NumOfShifts && 0 <= st < d.NumOfStages && n <= d.NumOfWorkers
    ensures |StageLiterals(d, A, sh, st, n)| == |StageWorkers(d, sh, st, n)|
    ensures forall i :: 0 <= i < |StageWorkers(d, sh, st, n)| ==>
              IsWorkerKey(d, (sh, st, StageWorkers(d, sh, st, n)[i])) &&
              StageLiterals(d, A, sh, st, n)[i] == A[(sh, st, StageWorkers(d, sh, st, n)[i])]
  {
    StageWorkersSound(d, sh, st, n);
    if n > 0 {
      StageLiteralsAt(d, A, sh, st, n - 1);
    }
  }

  /** The coverage list of (sh, st) is empty exactly when no worker qualifies for it. */
  lemma {:induction false} StageLiteralsEmpty(d: Data, A: WorkerRegistry, sh: int, st: int)
    requires WellFormed(d) && WorkerVarsDefined(d, A)
    requires 0 <= sh < d.NumOfShifts && 0 <= st < d.NumOfStages
    ensures StageLiterals(d, A, sh, st, d.NumOfWorkers) == [] <==>
              forall w :: 0 <= w < d.NumOfWorkers ==> !Qualifies(d, sh, st, w)
  {
    var ws := StageWorkers(d, sh, st, d.NumOfWorkers);
    var lits := StageLiterals(d, A, sh, st, d.NumOfWorkers);
    StageLiteralsAt(d, A, sh, st, d.NumOfWorkers);
    StageWorkersSound(d, sh, st, d.NumOfWorkers);
    if lits == [] {
      forall w | 0 <= w < d.NumOfWorkers
        ensures !Qualifies(d, sh, st, w)
      {
        if Qualifies(d, sh, st, w) {
          StageWorkersComplete(d, sh, st, d.NumOfWorkers, w);
        }
      }
    } else {
      assert Qualifies(d, sh, st, ws[0]);
    }
  }

  /** Declarations appended for stage `st` of shift `sh`, workers below `n`. */
  function StageDecls(d: Data, sh: int, st: int, n: int): seq<VarDecl>
    requires WellFormed(d) && 0 <= sh < d.NumOfShifts && 0 <= st < d.NumOfStages && n <= d.NumOfWorkers
    decreases n
  {
    if n <= 0 then []
    else StageDecls(d, sh, st, n - 1) + (if Qualifies(d, sh, st, n - 1) then [BoolDecl(Assign(sh, st, n - 1))] else [])
  }

  /** Declarations appended for shift `sh`, stages below `m`. */
  function ShiftDecls(d: Data, sh: int, m: int): seq<VarDecl>
    requires WellFormed(d) && 0 <= sh < d.NumOfShifts && m <= d.NumOfStages
    decreases m
  {
    if m <= 0 then [] else ShiftDecls(d, sh, m - 1) + StageDecls(d, sh, m - 1, d.NumOfWorkers)
  }

  /** Declarations appended for shifts below `n`: the worker half of VariableDefinition. */
  function WorkerDecls(d: Data, n: int): seq<VarDecl>
    requires WellFormed(d) && n <= d.NumOfShifts
    decreases n
  {
    if n <= 0 then [] else WorkerDecls(d, n - 1) + ShiftDecls(d, n - 1, d.NumOfStages)
  }

  /** Declarations appended for line `ln`, equipment below `k`. */
  function LineDecls(d: Data, ln: int, k: int): seq<VarDecl>
    decreases k
  {
    if k <= 0 then [] else LineDecls(d, ln, k - 1) + [BoolDecl(Equip(ln, k - 1))]
  }

  /** Declarations appended for lines below `n`: the equipment half of VariableDefinition. */
  function EquipmentDecls(d: Data, n: int): seq<VarDecl>
    decreases n
  {
    if n <= 0 then [] else EquipmentDecls(d, n - 1) + LineDecls(d, n - 1, d.NumOfEquipments)
  }
}
