/**
 * The constraint-programming model that the formulation fills, seen as a log:
 * every variable creation is appended to `vars` (its id is its position),
 * every constraint to `constraints`, and the minimisation target is recorded
 * in `objective`. The solver's search is not part of this model.
 */
module CpSat {
  import opened ManPowerData

  type VarId = nat

  datatype Option<T> = None | Some(value: T)

  /** The names the formulation gives its variables ("A[sh|st|w]", "E[ln|eq]", "tmp[...]", ...). */
  datatype VarName =
    | Assign(shift: int, stage: int, worker: int)
    | Equip(line: int, equipment: int)
    | Tmp(gap: GapKey)
    | AbTmp(gap: GapKey)
    | TotalDiversity
    | TotalGaps

  /** A declared variable with its inclusive bounds; a boolean variable has bounds [0, 1]. */
  datatype VarDecl = VarDecl(name: VarName, lo: int, hi: int)

  /** A linear expression: a single variable, or the plain sum of some variables. */
  datatype LinearExpr = Term(v: VarId) | Sum(vs: seq<VarId>)

  datatype Constraint =
    | ExactlyOne(lits: seq<VarId>)                                 // AddExactlyOne
    | AtMostOne(lits: seq<VarId>)                                  // AddAtMostOne
    | WeightedAtLeast(lits: seq<VarId>, coeffs: seq<int>, bound: int)  // Add(WeightedSum(lits, coeffs) >= bound)
    | EqualIf(target: VarId, value: int, enforce: seq<VarId>)      // Add(target == value).OnlyEnforceIf(enforce)
    | AbsEquality(target: VarId, arg: VarId)                       // AddAbsEquality(target, arg)
    | SumEquals(terms: seq<LinearExpr>, total: VarId)              // Add(LinearExpr.Sum(terms) == total)

  /** int.MaxValue of the 32-bit integer type, the upper bound of the two totals. */
  const IntMaxValue: int := 2147483647

  function BoolDecl(name: VarName): VarDecl
  {
    VarDecl(name, 0, 1)
  }

  /** Regrouping an appended log: the loops append in one grouping, the section functions in another. */
  lemma {:induction false} AppendAssoc<T>(a: seq<T>, b: seq<T>, c: seq<T>)
    ensures a + b + c == a + (b + c)
  {
  }

  /** What is in either part is in the concatenation. */
  lemma {:induction false} InConcat<T>(x: T, ab: seq<T>, a: seq<T>, b: seq<T>)
    requires ab == a + b && (x in a || x in b)
    ensures x in ab
  {
  }

  /** No element occurs twice. */
  predicate Distinct<T(==)>(s: seq<T>)
  {
    forall i, j :: 0 <= i < j < |s| ==> s[i] != s[j]
  }

  /** Two duplicate-free parts with nothing in common make a duplicate-free whole. */
  lemma {:induction false} DistinctConcat<T>(ab: seq<T>, a: seq<T>, b: seq<T>)
    requires ab == a + b && Distinct(a) && Distinct(b)
    requires forall x :: x in a ==> x !in b
    ensures Distinct(ab)
  {
    forall i, j | 0 <= i < j < |ab|
      ensures ab[i] != ab[j]
    {
      if j >= |a| && i < |a| {
        assert ab[i] in a && ab[j] == b[j - |a|];
      } else if i >= |a| {
        assert ab[i] == b[i - |a|] && ab[j] == b[j - |a|];
      }
    }
  }

  /** An element at a valid index is in the sequence. */
  lemma {:induction false} IndexIn<T>(s: seq<T>, i: int)
    requires 0 <= i < |s|
    ensures s[i] in s
  {
  }

  /** What is in a concatenation is in one of its parts. */
  lemma {:induction false} InParts<T>(x: T, ab: seq<T>, a: seq<T>, b: seq<T>)
    requires ab == a + b && x in ab
    ensures x in a || x in b
  {
  }

  class CpModel {
    var vars: seq<VarDecl>
    var constraints: seq<Constraint>
    var objective: Option<LinearExpr>

    constructor ()
      ensures vars == [] && constraints == [] && objective == None
    {
      vars, constraints, objective := [], [], None;
    }

    method NewBoolVar(name: VarName) returns (v: VarId)
      modifies this
      ensures v == |old(vars)| && vars == old(vars) + [BoolDecl(name)]
      ensures constraints == old(constraints) && objective == old(objective)
    {
      v := |vars|;
      vars := vars + [BoolDecl(name)];
    }

    method NewIntVar(lo: int, hi: int, name: VarName) returns (v: VarId)
      modifies this
      ensures v == |old(vars)| && vars == old(vars) + [VarDecl(name, lo, hi)]
      ensures constraints == old(constraints) && objective == old(objective)
    {
      v := |vars|;
      vars := vars + [VarDecl(name, lo, hi)];
    }

    /** Appends one constraint record; every Add* call of the formulation goes through here. */
    method Add(c: Constraint)
      modifies this
      ensures constraints == old(constraints) + [c]
      ensures vars == old(vars) && objective == old(objective)
    {
      constraints := constraints + [c];
    }

    method Minimize(e: LinearExpr)
      modifies this
      ensures objective == Some(e)
      ensures vars == old(vars) && constraints == old(constraints)
    {
      objective := Some(e);
    }
  }
}
