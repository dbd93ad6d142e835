/** A linear program as data: decision variables, linear terms, labelled
    constraints, and what it means for an assignment of values to satisfy it. */
module Lp {
  import opened Sums

  /** `items_worker_process[w][p]` and `is_working[w]`. */
  datatype Var = Units(worker: nat, process: nat) | IsWorking(worker: nat)

  /** One (variable, coefficient) pair of an affine expression. */
  datatype Term = Term(v: Var, coef: int)

  datatype Sense = AtLeast | AtMost

  /** The names the script gives its constraints. */
  datatype Label =
    | ProcessDone(process: nat)
    | WorkerMaxMinutes(worker: nat)
    | WorkerWorksIfTasks(worker: nat)

  /** lhs `sense` rhs, where lhs is the sum of the terms. */
  datatype Constraint = Constraint(name: Label, lhs: seq<Term>, sense: Sense, rhs: int)

  /** Minimise the objective subject to the constraints, with the binary and
      the non-negative integer variables declared as such. */
  datatype Program = Program(
    objective: seq<Term>,
    binaries: set<Var>,
    nonNegIntegers: set<Var>,
    constraints: seq<Constraint>)

  /** Values for the decision variables, as the solver would return them. */
  datatype Assignment = Assignment(units: seq<seq<int>>, isWorking: seq<int>)

  /** A variable outside the assignment's shape reads as 0. */
  function Value(a: Assignment, v: Var): int {
    match v
    case Units(w, p) => if w < |a.units| && p < |a.units[w]| then a.units[w][p] else 0
    case IsWorking(w) => if w < |a.isWorking| then a.isWorking[w] else 0
  }

  /** The value of the affine expression whose terms are `terms`. */
  function Eval(terms: seq<Term>, a: Assignment): int
    decreases |terms|
  {
    if |terms| == 0 then 0
    else Eval(terms[..|terms| - 1], a) + terms[|terms| - 1].coef * Value(a, terms[|terms| - 1].v)
  }

  /** An expression evaluates to the sum of its terms' values. */
  lemma {:induction false} EvalAsSum(terms: seq<Term>, a: Assignment, values: seq<int>)
    requires |values| == |terms|
    requires forall i :: 0 <= i < |terms| ==> values[i] == terms[i].coef * Value(a, terms[i].v)
    ensures Eval(terms, a) == Sum(values)
    decreases |terms|
  {
    if |terms| > 0 {
      EvalAsSum(terms[..|terms| - 1], a, values[..|values| - 1]);
    }
  }

  predicate Holds(c: Constraint, a: Assignment) {
    match c.sense
    case AtLeast => Eval(c.lhs, a) >= c.rhs
    case AtMost => Eval(c.lhs, a) <= c.rhs
  }

  predicate SatisfiedBy(m: Program, a: Assignment) {
    && (forall v :: v in m.binaries ==> Value(a, v) == 0 || Value(a, v) == 1)
    && (forall v :: v in m.nonNegIntegers ==> Value(a, v) >= 0)
    && (forall i :: 0 <= i < |m.constraints| ==> Holds(m.constraints[i], a))
  }
}
