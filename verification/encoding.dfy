/** The model the script hands to the solver: variable declarations, the
    objective, and the completion, capacity and activation constraints,
    together with the direct reading of what a feasible point is. */
module Encoding {
  import opened Sums
  import opened Params
  import opened Lp

  /** `process p to be done completely`: the minutes all workers put into p
      reach its required minutes. */
  function CompletionConstraint(pb: Problem, p: nat): (c: Constraint)
    requires Shaped(pb) && p < pb.numProcesses
    ensures c.name == ProcessDone(p) && c.sense == AtLeast && c.rhs == pb.required[p]
    ensures |c.lhs| == pb.numWorkers
    ensures forall w {:trigger Units(w, p)} :: 0 <= w < pb.numWorkers ==> Term(Units(w, p), pb.matrix[w][p]) in c.lhs
    ensures forall t :: t in c.lhs ==>
      && t.v.Units? && t.v.process == p && t.v.worker < pb.numWorkers
      && t.coef == pb.matrix[t.v.worker][p]
  {
    var lhs := seq(pb.numWorkers, w requires 0 <= w < pb.numWorkers => Term(Units(w, p), pb.matrix[w][p]));
    assert forall t :: t in lhs ==> t.v.Units? && t.v.process == p && t.v.worker < pb.numWorkers by {
      forall t | t in lhs
        ensures t.v.Units? && t.v.process == p && t.v.worker < pb.numWorkers
      {
        var w :| 0 <= w < |lhs| && lhs[w] == t;
      }
    }
    assert forall w :: 0 <= w < pb.numWorkers ==> lhs[w] == Term(Units(w, p), pb.matrix[w][p]) && lhs[w] in lhs;
    Constraint(ProcessDone(p), lhs, AtLeast, pb.required[p])
  }

  /** `worker w works maximum 480 minutes per day`: minutes - 480 * is_working <= 0. */
  function CapacityConstraint(pb: Problem, w: nat): (c: Constraint)
    requires Shaped(pb) && w < pb.numWorkers
    ensures c.name == WorkerMaxMinutes(w) && c.sense == AtMost && c.rhs == 0
    ensures |c.lhs| == pb.numProcesses + 1
    ensures Term(IsWorking(w), -MaxMinutesPerDay) in c.lhs
    ensures forall p {:trigger Units(w, p)} :: 0 <= p < pb.numProcesses ==> Term(Units(w, p), pb.matrix[w][p]) in c.lhs
    ensures forall t :: t in c.lhs ==>
      || t == Term(IsWorking(w), -MaxMinutesPerDay)
      || (&& t.v.Units? && t.v.worker == w && t.v.process < pb.numProcesses
          && t.coef == pb.matrix[w][t.v.process])
  {
    var units := seq(pb.numProcesses, p requires 0 <= p < pb.numProcesses => Term(Units(w, p), pb.matrix[w][p]));
    assert forall t :: t in units ==> t.v.Units? && t.v.worker == w && t.v.process < pb.numProcesses by {
      forall t | t in units
        ensures t.v.Units? && t.v.worker == w && t.v.process < pb.numProcesses
      {
        var p :| 0 <= p < |units| && units[p] == t;
      }
    }
    assert forall p :: 0 <= p < |units| ==> units[p] == Term(Units(w, p), pb.matrix[w][p]) && units[p] in units;
    Constraint(WorkerMaxMinutes(w), units + [Term(IsWorking(w), -MaxMinutesPerDay)], AtMost, 0)
  }

  /** `worker w works if he has tasks`: units / MAX_VOLUME <= is_working,
      multiplied through by MAX_VOLUME. */
  function ActivationConstraint(numProcesses: nat, w: nat): (c: Constraint)
    ensures c.name == WorkerWorksIfTasks(w) && c.sense == AtMost && c.rhs == 0
    ensures |c.lhs| == numProcesses + 1
    ensures Term(IsWorking(w), -MaxVolume) in c.lhs
    ensures forall p {:trigger Units(w, p)} :: 0 <= p < numProcesses ==> Term(Units(w, p), 1) in c.lhs
    ensures forall t :: t in c.lhs ==>
      || t == Term(IsWorking(w), -MaxVolume)
      || (t.v.Units? && t.v.worker == w && t.v.process < numProcesses && t.coef == 1)
  {
    var units := seq(numProcesses, p requires 0 <= p < numProcesses => Term(Units(w, p), 1));
    assert forall t :: t in units ==> t.v.Units? && t.v.worker == w && t.v.process < numProcesses && t.coef == 1 by {
      forall t | t in units
        ensures t.v.Units? && t.v.worker == w && t.v.process < numProcesses && t.coef == 1
      {
        var p :| 0 <= p < |units| && units[p] == t;
      }
    }
    assert forall p :: 0 <= p < |units| ==> units[p] == Term(Units(w, p), 1) && units[p] in units;
    Constraint(WorkerWorksIfTasks(w), units + [Term(IsWorking(w), -MaxVolume)], AtMost, 0)
  }

  /** The constraints in the order the script adds them: one completion
      constraint per process, then one capacity and one activation
      constraint per worker. */
  function Constraints(pb: Problem): (cs: seq<Constraint>)
    requires Shaped(pb)
    ensures |cs| == pb.numProcesses + 2 * pb.numWorkers
    ensures forall p :: 0 <= p < pb.numProcesses ==> cs[p] == CompletionConstraint(pb, p)
    ensures forall w :: 0 <= w < pb.numWorkers ==>
      && cs[pb.numProcesses + w] == CapacityConstraint(pb, w)
      && cs[pb.numProcesses + pb.numWorkers + w] == ActivationConstraint(pb.numProcesses, w)
  {
    var P := pb.numProcesses;
    var W := pb.numWorkers;
    seq(P, p requires 0 <= p < P => CompletionConstraint(pb, p))
      + seq(W, w requires 0 <= w < W => CapacityConstraint(pb, w))
      + seq(W, w requires 0 <= w < W => ActivationConstraint(P, w))
  }

  /** The program the script builds: the objective `lpSum(is_working)`, the
      binary and non-negative integer variables, and the constraints. */
  function Emit(pb: Problem): (m: Program)
    requires Shaped(pb)
    ensures |m.objective| == pb.numWorkers
    ensures m.constraints == Constraints(pb)
    ensures forall v :: v in m.binaries <==> v.IsWorking? && v.worker < pb.numWorkers
    ensures forall v :: v in m.nonNegIntegers <==> v.Units? && v.worker < pb.numWorkers && v.process < pb.numProcesses
  {
    var P := pb.numProcesses;
    var W := pb.numWorkers;
    Program(
      seq(W, w requires 0 <= w < W => Term(IsWorking(w), 1)),
      set w | 0 <= w < W :: IsWorking(w),
      set w, p | 0 <= w < W && 0 <= p < P :: Units(w, p),
      Constraints(pb))
  }

  /** The assignment gives a value to every declared variable and nothing else. */
  predicate Fits(pb: Problem, a: Assignment) {
    && |a.units| == pb.numWorkers
    && |a.isWorking| == pb.numWorkers
    && forall w :: 0 <= w < pb.numWorkers ==> |a.units[w]| == pb.numProcesses
  }

  /** Minutes each worker spends on process p. */
  function ProcessColumn(pb: Problem, a: Assignment, p: nat): (c: seq<int>)
    requires Shaped(pb) && Fits(pb, a) && p < pb.numProcesses
    ensures |c| == pb.numWorkers
    ensures forall w :: 0 <= w < pb.numWorkers ==> c[w] == pb.matrix[w][p] * a.units[w][p]
  {
    seq(pb.numWorkers, w requires 0 <= w < pb.numWorkers => pb.matrix[w][p] * a.units[w][p])
  }

  /** Minutes worker w spends on each process. */
  function WorkerRow(pb: Problem, a: Assignment, w: nat): (r: seq<int>)
    requires Shaped(pb) && Fits(pb, a) && w < pb.numWorkers
    ensures |r| == pb.numProcesses
    ensures forall p :: 0 <= p < pb.numProcesses ==> r[p] == pb.matrix[w][p] * a.units[w][p]
  {
    seq(pb.numProcesses, p requires 0 <= p < pb.numProcesses => pb.matrix[w][p] * a.units[w][p])
  }

  /** Minutes all workers spend on process p. */
  function ProcessMinutes(pb: Problem, a: Assignment, p: nat): int
    requires Shaped(pb) && Fits(pb, a) && p < pb.numProcesses
  {
    Sum(ProcessColumn(pb, a, p))
  }

  /** Minutes worker w spends over all processes. */
  function WorkerMinutes(pb: Problem, a: Assignment, w: nat): int
    requires Shaped(pb) && Fits(pb, a) && w < pb.numWorkers
  {
    Sum(WorkerRow(pb, a, w))
  }

  /** Units worker w is given over all processes, skilled or not. */
  function WorkerUnits(pb: Problem, a: Assignment, w: nat): int
    requires Fits(pb, a) && w < pb.numWorkers
  {
    Sum(a.units[w])
  }

  /** `lpSum(is_working)`: on 0/1 flags, the number of working workers. */
  function Objective(isWorking: seq<int>): (n: int)
    ensures (forall w :: 0 <= w < |isWorking| ==> isWorking[w] == 0 || isWorking[w] == 1) ==>
      n == |Ones(isWorking)| && 0 <= n <= |isWorking|
  {
    BinarySumCountsOnes(isWorking);
    Sum(isWorking)
  }

  /** The three constraint families of the direct reading. */
  predicate FamiliesHold(pb: Problem, a: Assignment)
    requires Shaped(pb) && Fits(pb, a)
  {
    && (forall p :: 0 <= p < pb.numProcesses ==> ProcessMinutes(pb, a, p) >= pb.required[p])
    && (forall w :: 0 <= w < pb.numWorkers ==> WorkerMinutes(pb, a, w) <= MaxMinutesPerDay * a.isWorking[w])
    && (forall w :: 0 <= w < pb.numWorkers ==> WorkerUnits(pb, a, w) <= MaxVolume * a.isWorking[w])
  }

  /** A feasible point: variable domains plus the three constraint families. */
  predicate Feasible(pb: Problem, a: Assignment)
    requires Shaped(pb)
    ensures Feasible(pb, a) ==> Fits(pb, a) && 0 <= Objective(a.isWorking) <= pb.numWorkers
    ensures Feasible(pb, a) ==>
      forall w :: 0 <= w < pb.numWorkers ==> WorkerMinutes(pb, a, w) <= MaxMinutesPerDay
  {
    && Fits(pb, a)
    && (forall w :: 0 <= w < pb.numWorkers ==> a.isWorking[w] == 0 || a.isWorking[w] == 1)
    && (forall w, p :: 0 <= w < pb.numWorkers && 0 <= p < pb.numProcesses ==> a.units[w][p] >= 0)
    && FamiliesHold(pb, a)
  }

  lemma CompletionConstraintMeaning(pb: Problem, a: Assignment, p: nat)
    requires Shaped(pb) && Fits(pb, a) && p < pb.numProcesses
    ensures Holds(CompletionConstraint(pb, p), a) <==> ProcessMinutes(pb, a, p) >= pb.required[p]
  {
    EvalAsSum(CompletionConstraint(pb, p).lhs, a, ProcessColumn(pb, a, p));
  }

  lemma CapacityConstraintMeaning(pb: Problem, a: Assignment, w: nat)
    requires Shaped(pb) && Fits(pb, a) && w < pb.numWorkers
    ensures Holds(CapacityConstraint(pb, w), a) <==> WorkerMinutes(pb, a, w) <= MaxMinutesPerDay * a.isWorking[w]
  {
    var minutes := WorkerRow(pb, a, w);
    EvalAsSum(CapacityConstraint(pb, w).lhs, a, minutes + [-MaxMinutesPerDay * a.isWorking[w]]);
    SumAppend(minutes, [-MaxMinutesPerDay * a.isWorking[w]]);
  }

  lemma ActivationConstraintMeaning(pb: Problem, a: Assignment, w: nat)
    requires Fits(pb, a) && w < pb.numWorkers
    ensures Holds(ActivationConstraint(pb.numProcesses, w), a) <==> WorkerUnits(pb, a, w) <= MaxVolume * a.isWorking[w]
  {
    EvalAsSum(ActivationConstraint(pb.numProcesses, w).lhs, a, a.units[w] + [-MaxVolume * a.isWorking[w]]);
    SumAppend(a.units[w], [-MaxVolume * a.isWorking[w]]);
  }

  /** The declared variable kinds hold exactly when `is_working` is 0/1 and
      every unit count is non-negative. */
  lemma EmittedDomainsMeaning(pb: Problem, a: Assignment)
    requires Shaped(pb) && Fits(pb, a)
    ensures
      (&& (forall v :: v in Emit(pb).binaries ==> Value(a, v) == 0 || Value(a, v) == 1)
       && (forall v :: v in Emit(pb).nonNegIntegers ==> Value(a, v) >= 0))
      <==>
      (&& (forall w :: 0 <= w < pb.numWorkers ==> a.isWorking[w] == 0 || a.isWorking[w] == 1)
       && (forall w, p :: 0 <= w < pb.numWorkers && 0 <= p < pb.numProcesses ==> a.units[w][p] >= 0))
  {
    var m := Emit(pb);
    if forall v :: v in m.binaries ==> Value(a, v) == 0 || Value(a, v) == 1 {
      forall w | 0 <= w < pb.numWorkers
        ensures a.isWorking[w] == 0 || a.isWorking[w] == 1
      {
        assert IsWorking(w) in m.binaries;
      }
    }
    if forall v :: v in m.nonNegIntegers ==> Value(a, v) >= 0 {
      forall w, p | 0 <= w < pb.numWorkers && 0 <= p < pb.numProcesses
        ensures a.units[w][p] >= 0
      {
        assert Units(w, p) in m.nonNegIntegers;
      }
    }
  }

  predicate AllHold(cs: seq<Constraint>, a: Assignment) {
    forall i :: 0 <= i < |cs| ==> Holds(cs[i], a)
  }

  /** If every emitted constraint holds, the three families hold. */
  lemma EmittedConstraintsSound(pb: Problem, a: Assignment)
    requires Shaped(pb) && Fits(pb, a)
    requires AllHold(Constraints(pb), a)
    ensures FamiliesHold(pb, a)
  {
    var cs := Constraints(pb);
    var P := pb.numProcesses;
    var W := pb.numWorkers;
    forall p | 0 <= p < P
      ensures ProcessMinutes(pb, a, p) >= pb.required[p]
    {
      assert Holds(cs[p], a);
      CompletionConstraintMeaning(pb, a, p);
    }
    forall w | 0 <= w < W
      ensures WorkerMinutes(pb, a, w) <= MaxMinutesPerDay * a.isWorking[w]
      ensures WorkerUnits(pb, a, w) <= MaxVolume * a.isWorking[w]
    {
      assert Holds(cs[P + w], a);
      CapacityConstraintMeaning(pb, a, w);
      assert Holds(cs[P + W + w], a);
      ActivationConstraintMeaning(pb, a, w);
    }
  }

  /** If the three families hold, the emitted constraint at index i holds. */
  lemma EmittedConstraintHolds(pb: Problem, a: Assignment, i: nat)
    requires Shaped(pb) && Fits(pb, a)
    requires FamiliesHold(pb, a)
    requires i < pb.numProcesses + 2 * pb.numWorkers
    ensures Holds(Constraints(pb)[i], a)
  {
    var P := pb.numProcesses;
    var W := pb.numWorkers;
    if i < P {
      CompletionConstraintMeaning(pb, a, i);
    } else if i < P + W {
      WorkerConstraintsHold(pb, a, i - P);
    } else {
      WorkerConstraintsHold(pb, a, i - P - W);
    }
  }

  /** If the three families hold, both constraints emitted for worker w hold. */
  lemma WorkerConstraintsHold(pb: Problem, a: Assignment, w: nat)
    requires Shaped(pb) && Fits(pb, a)
    requires FamiliesHold(pb, a)
    requires w < pb.numWorkers
    ensures Holds(Constraints(pb)[pb.numProcesses + w], a)
    ensures Holds(Constraints(pb)[pb.numProcesses + pb.numWorkers + w], a)
  {
    CapacityConstraintMeaning(pb, a, w);
    ActivationConstraintMeaning(pb, a, w);
  }

  /** If the three families hold, every emitted constraint holds. */
  lemma EmittedConstraintsComplete(pb: Problem, a: Assignment)
    requires Shaped(pb) && Fits(pb, a)
    requires FamiliesHold(pb, a)
    ensures AllHold(Constraints(pb), a)
  {
    var cs := Constraints(pb);
    forall i | 0 <= i < |cs|
      ensures Holds(cs[i], a)
    {
      EmittedConstraintHolds(pb, a, i);
    }
  }

  /** Every emitted constraint holds exactly when the three families hold. */
  lemma EmittedConstraintsMeaning(pb: Problem, a: Assignment)
    requires Shaped(pb) && Fits(pb, a)
    ensures AllHold(Constraints(pb), a) <==> FamiliesHold(pb, a)
  {
    if AllHold(Constraints(pb), a) {
      EmittedConstraintsSound(pb, a);
    }
    if FamiliesHold(pb, a) {
      EmittedConstraintsComplete(pb, a);
    }
  }

  /** The emitted program and the direct reading agree: an assignment of the
      right shape satisfies every declaration and constraint exactly when it
      is feasible, and the emitted objective is `Objective`. */
  lemma EmittedModelMeansFeasible(pb: Problem, a: Assignment)
    requires Shaped(pb) && Fits(pb, a)
    ensures SatisfiedBy(Emit(pb), a) <==> Feasible(pb, a)
    ensures Eval(Emit(pb).objective, a) == Objective(a.isWorking)
  {
    EmittedDomainsMeaning(pb, a);
    EmittedConstraintsMeaning(pb, a);
    EvalAsSum(Emit(pb).objective, a, a.isWorking);
  }
}
