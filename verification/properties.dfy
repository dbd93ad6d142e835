/** What a feasible point of the emitted model implies about the schedule. */
module Properties {
  import opened Sums
  import opened Results
  import opened Params
  import opened Coefficients
  import opened Lp
  import opened Encoding

  /** With non-negative normatives every coefficient is non-negative. */
  lemma BuiltCoefficientsNonNegative(inst: Instance, pb: Problem)
    requires BuildProblem(inst) == Success(pb)
    requires forall p :: 0 <= p < inst.numProcesses ==> inst.normatives[p] >= 0
    ensures NonNegativeCoefficients(pb)
  {
  }

  /** Capacity: a worker's minutes never exceed 480 * is_working, so they are
      0 for an idle worker and at most 480 for a working one. */
  lemma WorkerMinutesWithinCap(pb: Problem, a: Assignment, w: nat)
    requires Shaped(pb) && Feasible(pb, a) && w < pb.numWorkers
    ensures WorkerMinutes(pb, a, w) <= MaxMinutesPerDay * a.isWorking[w]
    ensures a.isWorking[w] == 0 ==> WorkerMinutes(pb, a, w) == 0
    ensures a.isWorking[w] == 1 ==> WorkerMinutes(pb, a, w) <= MaxMinutesPerDay
  {
    if a.isWorking[w] == 0 {
      IdleWorkerHasNoUnits(pb, a, w);
      SumOfZeros(WorkerRow(pb, a, w));
    }
  }

  /** With non-negative coefficients and unit counts, as in every feasible
      point, a worker's minutes are never negative. */
  lemma WorkerMinutesNonNegative(pb: Problem, a: Assignment, w: nat)
    requires Shaped(pb) && NonNegativeCoefficients(pb)
    requires Fits(pb, a) && w < pb.numWorkers
    requires forall p :: 0 <= p < pb.numProcesses ==> a.units[w][p] >= 0
    ensures 0 <= WorkerMinutes(pb, a, w)
  {
    var row := WorkerRow(pb, a, w);
    forall p | 0 <= p < |row|
      ensures row[p] >= 0
    {
      assert pb.matrix[w][p] >= 0 && a.units[w][p] >= 0;
    }
    SumNonNegative(row);
  }

  /** Activation: a worker who is not working has no units of any process,
      skilled or not; so a worker holding any unit is working. */
  lemma IdleWorkerHasNoUnits(pb: Problem, a: Assignment, w: nat)
    requires Shaped(pb) && Feasible(pb, a) && w < pb.numWorkers
    ensures a.isWorking[w] == 0 ==> forall p :: 0 <= p < pb.numProcesses ==> a.units[w][p] == 0
    ensures (exists p :: 0 <= p < pb.numProcesses && a.units[w][p] > 0) ==> a.isWorking[w] == 1
    ensures a.isWorking[w] == 1 ==> WorkerUnits(pb, a, w) <= MaxVolume
  {
    if a.isWorking[w] == 0 {
      SumZeroForcesZeros(a.units[w]);
    }
  }

  /** A worker with an empty skill list has an all-zero coefficient row, so
      it spends no minutes, and whatever units it is given leave every
      completion sum unchanged. */
  lemma UnskilledWorkerContributesNothing(inst: Instance, pb: Problem, a: Assignment, w: nat, units: seq<int>)
    requires BuildProblem(inst) == Success(pb)
    requires Fits(pb, a) && w < pb.numWorkers && inst.skills[w] == []
    requires |units| == pb.numProcesses
    ensures forall p :: 0 <= p < pb.numProcesses ==> pb.matrix[w][p] == 0
    ensures WorkerMinutes(pb, a, w) == 0
    ensures Fits(pb, a.(units := a.units[w := units]))
    ensures forall p :: 0 <= p < pb.numProcesses ==>
      ProcessMinutes(pb, a.(units := a.units[w := units]), p) == ProcessMinutes(pb, a, p)
  {
    var b := a.(units := a.units[w := units]);
    assert forall p :: 0 <= p < pb.numProcesses ==> !HasSkill(inst.skills[w], inst.numProcesses, p);
    SumOfZeros(WorkerRow(pb, a, w));
    forall p | 0 <= p < pb.numProcesses
      ensures ProcessMinutes(pb, b, p) == ProcessMinutes(pb, a, p)
    {
      assert ProcessColumn(pb, b, p) == ProcessColumn(pb, a, p);
    }
  }

  /** Completion: every process receives at least volume * normative
      minutes, counting only workers with the skill; surplus is allowed. */
  lemma CompletionMeetsDemand(inst: Instance, pb: Problem, a: Assignment, p: nat)
    requires BuildProblem(inst) == Success(pb)
    requires Feasible(pb, a) && p < pb.numProcesses
    ensures forall w :: 0 <= w < pb.numWorkers ==>
      ProcessColumn(pb, a, p)[w] == Coefficient(inst, w, p) * a.units[w][p]
    ensures ProcessMinutes(pb, a, p) >= inst.volumes[p] * inst.normatives[p]
  {
  }

  /** All required minutes fit in 480 minutes per working worker. */
  lemma TotalDemandWithinCapacity(pb: Problem, a: Assignment)
    requires Shaped(pb) && Feasible(pb, a)
    ensures Sum(pb.required) <= MaxMinutesPerDay * Objective(a.isWorking)
  {
    var P := pb.numProcesses;
    var W := pb.numWorkers;
    var table := seq(W, w requires 0 <= w < W => WorkerRow(pb, a, w));
    SumRowsEqualsSumColumns(table, P);
    forall p | 0 <= p < P
      ensures pb.required[p] <= ColumnTotals(table, P)[p]
    {
      assert Column(table, p) == ProcessColumn(pb, a, p);
    }
    SumMonotone(pb.required, ColumnTotals(table, P));
    var caps := seq(W, w requires 0 <= w < W => MaxMinutesPerDay * a.isWorking[w]);
    SumMonotone(RowTotals(table), caps);
    SumScale(a.isWorking, MaxMinutesPerDay, caps);
  }
}
