/** The instance hard-coded in the script: three processes, seven workers,
    of whom only the first three have a skill each. */
module ExampleInstance {
  import opened Sums
  import opened Results
  import opened Params
  import opened Coefficients
  import opened Lp
  import opened Encoding
  import opened Properties

  function Example(): Instance {
    Instance(3, 7, [10, 20, 30], [10, 20, 15], [[0], [1], [2], [], [], [], []])
  }

  function ExampleProblem(): Problem {
    Problem(3, 7, [100, 400, 450],
      [[10, 0, 0], [0, 20, 0], [0, 0, 15], [0, 0, 0], [0, 0, 0], [0, 0, 0], [0, 0, 0]])
  }

  /** Workers 0, 1, 2 take all 10, 20 and 30 units of processes 0, 1, 2. */
  function Plan(): Assignment {
    Assignment(
      [[10, 0, 0], [0, 20, 0], [0, 0, 30], [0, 0, 0], [0, 0, 0], [0, 0, 0], [0, 0, 0]],
      [1, 1, 1, 0, 0, 0, 0])
  }

  /** Required minutes [100, 400, 450] and one normative per skilled worker. */
  lemma ExampleBuilds()
    ensures BuildProblem(Example()) == Success(ExampleProblem())
  {
    var inst := Example();
    assert WellShaped(inst) by {
      assert forall k :: 0 <= k < 7 ==> SkillsInRange(inst.skills[k], 3);
    }
    var pb := BuildProblem(inst).value;
    assert pb.required == [100, 400, 450];
    var expected := ExampleProblem().matrix;
    forall w | 0 <= w < 7
      ensures pb.matrix[w] == expected[w]
    {
      assert |pb.matrix[w]| == 3;
      forall p | 0 <= p < 3
        ensures pb.matrix[w][p] == expected[w][p]
      {
        assert pb.matrix[w][p] == Coefficient(inst, w, p);
      }
    }
    assert pb.matrix == expected;
  }

  /** Sums over three and seven entries, written out. */
  lemma SumOfThree(s: seq<int>)
    requires |s| == 3
    ensures Sum(s) == s[0] + s[1] + s[2]
  {
    SumPrefixStep(s, 0);
    SumPrefixStep(s, 1);
    SumPrefixStep(s, 2);
    assert s[..3] == s;
  }

  lemma SumOfSeven(s: seq<int>)
    requires |s| == 7
    ensures Sum(s) == s[0] + s[1] + s[2] + s[3] + s[4] + s[5] + s[6]
  {
    SumPrefixStep(s, 0);
    SumPrefixStep(s, 1);
    SumPrefixStep(s, 2);
    SumPrefixStep(s, 3);
    SumPrefixStep(s, 4);
    SumPrefixStep(s, 5);
    SumPrefixStep(s, 6);
    assert s[..7] == s;
  }

  /** Minutes each process receives, written out: only its one skilled
      worker contributes. */
  lemma ProcessSums(a: Assignment)
    requires Fits(ExampleProblem(), a)
    ensures Shaped(ExampleProblem())
    ensures ProcessMinutes(ExampleProblem(), a, 0) == 10 * a.units[0][0]
    ensures ProcessMinutes(ExampleProblem(), a, 1) == 20 * a.units[1][1]
    ensures ProcessMinutes(ExampleProblem(), a, 2) == 15 * a.units[2][2]
  {
    var pb := ExampleProblem();
    SumOfSeven(ProcessColumn(pb, a, 0));
    SumOfSeven(ProcessColumn(pb, a, 1));
    SumOfSeven(ProcessColumn(pb, a, 2));
  }

  /** Minutes of each worker, written out: worker w < 3 works only on process w. */
  lemma WorkerMinuteSums(a: Assignment, w: nat)
    requires Fits(ExampleProblem(), a) && w < 7
    ensures Shaped(ExampleProblem())
    ensures WorkerMinutes(ExampleProblem(), a, w) == [10, 20, 15, 0, 0, 0, 0][w] * (if w < 3 then a.units[w][w] else 0)
  {
    var pb := ExampleProblem();
    var row := WorkerRow(pb, a, w);
    SumOfThree(row);
    if w < 3 {
      assert row[0] + row[1] + row[2] == row[w];
    } else {
      assert row[0] == 0 && row[1] == 0 && row[2] == 0;
    }
  }

  /** Feasibility of a point of the instance, with every sum written out. */
  lemma ExampleFeasibleWhen(a: Assignment)
    requires Fits(ExampleProblem(), a)
    requires forall w :: 0 <= w < 7 ==> a.isWorking[w] == 0 || a.isWorking[w] == 1
    requires forall w, p :: 0 <= w < 7 && 0 <= p < 3 ==> a.units[w][p] >= 0
    requires 10 * a.units[0][0] >= 100 && 20 * a.units[1][1] >= 400 && 15 * a.units[2][2] >= 450
    requires 10 * a.units[0][0] <= 480 * a.isWorking[0]
    requires 20 * a.units[1][1] <= 480 * a.isWorking[1]
    requires 15 * a.units[2][2] <= 480 * a.isWorking[2]
    requires forall w :: 0 <= w < 7 ==> a.units[w][0] + a.units[w][1] + a.units[w][2] <= 1000 * a.isWorking[w]
    ensures Shaped(ExampleProblem())
    ensures Feasible(ExampleProblem(), a)
  {
    var pb := ExampleProblem();
    ProcessSums(a);
    forall w | 0 <= w < 7
      ensures WorkerMinutes(pb, a, w) <= MaxMinutesPerDay * a.isWorking[w]
      ensures WorkerUnits(pb, a, w) <= MaxVolume * a.isWorking[w]
    {
      WorkerMinuteSums(a, w);
      SumOfThree(a.units[w]);
    }
  }

  /** The plan is feasible and has three workers working. */
  lemma PlanIsFeasible()
    ensures Shaped(ExampleProblem())
    ensures Feasible(ExampleProblem(), Plan())
    ensures Objective(Plan().isWorking) == 3
  {
    ExampleFeasibleWhen(Plan());
    SumOfSeven(Plan().isWorking);
  }

  /** Every feasible point of the instance has workers 0, 1 and 2 working:
      each is the only one able to do its process, whose demand is positive. */
  lemma ExampleNeedsThreeWorkers(a: Assignment)
    requires Shaped(ExampleProblem()) && Feasible(ExampleProblem(), a)
    ensures a.isWorking[0] == 1 && a.isWorking[1] == 1 && a.isWorking[2] == 1
    ensures Objective(a.isWorking) >= 3
  {
    var pb := ExampleProblem();
    ProcessSums(a);
    assert ProcessMinutes(pb, a, 0) >= 100 && ProcessMinutes(pb, a, 1) >= 400 && ProcessMinutes(pb, a, 2) >= 450;
    assert a.units[0][0] > 0 && a.units[1][1] > 0 && a.units[2][2] > 0;
    IdleWorkerHasNoUnits(pb, a, 0);
    IdleWorkerHasNoUnits(pb, a, 1);
    IdleWorkerHasNoUnits(pb, a, 2);
    SumOfSeven(a.isWorking);
  }

  /** A feasible point may give a working worker units of a process it has
      no skill for: worker 0 holds 5 units of process 1. */
  lemma UnskilledUnitsAllowed()
    ensures !HasSkill(Example().skills[0], 3, 1)
    ensures Shaped(ExampleProblem())
    ensures var a := Plan().(units := Plan().units[0 := [10, 5, 0]]);
      Feasible(ExampleProblem(), a) && a.units[0][1] > 0
  {
    ExampleFeasibleWhen(Plan().(units := Plan().units[0 := [10, 5, 0]]));
  }

  /** Completion is an inequality: process 0 may receive 400 minutes
      against a requirement of 100. */
  lemma SurplusAllowed()
    ensures Shaped(ExampleProblem())
    ensures var a := Plan().(units := Plan().units[0 := [40, 0, 0]]);
      Feasible(ExampleProblem(), a) && ProcessMinutes(ExampleProblem(), a, 0) > ExampleProblem().required[0]
  {
    var a := Plan().(units := Plan().units[0 := [40, 0, 0]]);
    ExampleFeasibleWhen(a);
    ProcessSums(a);
  }

  /** `is_working` only bounds from above: a worker without units may still
      be flagged as working, at the cost of a larger objective. */
  lemma WorkingWithoutUnitsAllowed()
    ensures Shaped(ExampleProblem())
    ensures var a := Plan().(isWorking := [1, 1, 1, 1, 0, 0, 0]);
      Feasible(ExampleProblem(), a) && WorkerUnits(ExampleProblem(), a, 3) == 0 && Objective(a.isWorking) == 4
  {
    var a := Plan().(isWorking := [1, 1, 1, 1, 0, 0, 0]);
    ExampleFeasibleWhen(a);
    SumOfThree(a.units[3]);
    SumOfSeven(a.isWorking);
  }

  /** One process of 5 units at 100 minutes each and one worker: 500
      required minutes exceed the 480-minute cap, so no point is feasible. */
  lemma OverloadedInstanceInfeasible(a: Assignment)
    ensures BuildProblem(Instance(1, 1, [5], [100], [[0]])) == Success(Problem(1, 1, [500], [[100]]))
    ensures !Feasible(Problem(1, 1, [500], [[100]]), a)
  {
    var inst := Instance(1, 1, [5], [100], [[0]]);
    assert WellShaped(inst) by {
      assert SkillsInRange(inst.skills[0], 1);
    }
    var pb := BuildProblem(inst).value;
    assert |pb.matrix[0]| == 1 && pb.matrix[0][0] == Coefficient(inst, 0, 0);
    assert pb.matrix[0] == [100];
    assert pb.matrix == [[100]];
    assert pb.required == [500];
    assert Sum(pb.required) == 500;
    if Feasible(pb, a) {
      TotalDemandWithinCapacity(pb, a);
      assert false;
    }
  }
}
