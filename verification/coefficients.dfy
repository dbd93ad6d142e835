/** Building the required-minutes list and the skills-to-coefficient matrix
    the way the script does it: fill loops over Python lists, a 0/1 skill
    row multiplied element-wise by the normatives. */
module Coefficients {
  import opened Results
  import opened Params

  /** The loop over processes: entry i of `m` becomes volume[i] * normative[i].
      Entries below i are already filled. */
  function FillMinutes(volumes: seq<int>, normatives: seq<int>, m: seq<int>, i: nat): (r: Result<seq<int>, BuildError>)
    requires i <= |m|
    requires i <= |volumes| && i <= |normatives|
    requires forall k :: 0 <= k < i ==> m[k] == volumes[k] * normatives[k]
    ensures r.Success? <==> |volumes| >= |m| && |normatives| >= |m|
    ensures r.Success? ==> |r.value| == |m| && forall k :: 0 <= k < |m| ==> r.value[k] == volumes[k] * normatives[k]
    ensures r.Failure? ==> r.error == if |volumes| <= |normatives| then VolumesTooShort else NormativesTooShort
    decreases |m| - i
  {
    if i == |m| then Success(m)
    else if i >= |volumes| then Failure(VolumesTooShort)
    else if i >= |normatives| then Failure(NormativesTooShort)
    else FillMinutes(volumes, normatives, m[i := volumes[i] * normatives[i]], i + 1)
  }

  /** Required minutes per process, starting from a list of n ones. */
  function RequiredMinutes(volumes: seq<int>, normatives: seq<int>, n: nat): (r: Result<seq<int>, BuildError>)
    ensures r.Success? <==> |volumes| >= n && |normatives| >= n
    ensures r.Success? ==> |r.value| == n && forall i :: 0 <= i < n ==> r.value[i] == volumes[i] * normatives[i]
    ensures r.Failure? ==> r.error == if |volumes| <= |normatives| then VolumesTooShort else NormativesTooShort
  {
    FillMinutes(volumes, normatives, seq(n, _ => 1), 0)
  }

  /** Sets `a[skill] = 1` for each skill of worker w, in list order, with
      Python's index rules. */
  function MarkSkills(a: seq<int>, skills: seq<int>, w: nat): (r: Result<seq<int>, BuildError>)
    ensures r.Success? <==> SkillsInRange(skills, |a|)
    ensures r.Success? ==> |r.value| == |a| && forall p :: 0 <= p < |a| ==> r.value[p] == if HasSkill(skills, |a|, p) then 1 else a[p]
    ensures r.Failure? ==> r.error.SkillOutOfRange? && r.error.worker == w && r.error.skill in skills && !ValidIndex(r.error.skill, |a|)
    decreases |skills|
  {
    if |skills| == 0 then Success(a)
    else if !ValidIndex(skills[0], |a|) then Failure(SkillOutOfRange(w, skills[0]))
    else
      var i := if skills[0] < 0 then skills[0] + |a| else skills[0];
      var r := MarkSkills(a[i := 1], skills[1..], w);
      assert forall s :: s in skills ==> s == skills[0] || s in skills[1..];
      r
  }

  /** `numpy.multiply` on two one-dimensional arrays, broadcasting a side of length 1. */
  function Multiply(a: seq<int>, b: seq<int>): (r: Option<seq<int>>)
    ensures r.Some? <==> Broadcastable(|a|, |b|)
    ensures r.Some? ==> |r.value| == if |a| == 1 then |b| else |a|
    ensures r.Some? ==> forall i :: 0 <= i < |a| && i < |b| ==> r.value[i] == a[i] * b[i]
    ensures r.Some? && |a| == 1 ==> forall i :: 0 <= i < |b| ==> r.value[i] == a[0] * b[i]
    ensures r.Some? && |b| == 1 ==> forall i :: 0 <= i < |a| ==> r.value[i] == a[i] * b[0]
  {
    if |a| == |b| then Some(seq(|a|, i requires 0 <= i < |a| => a[i] * b[i]))
    else if |a| == 1 then Some(seq(|b|, i requires 0 <= i < |b| => a[0] * b[i]))
    else if |b| == 1 then Some(seq(|a|, i requires 0 <= i < |a| => a[i] * b[0]))
    else None
  }

  /** The coefficient row of worker w over n processes. */
  function SkillRow(skills: seq<int>, normatives: seq<int>, n: nat, w: nat): (r: Result<seq<int>, BuildError>)
    requires |normatives| >= n
    ensures r.Success? <==> SkillsInRange(skills, n) && Broadcastable(n, |normatives|)
    ensures r.Success? ==> |r.value| >= n && (|normatives| == n ==> |r.value| == n)
    ensures r.Success? ==> forall p :: 0 <= p < n ==> r.value[p] == if HasSkill(skills, n, p) then normatives[p] else 0
    ensures r.Failure? && !SkillsInRange(skills, n) ==>
      r.error.SkillOutOfRange? && r.error.worker == w && r.error.skill in skills && !ValidIndex(r.error.skill, n)
    ensures r.Failure? && SkillsInRange(skills, n) ==> r.error == ShapeMismatch(n, |normatives|)
  {
    var marked :- MarkSkills(seq(n, _ => 0), skills, w);
    match Multiply(marked, normatives)
    case None => Failure(ShapeMismatch(n, |normatives|))
    case Some(row) => Success(row)
  }

  /** The loop over workers w..W-1, one coefficient row each. */
  function SkillRows(skills: seq<seq<int>>, normatives: seq<int>, n: nat, w: nat, numWorkers: nat): (r: Result<seq<seq<int>>, BuildError>)
    requires |normatives| >= n
    ensures r.Success? <==> RowsBuildable(skills, |normatives|, n, w, numWorkers)
    ensures r.Failure? ==> RowErrorExplained(skills, |normatives|, n, w, numWorkers, r.error)
    ensures r.Success? ==> |r.value| == if w < numWorkers then numWorkers - w else 0
    ensures r.Success? ==> forall k :: 0 <= k < |r.value| ==>
      && |r.value[k]| >= n
      && (|normatives| == n ==> |r.value[k]| == n)
      && forall p :: 0 <= p < n ==> r.value[k][p] == if HasSkill(skills[w + k], n, p) then normatives[p] else 0
    decreases numWorkers - w
  {
    if w >= numWorkers then Success([])
    else if w >= |skills| then Failure(SkillListsTooShort)
    else
      var row :- SkillRow(skills[w], normatives, n, w);
      var rest :- SkillRows(skills, normatives, n, w + 1, numWorkers);
      Success([row] + rest)
  }

  /** Required minutes and coefficient matrix of an instance, or the
      exception the script would stop with. */
  function BuildProblem(inst: Instance): (r: Result<Problem, BuildError>)
    ensures r.Success? <==> WellShaped(inst)
    ensures r.Failure? ==> ErrorExplained(inst, r.error)
    ensures r.Success? ==>
      && r.value.numProcesses == inst.numProcesses
      && r.value.numWorkers == inst.numWorkers
      && Shaped(r.value)
      && (forall p :: 0 <= p < inst.numProcesses ==> r.value.required[p] == inst.volumes[p] * inst.normatives[p])
      && (forall w, p :: 0 <= w < inst.numWorkers && 0 <= p < inst.numProcesses ==>
            r.value.matrix[w][p] == Coefficient(inst, w, p))
      && (|inst.normatives| == inst.numProcesses ==>
            forall w :: 0 <= w < inst.numWorkers ==> |r.value.matrix[w]| == inst.numProcesses)
  {
    var required :- RequiredMinutes(inst.volumes, inst.normatives, inst.numProcesses);
    var matrix :- SkillRows(inst.skills, inst.normatives, inst.numProcesses, 0, inst.numWorkers);
    Success(Problem(inst.numProcesses, inst.numWorkers, required, matrix))
  }
}
