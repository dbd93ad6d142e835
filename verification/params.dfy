/** The parameters of one scheduling run (process volumes, per-unit
    normatives, worker skill lists), the errors Python raises while turning
    them into coefficients, and the built coefficient data. */
module Params {

  /** Daily cap, in minutes, for a working worker. */
  const MaxMinutesPerDay: int := 480

  /** Divisor of the activation constraint. The max-scan over the volumes
      that precedes it is overwritten with this constant. */
  const MaxVolume: int := 1000

  datatype Instance = Instance(
    numProcesses: nat,
    numWorkers: nat,
    volumes: seq<int>,
    normatives: seq<int>,
    skills: seq<seq<int>>)

  /** The exception the builder stops with, in the order Python would meet it. */
  datatype BuildError =
    | VolumesTooShort                           // IndexError reading a volume
    | NormativesTooShort                        // IndexError reading a normative
    | SkillListsTooShort                        // IndexError reading a worker's skill list
    | SkillOutOfRange(worker: nat, skill: int)  // IndexError marking a skill
    | ShapeMismatch(rowLength: nat, normativesLength: nat)  // numpy cannot broadcast

  /** Python accepts a list index in [-n, n); a negative one counts from the end. */
  predicate ValidIndex(i: int, n: nat) {
    -(n as int) <= i < n
  }

  /** Worker whose skill list is `skills` may do process p: the list holds p,
      or the negative index that Python resolves to p. */
  predicate HasSkill(skills: seq<int>, n: nat, p: nat) {
    p in skills || p - n in skills
  }

  predicate SkillsInRange(skills: seq<int>, n: nat) {
    forall s :: s in skills ==> ValidIndex(s, n)
  }

  /** One-dimensional numpy broadcasting: equal lengths, or one side of length 1. */
  predicate Broadcastable(m: nat, n: nat) {
    m == n || m == 1 || n == 1
  }

  /** The coefficient rows of workers w..W-1 can be built without an exception. */
  predicate RowsBuildable(skills: seq<seq<int>>, normativesLength: nat, n: nat, w: nat, numWorkers: nat) {
    w >= numWorkers ||
    (&& numWorkers <= |skills|
     && Broadcastable(n, normativesLength)
     && forall k :: w <= k < numWorkers ==> SkillsInRange(skills[k], n))
  }

  predicate WellShaped(inst: Instance) {
    && |inst.volumes| >= inst.numProcesses
    && |inst.normatives| >= inst.numProcesses
    && RowsBuildable(inst.skills, |inst.normatives|, inst.numProcesses, 0, inst.numWorkers)
  }

  /** An error that a row builder for workers w..W-1 may legitimately report. */
  predicate RowErrorExplained(skills: seq<seq<int>>, normativesLength: nat, n: nat, w: nat, numWorkers: nat, e: BuildError) {
    match e
    case SkillListsTooShort => w < numWorkers && |skills| < numWorkers
    case SkillOutOfRange(v, s) => w <= v < numWorkers && v < |skills| && s in skills[v] && !ValidIndex(s, n)
    case ShapeMismatch(m, k) => w < numWorkers && m == n && k == normativesLength && !Broadcastable(n, normativesLength)
    case _ => false
  }

  /** An error the whole builder may legitimately report for `inst`. */
  predicate ErrorExplained(inst: Instance, e: BuildError) {
    match e
    case VolumesTooShort =>
      |inst.volumes| < inst.numProcesses && |inst.volumes| <= |inst.normatives|
    case NormativesTooShort =>
      |inst.normatives| < inst.numProcesses && |inst.normatives| < |inst.volumes|
    case _ =>
      && |inst.volumes| >= inst.numProcesses
      && |inst.normatives| >= inst.numProcesses
      && RowErrorExplained(inst.skills, |inst.normatives|, inst.numProcesses, 0, inst.numWorkers, e)
  }

  /** Minutes per unit worker w spends on process p: the normative if w has
      the skill, otherwise 0. */
  function Coefficient(inst: Instance, w: nat, p: nat): int
    requires w < |inst.skills| && p < |inst.normatives|
  {
    if HasSkill(inst.skills[w], inst.numProcesses, p) then inst.normatives[p] else 0
  }

  /** The data the constraints are built from: required minutes per process
      and the worker-by-process coefficient matrix. */
  datatype Problem = Problem(
    numProcesses: nat,
    numWorkers: nat,
    required: seq<int>,
    matrix: seq<seq<int>>)

  predicate Shaped(pb: Problem) {
    && |pb.required| == pb.numProcesses
    && |pb.matrix| == pb.numWorkers
    && forall w :: 0 <= w < pb.numWorkers ==> |pb.matrix[w]| >= pb.numProcesses
  }

  predicate NonNegativeCoefficients(pb: Problem)
    requires Shaped(pb)
  {
    forall w, p :: 0 <= w < pb.numWorkers && 0 <= p < pb.numProcesses ==> pb.matrix[w][p] >= 0
  }
}
