# Workers-to-processes scheduling model

A Dafny model of the constraint-building core of the `app.py` script. The
script assigns production processes to workers. Each process has a volume
(units of work) and a normative (minutes per unit). Each worker has a list of
skills (process indices). From these the script derives:

- the required minutes of every process (`volume * normative`);
- a worker-by-process coefficient matrix, whose entry is the normative when
  the worker has the skill and 0 otherwise.

It then emits an integer linear program. The variables are non-negative
integer unit counts `items_worker_process[w][p]` and binary flags
`is_working[w]`. The objective is to minimise the number of working workers.
There are three constraint families:

- completion: the minutes put into each process reach its required minutes;
- capacity: a worker's minutes are at most `480 * is_working`;
- activation: a worker's units divided by `MAX_VOLUME = 1000` are at most
  `is_working`.

The model generalises the script's hard-coded parameters to any instance
(`Params.Instance`). The hard-coded instance itself is `ExampleInstance.Example`.

Modules:

- `Params`: the instance, the build errors, Python's list-index rule, skills
  (`HasSkill`), the reference `Coefficient`, and the built `Problem`.
- `Coefficients`: the builder. It follows the script's loops: fill a list of
  ones with `volume * normative`, mark skills in a zero row, multiply the row
  by the normatives with numpy's broadcasting rule. It returns the exception
  Python would raise when lists are too short, a skill index is out of range,
  or numpy cannot broadcast.
- `Lp`: a linear program as data (variables, terms, labelled constraints,
  declarations) and what it means for an assignment to satisfy it.
- `Encoding`: `Emit`, the program the script builds, and `Feasible`, the
  direct reading of a feasible point. The two are proved equivalent.
- `Properties`: what feasibility implies (capacity, activation, unskilled
  workers, completion, objective, total demand).
- `ExampleInstance`: the hard-coded instance, a feasible plan with objective
  3, a proof that every feasible point needs three working workers, and
  witnesses of how loose the as-written encoding is.
- `Sums`, `Results`: integer sums and the `Option`/`Result` wrappers.

The encoding, as the script writes it, is loose in these ways:

- Completion is `>=` in minutes, not `==` in units. Surplus is feasible; see
  `ExampleInstance.SurplusAllowed`.
- Activation counts units, not minutes. It uses the constant 1000, not the
  largest volume.
- Units of a process the worker lacks the skill for are not forced to 0. They
  only meet a zero coefficient; see `ExampleInstance.UnskilledUnitsAllowed`.
- There are no shift start/end variables. The daily cap is the literal 480.

## Model

| member | source | states |
|---|---|---|
| Coefficients.FillMinutes | app.py:25-27 | The fill loop succeeds exactly when both lists reach the process count. Every entry then equals volume times normative. Otherwise the error names the list Python reads out of range first. |
| Coefficients.RequiredMinutes | app.py:25-27 | Required minutes have one entry per process, and entry i is `volumes[i] * normatives[i]`. A too-short volume or normative list yields the matching IndexError. |
| Coefficients.MarkSkills | app.py:41-43 | Marking succeeds exactly when every skill is a valid Python index (in `[-n, n)`). Entry p is then 1 when p or p-n is in the skill list and is unchanged otherwise. An out-of-range skill is reported with its worker. |
| Coefficients.Multiply | app.py:44 | Element-wise product under numpy's one-dimensional broadcasting. It is defined exactly when the lengths are equal or one of them is 1. It gives the broadcast length, and `a[i] * b[i]` on every common index. |
| Coefficients.SkillRow | app.py:41-44 | A worker's row is at least as long as the process count, and exactly that long when the normatives are. Its entry p is the normative when the worker has skill p, else 0. Each failure is a bad skill of this worker or a broadcast mismatch. |
| Coefficients.SkillRows | app.py:39-45 | Rows are built for workers w..W-1 exactly when the skill lists reach W, every skill is in range and the shapes broadcast. There is then one row per worker with the coefficient rule. Every error is justified by a concrete input fault. |
| Coefficients.BuildProblem | app.py:25-45 | Building succeeds exactly when the instance is well-shaped. The result has `required[p] = volume * normative`, W rows, and `matrix[w][p] = Coefficient`: the normative if skilled, else 0. Each error is explained by the instance. |
| Encoding.CompletionConstraint | app.py:59-65 | Builds `process p to be done completely` as a `>=` constraint against the required minutes of p. Its terms are exactly the units of p held by each of the W workers, each weighted by that worker's coefficient for p. |
| Encoding.CapacityConstraint | app.py:68-72 | Builds `worker w works maximum 480 minutes per day` as a `<= 0` constraint. Its terms are exactly worker w's units of each process, weighted by w's coefficient for it, plus `is_working[w]` with coefficient -480. |
| Encoding.ActivationConstraint | app.py:74-79 | Builds `worker w works if he has tasks`, multiplied through by MAX_VOLUME, as a `<= 0` constraint. Its terms are exactly worker w's units of each process with coefficient 1, plus `is_working[w]` with coefficient -1000. |
| Encoding.Constraints | app.py:58-79 | There are P + 2W constraints, in the order the script adds them. Constraint p is the completion of process p. Constraint P+w is the capacity of worker w, and P+W+w is the activation of worker w. |
| Encoding.Emit | app.py:48-79 | The program has one objective term per worker and exactly the constraints above. It declares exactly the `is_working[w]` binaries for w < W and the `items_worker_process[w][p]` non-negative integers for w < W, p < P. |
| Encoding.CompletionConstraintMeaning | app.py:59-65 | The emitted `process p to be done completely` constraint holds iff the minutes all workers spend on p are at least its required minutes. |
| Encoding.CapacityConstraintMeaning | app.py:68-72 | The emitted `maximum 480 minutes` constraint holds iff the worker's minutes are at most `480 * is_working[w]`. |
| Encoding.ActivationConstraintMeaning | app.py:74-79 | The emitted `works if he has tasks` constraint, multiplied through by MAX_VOLUME, holds iff the worker's total units are at most `1000 * is_working[w]`. |
| Encoding.Objective | app.py:50-53 | `lpSum(is_working)`. When every flag is 0 or 1, it equals the number of workers with `is_working = 1`, between 0 and W. |
| Encoding.Feasible | app.py:50-79 | A feasible point: values of the declared shape, binary `is_working`, non-negative unit counts, and the completion, capacity and activation families. Every feasible point has an objective between 0 and W, and no worker spends more than 480 minutes. |
| Encoding.EmittedDomainsMeaning | app.py:50-56 | The declared variable kinds hold iff every `is_working` is 0 or 1 and every unit count is non-negative. |
| Encoding.EmittedConstraintsMeaning | app.py:59-79 | All emitted constraints hold iff the completion, capacity and activation families hold for every process and worker. |
| Encoding.EmittedModelMeansFeasible | app.py:50-79 | For an assignment of the right shape, satisfying the emitted program is equivalent to `Feasible`. The emitted objective evaluates to `lpSum(is_working)`. |
| Properties.BuiltCoefficientsNonNegative | app.py:39-45 | With non-negative normatives every built coefficient is non-negative. |
| Properties.WorkerMinutesWithinCap | app.py:68-79 | In a feasible point a worker's minutes are at most `480 * is_working`. They are 0 when the worker is not working, since such a worker holds no units, and at most 480 when it is. |
| Properties.WorkerMinutesNonNegative | app.py:39-56 | When every coefficient is non-negative, as it is for non-negative normatives, a worker whose unit counts are non-negative, as in every feasible point, spends a non-negative number of minutes. |
| Properties.IdleWorkerHasNoUnits | app.py:74-79 | In a feasible point a non-working worker has 0 units of every process, skilled or not. A worker holding any unit is working, and a working worker holds at most 1000 units. |
| Properties.UnskilledWorkerContributesNothing | app.py:39-65 | A worker with an empty skill list has an all-zero row and spends 0 minutes. Replacing its units by anything leaves every completion sum unchanged. |
| Properties.CompletionMeetsDemand | app.py:59-65 | In a feasible point each process receives at least `volume * normative` minutes, counted as `Coefficient * units` over all workers. |
| Properties.TotalDemandWithinCapacity | app.py:59-72 | In a feasible point the total required minutes are at most 480 times the objective. This is proved by swapping the order of the double sum of minutes. |
| ExampleInstance.ExampleBuilds | app.py:11-45 | The hard-coded instance builds to required minutes [100, 400, 450] and rows [10,0,0], [0,20,0], [0,0,15], then four zero rows. |
| ExampleInstance.PlanIsFeasible | app.py:11-79 | Workers 0, 1, 2 taking 10, 20, 30 units of processes 0, 1, 2, with all else 0 and exactly those three working, is feasible with objective 3. |
| ExampleInstance.ExampleNeedsThreeWorkers | app.py:29-79 | Every feasible point of the hard-coded instance has workers 0, 1 and 2 working, so its objective is at least 3. |
| ExampleInstance.UnskilledUnitsAllowed | app.py:59-79 | The encoding does not zero unskilled units: giving worker 0 five units of process 1, which it lacks, stays feasible. |
| ExampleInstance.SurplusAllowed | app.py:59-65 | Completion is an inequality: 400 minutes on process 0 against 100 required is feasible. |
| ExampleInstance.WorkingWithoutUnitsAllowed | app.py:74-79 | Activation only bounds from above: a worker flagged working with no units is feasible, with objective 4. |
| ExampleInstance.OverloadedInstanceInfeasible | app.py:59-72 | One process of 5 units at 100 minutes and one skilled worker builds to 500 required minutes. No point is feasible, since 500 > 480. |

## Left out

- The call to the solver and its status (app.py:85). The solver is an external black box, so nothing is claimed about the point it returns or its optimality. Feasibility of given points and lower bounds on the objective are proved instead.
- Printing of the matrix, the model and the results (app.py:46, 83, 86-96). This is console output.
- The scan for the largest volume (app.py:16-19). Its result is overwritten by `MAX_VOLUME = 1000` on line 21 and never used.
- The commented-out UI and solver-listing lines (app.py:1-4, 8-9).
- Encoding.ActivationConstraintMeaning: the constraint is stated after multiplying through by MAX_VOLUME, as `units - 1000 * is_working <= 0`. PuLP's coefficient 1/1000 is a floating-point number; its rounding and the solver's tolerances are not modelled.
- Coefficients.BuildProblem: its contract says every reported error is justified by the instance. It does not say which error wins when several apply; the body follows Python's evaluation order for that.
- Coefficients.Multiply: numpy's conversion to 64-bit integers is not modelled; products are unbounded integers.
- Negative process or worker counts are not modelled. Python would treat them as empty ranges; the counts here are natural numbers.
- Constraint names are the `Lp.Label` constructors rather than formatted strings.
