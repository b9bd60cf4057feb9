# An elastic job scheduler, its performance model and its moving-average job

This project models the core of a resource manager for dataflow engines, in Dafny 4.11.
`dafny verify dfyconfig.toml` checks all of it.

**The scheduler.** Clients submit jobs, each with a predicted time and a target time. A pool holds resources.
In each round the scheduling thread tries five allocation policies on the live pool, putting back what each
took, scores the plans, keeps the best one, lets an elasticity manager grow or shrink the pool, claims the
resources of the plan by id and moves its jobs to the run queue. A dispatching thread starts a thread for
each job; job threads get the response and return the resources; a finishing thread releases the clients.
The model has two layers:

- classes with the fields, methods and loops of the original (`Scheduler.dfy`), each method tied to a
  specification (`Jobs.dfy`, `Policies.dfy`, `Sorting.dfy`, `Winner.dfy`, `Elasticity.dfy`, `Service.dfy`), and
- a state machine in which the threads interleave freely (`Threads.dfy`), with what every step conserves
  (`Census.dfy`), an inductive invariant (`Invariants.dfy`), what each thread does (`JobThreads.dfy`) and theorems about whole runs (`Safety.dfy`,
  `Progress.dfy`, `PlanService.dfy`, `FailingRound.dfy`, and `Shrinking.dfy` for undisturbed rounds).

`Refinement.dfy` connects the layers: a round of the class is a run of the machine, to the same state.

**The performance model** (`Regression.dfy`, `PerfModel.dfy`). A polynomial fitted by batch gradient descent.

**The moving-average job** (`Messages.dfy`, `MovingAverages.dfy`, `ResourceMask.dfy`). From packing the request
to unpacking the reply, with bytes, 32-bit integers and the bit mask of resources made explicit.

## Main results

1. The winner of a round gives every job of its plan a resource, and serves someone if there is room for one
   job, even if the pool grows between trials (`Winner.WinnerHasNoEmptyList`, `Winner.WinnerServes`).
2. In every reachable state a resource has one holder and a job one stage; the counters are right; a client
   goes on only after its response is set (`Safety.OneHolder`, `Safety.ResourcesCounted`, `Safety.OneStage`, `Safety.MarkedIsOver`).
3. A chosen plan is served exactly, whatever the other threads do meanwhile: its jobs leave the ready queue and no
   others, and the pool loses its resources and no others (`PlanService.PlanIsServedExactly`).
4. The claim does *not* always succeed: the elasticity manager runs before it and may pop a resource the plan
   names. A run fails if and only if that happens (`Safety.FailsExactlyWhenNamedIsPopped`), and the first job of
   a fresh scheduler can already cause it (`FailingRound.FirstJobCanFail`). Without interference, whether a
   decision to shrink is fatal is a closed condition on the sizes of window and pool and the bounds of the jobs;
   if one of the last three policies wins it always is, and for a job that waits alone the round fails if and
   only if its target exceeds its time on min(max, pool) resources by more than a second
   (`Shrinking.ShrinkingRound`, `Shrinking.LoneRound`).
5. Without new jobs every run ends, and it ends with all jobs answered unless a claim failed, which it does if
   and only if a named resource was popped. A turn of the scheduling loop that finds the pool empty and starts
   over (`src/scheduler/Scheduler.cpp:233-235`) changes nothing and is not a step of a run
   (`Progress.NoEndlessRun`, `Progress.MaximalRunFinishesAll`).
6. Gradient descent never increases the squared error under a bound on the step size, which cannot be
   improved with one feature or one measurement; at a given point the exact condition is known
   (`Regression.StepDescends`, `Regression.SharpForOneFeature`, `Regression.SharpForOneMeasurement`,
   `Regression.StepDescendsExactly`).
7. The moving-average job computes the floor of the window averages, for data that is not negative and for any
   data if the width is a power of two; for no other width is its division right for all negative sums. The
   width arrives if and only if it is at most 127 (`MovingAverages.MovingAverage`,
   `MovingAverages.DivAssignRightIff`, `Messages.WidthArrives`).
8. Jobs stay what they were submitted as, wherever they are, and a started job can always run to its end
   (`JobThreads.JobsAreAsSubmitted`, `JobThreads.ThreadRun`).

## Where the code differs from what it says

- The ready queue is pushed at the front and read from the front, so "first come first served" serves the
  newest job first (`src/scheduler/Scheduler.cpp:316`, `src/scheduler/Scheduler.hpp:161-166`).
- The names of the policies' positions in `src/scheduler/Scheduler.cpp:11-12` disagree with the order in which
  they are registered (`src/scheduler/main.cxx:32-44`). The model follows the registration.
- `float` scores are stored in an integer (`src/scheduler/Allocations.hpp:42-44`), so fractions are cut off.
- Fields named "millis" hold seconds (`src/common/Job.hpp:57`, `src/common/Job.hpp:135-136`).

## Model

| member | source | states |
|---|---|---|
| `Jobs.NoJobsAll` | src/scheduler/Allocations.hpp:29-40 | the number of served jobs is the length of the plan exactly when no job has an empty list |
| `Jobs.MakespanSign` | src/scheduler/Allocations.hpp:19-25 | the makespan is finite exactly when every job has a resource, and then positive for a plan that is not empty |
| `Jobs.MakespanConcat` | src/scheduler/Allocations.hpp:19-40 | makespans and numbers of served jobs of plans in a row add up |
| `Jobs.MakespanOne` | src/common/Job.cpp:3-6 | the time of one job multiplied by its resources is its predicted time; without resources it is infinite |
| `Jobs.ScoreBounds` | src/scheduler/algs.cpp:234-248 | a plan scores at least the number of waiting jobs for each job it serves, exactly that if a list is empty, and zero if it serves nobody |
| `Jobs.ScoreIsQuotient` | src/scheduler/algs.cpp:246-247 | if every job has a resource, what the score has above waiting times served jobs is the number of jobs divided by the makespan, cut off: multiplied by the makespan it is at most that number, and one more exceeds it |
| `Jobs.ScoreOfEmptyQueue` | src/scheduler/algs.cpp:245-245 | an empty ready queue counts as one waiting job |
| `Jobs.SlowScore` | src/scheduler/algs.cpp:234-248 | if every job takes more than a second on its resources, the score is exactly waiting jobs times served jobs |
| `Policies.WindowIs` | src/scheduler/algs.cpp:101-104 | the window is a prefix of the ready queue, no longer than asked for, and shorter only if it is the whole queue |
| `Policies.MinCostIs` | src/common/Job.hpp:96-96 | the comparison of times is that of the cross products of predicted times and minima |
| `Policies.ShortestFirst` | src/scheduler/algs.cpp:188-190 | the orders SJTF may meet its window in are exactly those by fewest resources and then by shortest predicted time |
| `Policies.PlanPrefix` | src/scheduler/algs.cpp:11-207 | each policy serves a prefix of the order in which it meets the jobs |
| `Policies.PlanResources` | src/scheduler/Scheduler.cpp:94-105 | what a whole trial takes is the back of the pool, read backwards and without gaps |
| `Policies.GiveBack` | src/scheduler/Scheduler.cpp:44-49 | resources popped off the back are its reverse, and together with the rest they make up the pool |
| `Policies.TrialThenReturn` | src/scheduler/Allocations.cpp:15-21 | a trial and its return leave the untouched prefix followed by the reverse of the taken suffix, hence the same multiset |
| `Policies.PlanLists` | src/scheduler/algs.cpp:11-207 | how many resources each policy gives: exactly the minimum, exactly the maximum, within the bounds, or all or nothing |
| `Policies.PlanStops` | src/scheduler/algs.cpp:11-207 | a policy leaves jobs out only from the first one that fails its test on what is left of the pool |
| `Policies.PlanDemands` | src/scheduler/algs.cpp:11-207 | for arbitrary bounds, on how many free resources each policy adds a job, how many it gives to it then, and that it stops at the first job that finds fewer |
| `Policies.PriorityKeepsOne` | src/scheduler/algs.cpp:111-124 | Priority never empties a pool |
| `Policies.PriorityIsFair` | src/scheduler/algs.cpp:96-126 | Priority serves in non-increasing priority, gives each job exactly its maximum, and no unserved job of the window outranks a served one |
| `Policies.PlanCount` | src/scheduler/algs.cpp:11-126 | with common bounds each policy serves exactly the number given by a closed formula, and only SJTF adds jobs without resources |
| `Policies.SjtfShape` | src/scheduler/algs.cpp:166-207 | with common m < M, SJTF gives M to exactly the first min(w, n / M) jobs and an empty list to all others, which it adds exactly when more than m resources are left over |
| `Sorting.Sorted` | src/scheduler/algs.cpp:155-164 | sorting the window permutes it into the order of the comparator |
| `Sorting.FirstBest` | src/scheduler/algs.cpp:189-190 | the element picked has the best key and is the first that has it |
| `Sorting.PicksInOrder` | src/scheduler/algs.cpp:188-205 | picking from a window sorted by time meets jobs in lexicographic order of minimum and time; picking by priority meets them in order of priority |
| `Sorting.PicksAreAnOrder` | src/scheduler/algs.cpp:184-206 | the picks are a permutation of the window in the order the policy promises |
| `Sorting.OrderExists` | src/scheduler/algs.cpp:96-207 | every window has an order the policy can meet it in |
| `Winner.PriorityCatchesUp` | src/scheduler/algs.cpp:96-206 | if SJTF adds a job without resources, Priority on a pool no smaller serves at least as many jobs |
| `Winner.WinnerHasNoEmptyList` | src/scheduler/algs.cpp:209-297 | a winner that serves anyone has no empty resource list, so the first resource of a started job exists; pools may grow between trials |
| `Winner.WinnerServes` | src/scheduler/algs.cpp:209-297 | with m free resources the winner serves at least one job and leaves none empty-handed |
| `Winner.ServedAtMost` | src/scheduler/algs.cpp:11-126 | no policy serves more jobs than giving each its minimum does |
| `Winner.SlowJobsMaximizeService` | src/scheduler/algs.cpp:234-267 | with a pool of fixed size and predicted times above M seconds, scores are waiting times served, and the winner serves min(window, n / m), the most of any trial |
| `Winner.LoneJobGetsAll` | src/scheduler/algs.cpp:209-267 | a job waiting alone gets min(max, pool) resources, whatever its predicted time, and one of the last three policies wins |
| `Elasticity.SumSigns` | src/scheduler/Allocations.hpp:50-64 | the sum of the missed targets is negative exactly when a job is late, minus infinity included; the other sum is finite and never negative |
| `Elasticity.MetricSign` | src/scheduler/Allocations.hpp:50-70 | the metric is negative, and the pool grows, exactly when some job of the plan misses its target or has no resource |
| `Elasticity.MetricIsSum` | src/scheduler/Allocations.hpp:50-70 | if no job is late the metric is the sum of the slacks and the pool shrinks exactly when that exceeds one; otherwise it is the sum of the negative ones and the pool grows |
| `Elasticity.MetricMonotone` | src/scheduler/ElasticityManager.cpp:9-24 | enlarging the lists of any plan never lowers the metric, never turns another decision into one to grow and never gives up one to shrink |
| `Elasticity.DecideOne` | src/scheduler/ElasticityManager.cpp:9-24 | for a single job the pool shrinks exactly when its slack exceeds one second |
| `Service.ClaimTakesList` | src/scheduler/Scheduler.cpp:31-42 | a claim succeeds exactly when the pool holds everything on the list, and then the pool loses exactly that |
| `Sequences.EraseSplits` | src/common/concurrent_deque.hpp:130-134 | erasing takes out the first occurrence and leaves everything else in its place |
| `Service.ClaimSplit` | src/scheduler/Scheduler.cpp:31-42 | claiming two lists one after the other is claiming them at once |
| `Service.ClaimKeepsOrder` | src/scheduler/Scheduler.cpp:31-42 | what a claim leaves in the pool stays in its order |
| `Service.RemoveJobIds` | src/scheduler/Scheduler.cpp:358-370 | removing a job from the ready queue removes one occurrence of its id, or nothing if there is none |
| `Service.RemoveJobSplits` | src/scheduler/Scheduler.cpp:358-370 | the first job with the id goes and the jobs before and behind it stay in their places |
| `Service.RemoveJobKeeps` | src/scheduler/Scheduler.cpp:358-370 | removing a job leaves only jobs that were there |
| `Service.RemoveAllKeepsOrder` | src/scheduler/Allocations.cpp:5-13 | what the removal of a plan leaves in the ready queue is the other jobs, in their order |
| `Service.RemoveEntrySplits` | src/scheduler/Scheduler.cpp:213-220 | the first entry with the id leaves the run queue, and nothing else |
| `Scheduling.Allocations.TotalCost` | src/scheduler/Allocations.hpp:19-25 | the accumulated cost is the makespan |
| `Scheduling.Allocations.CountJobs` | src/scheduler/Allocations.hpp:29-40 | the loop counts the jobs with a list that is not empty |
| `Scheduling.Allocations.JloMetric` | src/scheduler/Allocations.hpp:50-70 | two accumulators compute the metric of any plan, minus infinity if a list is empty |
| `Scheduling.Allocations.SetScore` | src/scheduler/algs.cpp:234-248 | the plan gets its score |
| `Scheduling.SelectMaxScore` | src/scheduler/algs.cpp:257-267 | the index returned has a greatest score, and every later one is strictly less |
| `Scheduling.BestElement` | src/scheduler/algs.cpp:107-123 | the loop finds the first of the best |
| `Scheduling.RemoveElement` | src/scheduler/algs.cpp:203-203 | removing by a reference into the range itself takes out exactly one job and keeps the order of the others |
| `Scheduling.Scheduler.constructor` | src/scheduler/Scheduler.hpp:74-113 | a scheduler starts with resource 1, no jobs and a window of five |
| `Scheduling.Scheduler.ProvisionResource` | src/scheduler/Scheduler.hpp:256-261 | one resource with a new id at the back of the pool |
| `Scheduling.Scheduler.DeprovisionResource` | src/scheduler/Scheduler.hpp:266-272 | the counter goes down and the back of the pool is gone, unless nothing is provisioned; on an empty pool the counter goes down and the pop waits |
| `Scheduling.Scheduler.UpdateResourcePool` | src/scheduler/ElasticityManager.cpp:9-24 | pool, next id and counter change as the metric decides, for any plan and any pool |
| `Scheduling.Scheduler.Allocate` | src/scheduler/Scheduler.cpp:94-105 | the list is the back of the pool in reverse, of the length the bounds allow, and the pool is what is left |
| `Scheduling.Scheduler.ReturnResources` | src/scheduler/Scheduler.cpp:44-49 | the list is appended to the pool |
| `Scheduling.Scheduler.ReturnPlan` | src/scheduler/Allocations.cpp:15-21 | all lists of a plan are appended to the pool |
| `Scheduling.Scheduler.Fcfs` | src/scheduler/algs.cpp:11-90 | the three first-come-first-served loops make the specified plan and leave a prefix of the pool |
| `Scheduling.Scheduler.BySelection` | src/scheduler/algs.cpp:96-207 | SJTF and Priority make the specified plan for an order that respects their keys |
| `Scheduling.Scheduler.PickAndServe` | src/scheduler/algs.cpp:188-206 | the picking loop ends, each pick shrinking the live window by one, with the specified plan |
| `Scheduling.Scheduler.Schedule` | src/scheduler/Scheduler.cpp:78-92 | no plan exactly when there are no resources or no jobs, otherwise the plan of the chosen policy |
| `Scheduling.Scheduler.Try` | src/scheduler/algs.cpp:218-222 | a trial finds a plan and leaves the pool as prefix and reversed suffix |
| `Scheduling.Scheduler.TryAll` | src/scheduler/algs.cpp:217-222 | all five trials succeed and preserve the multiset of the pool, each on what the one before has left |
| `Scheduling.Scheduler.ManagedMode` | src/scheduler/algs.cpp:209-232 | the plan returned is that of the winner of five valid trials |
| `Scheduling.Scheduler.RemoveJobFromReadyQ` | src/scheduler/Scheduler.cpp:358-370 | the first job with the id leaves the ready queue |
| `Scheduling.Scheduler.ClaimResources` | src/scheduler/Scheduler.cpp:31-42 | the loop claims the list, and fails exactly when the claim does |
| `Scheduling.Scheduler.ServiceAllocations` | src/scheduler/Allocations.cpp:5-13 | the jobs leave the ready queue, their resources the pool, and they are pushed to the run queue |
| `Scheduling.Scheduler.AdjustAndServe` | src/scheduler/Scheduler.cpp:237-247 | the service fails exactly when the resource just popped is named by the plan; otherwise resources are conserved and the counter stays in step |
| `Scheduling.Scheduler.SchedRound` | src/scheduler/Scheduler.cpp:222-253 | a whole round from old fields to new ones: five chained trials, their winner, no empty list, someone served if there is room, the exact failure condition, and conservation of resources |
| `Scheduling.AdjustThenClaim` | src/scheduler/Scheduler.cpp:240-241 | after a resource was gained or lost, a claim succeeds unless it names the lost one, and the pool is short of precisely what was claimed |
| `Threads.RunConcat` | src/scheduler/Scheduler.cpp:222-299 | runs in a row are a run |
| `Census.ResourcesKept` | src/scheduler/Scheduler.cpp:31-49 | no step of any thread creates, copies or drops a resource, but for the elasticity manager, which keeps count |
| `Census.JobsKept` | src/scheduler/Scheduler.cpp:136-348 | no step moves a job to two stages or to none; issuing adds one with a new id |
| `Invariants.QueuedNotStarted` | src/scheduler/Scheduler.cpp:266-272 | a job in the run queue has not been started |
| `Invariants.CrashIsLoss` | src/scheduler/Scheduler.cpp:31-42 | the one step that can go wrong is the claim of a popped resource: no trial finds an empty pool, and no job starts without a resource |
| `Invariants.InvStep` | src/scheduler/Scheduler.cpp:136-348 | every other step of every thread keeps the invariant |
| `Invariants.ReachableOk` | src/scheduler/Scheduler.cpp:136-348 | the invariant holds in every reachable state that has not failed a claim |
| `JobThreads.OthersExtend` | src/scheduler/Scheduler.cpp:136-348 | a step of any other thread only adds to the back of the pool and to the front of the ready queue, and leaves the counters and the round alone |
| `JobThreads.OthersExtendRun` | src/scheduler/Scheduler.cpp:136-348 | so does any run in which the scheduling thread does nothing |
| `JobThreads.SchedulingLeavesJobs` | src/scheduler/Scheduler.cpp:222-253 | a step of the scheduling thread only adds to the front of the run queue and touches no job thread |
| `JobThreads.OthersNeverWait` | src/scheduler/Scheduler.cpp:230-232 | what other threads can do does not depend on the round, but that handlers wait while policies are tried |
| `JobThreads.ReleaseRun` | src/scheduler/Scheduler.cpp:44-49 | a job thread that has its response returns its resources to the back of the pool, in their order |
| `JobThreads.ThreadRun` | src/scheduler/Scheduler.cpp:202-211 | a started job can always run to its end, and the exact state after that: response, resources, finished before jobs that waited to be |
| `JobThreads.DispatchRun` | src/scheduler/Scheduler.cpp:259-275 | the dispatching thread starts all jobs of the run queue, front to back, each with its resources |
| `JobThreads.FinishRun` | src/scheduler/Scheduler.cpp:284-295 | the finishing thread marks all finished jobs, the latest first |
| `JobThreads.NoNewJobs` | src/scheduler/Scheduler.cpp:136-348 | no step of any thread invents or alters a job |
| `JobThreads.JobsAreAsSubmitted` | src/common/Job.cpp:9-32 | in every run each job, wherever it is, has the bounds, priority and times it was submitted with, and ids follow the order of submission |
| `Safety.OneHolder` | src/scheduler/Scheduler.hpp:250-284 | in every reachable state a resource that is held is in exactly one place, so it has one holder and that one has it once; its id is one handed out so far |
| `Safety.ResourcesCounted` | src/scheduler/Scheduler.hpp:354-354 | in every reachable state all resources in pool, hand, queue and threads are different and the counter is their number |
| `Safety.OneStage` | src/scheduler/Scheduler.cpp:136-348 | in every reachable state an issued job is in exactly one stage; the dispatcher's test is always true; the removal at completion finds nothing |
| `Safety.MarkedIsOver` | src/scheduler/Scheduler.cpp:204-208 | a job is marked finished only after its response is set and its resources are returned |
| `Safety.ShrinkNeverBlocks` | src/scheduler/Scheduler.hpp:266-272 | the pop in a shrinking round never waits |
| `Safety.DoomStep` | src/scheduler/Scheduler.cpp:238-241 | a step spoils a round exactly when it pops a resource the plan names; nothing mends it |
| `Safety.FailsExactlyWhenNamedIsPopped` | src/scheduler/Scheduler.cpp:222-253 | a run fails, or cannot avoid failing, exactly when a resource named by the current plan was popped |
| `Progress.StepSmaller` | src/scheduler/Scheduler.cpp:222-299 | with m = 1 every step but issuing makes a lexicographic measure led by 5 arriving + 4 ready + 3 queued + 2 running + finished smaller |
| `Progress.NoEndlessRun` | src/scheduler/Scheduler.cpp:222-299 | with m = 1 no run goes on forever without new jobs |
| `Progress.AliveStep` | src/scheduler/Scheduler.hpp:266-272 | the last resource is never given up by a round that can still succeed |
| `Progress.NextStep` | src/scheduler/Scheduler.cpp:222-299 | with unfinished jobs and a resource left, some thread can take a step |
| `Progress.WinnerExists` | src/scheduler/algs.cpp:257-267 | among any trials there is a winner |
| `Progress.MaximalRunFinishesAll` | src/scheduler/Scheduler.cpp:222-348 | a run that cannot go on has failed a claim exactly if a named resource was popped; otherwise every issued job is answered and released |
| `PlanService.MidwayStep` | src/scheduler/Allocations.cpp:5-13 | between choice and end of service, any step of any thread keeps the ready queue equal to the jobs pushed since, latest first, before what was there, less the jobs served |
| `PlanService.PoolStep` | src/scheduler/Scheduler.cpp:31-49 | meanwhile the pool changes by what flows in and what is claimed, and by nothing else |
| `PlanService.MidwayRun` | src/scheduler/Scheduler.cpp:238-247 | so does any run, with the arrivals of that run; pool and claims together change by what flowed in |
| `PlanService.RemoveAllLeavesNone` | src/scheduler/Scheduler.cpp:358-370 | removing the jobs of a plan leaves none of them behind |
| `PlanService.ArrivalsAreOthers` | src/scheduler/Scheduler.cpp:301-316 | a job that has left the handlers never arrives again |
| `PlanService.PlanIsServedExactly` | src/scheduler/Scheduler.cpp:238-247 | under any interleaving the ready queue ends as the arrivals of the run before the old queue less the plan: every job of the plan was there and is gone, every other job stays; and the pool loses exactly the resources of the plan |
| `FailingRound.FirstJobCanFail` | src/scheduler/Scheduler.cpp:240-241 | for every first job with more than a second of slack a fresh scheduler has a run that ends in a failed claim |
| `Shrinking.PlanUses` | src/scheduler/algs.cpp:11-207 | how many resources a trial takes depends only on the sizes of window and pool |
| `Shrinking.UsedIsShared` | src/scheduler/algs.cpp:11-207 | all policies but FCFS AMAP hand out a fixed share for each job served |
| `Shrinking.UsedByAmap` | src/scheduler/algs.cpp:43-67 | FCFS AMAP hands out whole maxima, and the rest if a further job can use it |
| `Shrinking.BackComesFrom` | src/scheduler/algs.cpp:218-222 | the resource at the back of the pool after all trials, traced to its place after any one trial |
| `Shrinking.SpoilsIff` | src/scheduler/algs.cpp:218-222 | whether that place is among those a policy took, as a closed condition on window, pool, m and M |
| `Shrinking.BackIsNamed` | src/scheduler/Scheduler.hpp:266-272 | the resource that would be popped belongs to the plan of the winner if and only if that condition holds; for the last three policies it always does |
| `Shrinking.ShrinkingRound` | src/scheduler/Scheduler.cpp:237-247 | an undisturbed round fails if and only if the pool is to shrink and the condition holds for its winner; with one of the last three policies, if and only if the pool is to shrink |
| `Shrinking.LoneRound` | src/scheduler/Scheduler.cpp:222-253 | an undisturbed round with one waiting job serves it on min(max, pool) resources and fails exactly when its target exceeds its time on those by more than a second |
| `Refinement.TrialsRun` | src/scheduler/algs.cpp:217-222 | the five trials of the class are steps of the machine, one resource put back at a time |
| `Refinement.ServeRun` | src/scheduler/Allocations.cpp:5-13 | serving a plan is a run of single claims to the state the specification gives, or to a failed claim |
| `Refinement.RoundRun` | src/scheduler/Scheduler.cpp:222-253 | every undisturbed round of the class, whatever its trials, is a run of the scheduling thread to the same state, or to a failed claim |
| `Refinement.RoundIsARun` | src/scheduler/Scheduler.cpp:222-253 | a scheduler object goes through a round, and the machine has a run from its old fields to its new ones, or to a failed claim if the round fails |
| `Refinement.FreshIsStart` | src/scheduler/Scheduler.hpp:74-113 | a fresh scheduler is in the state the machine starts in |
| `Regression.DotUpdate` | src/executor/PerfModel.cpp:83-87 | the hypothesis counts each weight as much as its feature says |
| `Regression.ErrorIsAffine` | src/executor/PerfModel.cpp:82-88 | the error on a row is affine in each weight with the feature as slope, and without weights it is the time of that row |
| `Regression.NoErrorIff` | src/executor/PerfModel.cpp:80-89 | the squared error is zero exactly when every measurement is met |
| `Regression.DerivativeIs` | src/executor/PerfModel.cpp:80-89 | what the inner loops add up is half the derivative: the squared error as a polynomial in the change of one weight |
| `Regression.ExactFitStays` | src/executor/PerfModel.cpp:72-96 | weights that meet every measurement stay as they are |
| `Regression.CauchySchwarz` | src/executor/PerfModel.cpp:84-88 | the hypothesis moves by no more than the lengths of step and row allow |
| `Regression.ErrorExpands` | src/executor/PerfModel.cpp:78-95 | the squared error after a step, as a quadratic in the step size |
| `Regression.Exchange` | src/executor/PerfModel.cpp:80-89 | the inner loops, summed by rows or by features, give the same slope |
| `Regression.ResponseBound` | src/executor/PerfModel.cpp:84-88 | the quadratic term is at most the sum of the squared features times the squared gradient |
| `Regression.GradientMoves` | src/executor/PerfModel.cpp:78-95 | a step moves the weights against the gradient, and the linear term of the error is the squared gradient |
| `Regression.StepDescends` | src/executor/PerfModel.cpp:72-96 | if alpha is not negative and alpha times the sum of the squared features is at most two, an iteration never increases the squared error |
| `Regression.StepDescendsExactly` | src/executor/PerfModel.cpp:72-96 | at any point and for any positive alpha, an iteration does not increase the squared error if and only if alpha times the squared response to the gradient is at most twice the squared gradient |
| `Regression.DescentIsMonotone` | src/executor/PerfModel.cpp:72-96 | under that condition the error never rises from an iteration to any later one |
| `Regression.SharpForOneFeature` | src/executor/PerfModel.cpp:72-96 | with one feature and any number of measurements an iteration does not increase the error if and only if the condition holds, unless the derivative is zero |
| `Regression.SharpForOneMeasurement` | src/executor/PerfModel.cpp:72-96 | so it is with one measurement and any number of features, unless it is met already |
| `PerfModels.HypothesisIsPolynomial` | src/executor/PerfModel.cpp:84-118 | the hypothesis on a row of powers is the polynomial with the weights as coefficients |
| `PerfModels.PowAdds` | src/executor/PerfModel.cpp:39-39 | exponents add up |
| `PerfModels.RowCountBounds` | src/executor/PerfModel.cpp:35-53 | there are between 100 and 199 rows, as many as there are steps below the size |
| `PerfModels.MeasuredTimes` | src/executor/PerfModel.cpp:42-47 | three times the time of a row is the sum of the last three of its four runs |
| `PerfModels.WarmUpDoesNotCount` | src/executor/PerfModel.cpp:42-42 | whatever happens in the run that warms up the cache, the measurements are the same |
| `PerfModels.PerfModel.GenerateTestData` | src/executor/PerfModel.cpp:25-55 | the loop ends and appends ceil(maxsize / floor(maxsize / 100)) rows of powers, each with the mean of three timings, to whatever rows there were; only the row of ones for size zero |
| `PerfModels.PerfModel.CostDerivative` | src/executor/PerfModel.cpp:80-89 | the two inner loops compute the derivative with respect to one weight |
| `PerfModels.PerfModel.NewWeights` | src/executor/PerfModel.cpp:78-92 | all weights move at once, from the old ones |
| `PerfModels.PerfModel.LinearRegression` | src/executor/PerfModel.cpp:64-99 | the weights are those of gradient descent from zero |
| `PerfModels.PerfModel.QueryModel` | src/executor/PerfModel.cpp:100-118 | a query is the fitted polynomial at the input |
| `PerfModels.PerfModel.CreateModel` | src/executor/PerfModel.cpp:56-62 | on the first row and on the row of every multiple of the step the hypothesis is what a query at that size answers, and with a small enough step the fit is no worse than zero weights |
| `PerfModels.FitIsNoWorse` | src/executor/PerfModel.cpp:64-99 | the fit is never worse than all-zero weights |
| `Messages.LittleEndianDigits` | src/common/message.cpp:62-62 | the bytes of a number are its digits to the base 256, the lowest first |
| `Messages.LittleEndianRoundTrip` | src/common/message.cpp:62-62 | a number that fits survives being written and read byte by byte |
| `Messages.IntRoundTrip` | src/common/message.cpp:61-61 | every 32-bit integer survives being written and read; a negative one is written as its two's complement |
| `Messages.EncodedAt` | src/common/message.cpp:61-61 | the i-th integer is in bytes 4i to 4i + 3 |
| `Messages.DecodedAt` | src/dispatcher/DispatcherServer.cpp:105-105 | and is read from there |
| `Messages.IntsRoundTrip` | src/dispatcher/DispatcherServer.cpp:105-105 | the integers packed in front of a buffer are those unpacked from it |
| `Messages.Memcpy` | src/common/message.cpp:61-62 | copying replaces exactly the target range of a buffer |
| `Messages.MsgMovingAvg` | src/common/message.cpp:51-64 | the request holds the data and then the width, with all sizes right |
| `Messages.WidthArrives` | src/common/message.cpp:27-27 | the width is read back if and only if it is at most 127; otherwise its lowest byte is read as a signed character |
| `MovingAverages.SumSlides` | src/dispatcher/DispatcherServer.cpp:13-16 | a window that slides by one place loses its first element and gains the next |
| `MovingAverages.DivAssignIs` | src/dispatcher/DispatcherServer.cpp:17-17 | a negative sum is divided as itself plus 2 to the 64, and the low 32 bits are kept |
| `MovingAverages.DivAssignFloors` | src/dispatcher/DispatcherServer.cpp:17-17 | the unsigned division is the floor for sums that are not negative |
| `MovingAverages.DivAssignRightIff` | src/dispatcher/DispatcherServer.cpp:17-17 | the division is the floor for all sums, negative ones included, if and only if the size divides 2 to the 32 |
| `MovingAverages.RotateLast` | src/dispatcher/DispatcherServer.cpp:26-26 | the last element comes first and all others move up by one |
| `MovingAverages.MovingAverageCpu` | src/dispatcher/DispatcherServer.cpp:10-27 | every place of the result: averages shifted by one, zeros behind them, and the first place |
| `MovingAverages.HandleRequest` | src/dispatcher/DispatcherServer.cpp:81-134 | the reply unpacks to the averages of the data in the request |
| `MovingAverages.MovingAverage` | src/dispatcher/DispatcherServer.cpp:81-134 | from packing to unpacking: what the request holds, that the result is what the reply unpacks to, that place i is the floor average of the window that starts at i - 1, what the first place and the places behind the windows hold, and that the reply has the length the request announces |
| `ResourceMask.PackOneSets` | src/scheduler/Scheduler.cpp:148-162 | one id sets its own bit and no other |
| `ResourceMask.PackRids` | src/scheduler/Scheduler.cpp:143-163 | bit i is set exactly when id i + 1 is on the list, and the mask is the sum of the powers of two of those ids |
| `ResourceMask.NDfes` | src/common/message.hpp:40-47 | the number of bits set among the four |
| `ResourceMask.BitsAreListed` | src/common/message.hpp:40-47 | the bits of a packed mask number the listed ids from one to four |
| `ResourceMask.ListedInFull` | src/scheduler/Scheduler.cpp:143-163 | distinct ids are counted in full exactly when none is above four |
| `ResourceMask.DevicesFor` | src/dispatcher/DispatcherServer.cpp:92-103 | a job uses as many devices as it was given exactly when all its ids are at most four |

## Left out

- Sockets, connections, the client and server classes and the message pump: input and output.
- Calls to dataflow engines, option pricing and the layout of its message: foreign code and easy members.
- The executor, the choice among implementations, saving and loading models, logging, dynamic libraries and the
  generated message formats: plumbing.
- Statistics, throughput, utilisation and all readings of the clock.
- Wake-up of the handlers: the finishing thread notifies without the handler's mutex, so only the safety of the
  reply is claimed. Taking a job from the finished queue and marking it are one step.
- Data races inside the deques and failed allocations of memory. Every operation on a queue is one step, a
  search followed by an erase included, and so is one policy's trial; waiting on a queue is a step that is not
  enabled, and so is the spinning of the scheduling loop on an empty pool.
- The "Fairness" strategy: the constructor fixes the other one.
- Zero or negative predicted times, for which scores become zero or undefined: jobs have positive ones.
- Rounding of floating-point numbers and overflow of scores: all times, scores and weights are exact.
- Port and host of a resource; the state holds ids, by which resources are compared.
- Jobs with different bounds in one queue, where a result says so: the code builds all jobs with minimum 1 and
  maximum 4, and the model admits any common 1 <= m <= M.
- Scheduling.Scheduler.ServiceAllocations: says nothing of the state after a failed claim, which the code leaves undefined.
- Scheduling.Scheduler.Fcfs: the three functions of the source are one method with the policy as a parameter.
- Scheduling.Scheduler.BySelection: so are SJTF and Priority; how the window is sorted is left open but for the order.
- Progress.StepSmaller: for m = 1, as the code has it; with m > 1 a pool that is too small makes the loop spin.
- PerfModels.PerfModel.GenerateTestData: not for a maxsize from 1 to 99, where the step is zero and the loop does not end.
- PerfModels.PerfModel.LinearRegression: for no iterations or at least ten; from 1 to 9 the code divides by zero.
- Regression.SharpForOneFeature: with several features and several measurements a longer step may still happen to descend; `Regression.StepDescendsExactly` says when.
- MovingAverages.MovingAverageCpu: for widths from one to the length of the data and sums within 32 bits; otherwise the code writes out of bounds or overflows.
- MovingAverages.MovingAverage: floor averages for data that is not negative or widths that are powers of two; for others see `MovingAverages.DivAssignRightIff`.
