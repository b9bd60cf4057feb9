/**
 * The threads of the scheduler as a state machine. Connection handlers issue jobs, the scheduling
 * thread plans and serves them, the dispatching thread starts a thread for each, job threads run
 * them and give their resources back, and the finishing thread marks them as finished.
 *
 * Every operation on a queue is one step, including a search followed by an erase; so is a trial of
 * one policy. Everything else may be interleaved in any way. Waiting is a step that is not enabled, and so
 * is a turn of the scheduling loop that finds the pool empty and starts over. A step the original leaves undefined
 * leads to the phase `Crashed`, in which nothing happens any more.
 */
module Threads {
  import opened Sequences
  import opened Jobs
  import opened Policies
  import opened Winner
  import opened Service
  import opened Elasticity

  /** The bounds all jobs are built with and the length of the window. */
  datatype Config = Config(m: nat, M: nat, window: nat) {
    ghost predicate Valid() {
      1 <= m <= M && window > 0
    }
  }

  /** A job thread: it waits for the response, then gives its resources back one by one. */
  datatype Task = Task(job: Job, held: seq<Rid>, answered: bool)

  /** Where the scheduling thread stands. */
  datatype Phase =
    | Idle
      // `back` is what the last trial took and has yet to put back
    | Trying(trials: seq<Trial>, back: seq<Rid>)
    | Chosen(plan: Plan)
      // `removed`: the first job of `todo` has left the ready queue and `taken` of its resources the
      // pool; `lost`: what the elasticity manager has popped in this round
    | Serving(todo: Plan, removed: bool, taken: nat, lost: seq<Rid>)
    | Crashed

  datatype State = State(
    arriving: seq<Job>,   // built, with an id, but not yet in the ready queue
    ready: seq<Job>,
    runQ: Plan,
    running: seq<Task>,
    finished: seq<Job>,
    done: seq<Job>,       // taken from the finished queue and marked
    leaving: seq<int>,    // job threads that have yet to tidy up the run queue
    started: set<int>,
    answered: set<int>,   // jobs whose response has been set
    marked: set<int>,     // jobs whose handler may go on
    pool: seq<Rid>,
    nextJid: int,
    nextRid: int,
    provisioned: int,
    phase: Phase)

  /** What happens in one step; parameters pick one of several possibilities. */
  datatype Event =
    | Issue(priority: int, predicted: real, target: real)
    | Push(i: nat)
    | Begin
    | Take(order: seq<Job>)
    | TakeNothing
    | PutBack
    | Choose(k: nat)
    | Adjust
    | Remove
    | ClaimOne
    | Enqueue
    | Dispatch
    | Respond(i: nat)
    | Release(i: nat)
    | Complete(i: nat)
    | TidyUp(i: nat)
    | Finish

  const START := State([], [], [], [], [], [], [], {}, {}, {}, [1], 1, 2, 1, Idle)

  function DropAt<T>(s: seq<T>, i: nat): seq<T>
    requires i < |s|
  {
    s[..i] + s[i + 1..]
  }

  ghost predicate Enabled(c: Config, s: State, e: Event) {
    && !s.phase.Crashed?
    && match e
       case Issue(_, predicted, _) => predicted > 0.0
       case Push(i) => i < |s.arriving| && !s.phase.Trying?
       case Begin => s.phase.Idle? && s.ready != [] && s.pool != []
       case Take(order) =>
         MayTry(s) && s.pool != [] && OrderFor(PolicyAt(|s.phase.trials|), Window(s.ready, c.window), order)
       case TakeNothing => MayTry(s) && s.pool == []
       case PutBack => s.phase.Trying? && s.phase.back != []
       case Choose(k) =>
         && s.phase.Trying? && s.phase.back == [] && |s.phase.trials| == 5
         && (forall t :: t in s.phase.trials ==> Positive(JobsOf(t.plan)))
         && IsWinner(|s.ready|, s.phase.trials, k)
       case Adjust => s.phase.Chosen? && (Shrinks(s) ==> s.pool != [])
       case Remove => s.phase.Serving? && s.phase.todo != [] && !s.phase.removed
       case ClaimOne =>
         s.phase.Serving? && s.phase.todo != [] && s.phase.removed && s.phase.taken < |s.phase.todo[0].res|
       case Enqueue =>
         s.phase.Serving? && s.phase.todo != [] && s.phase.removed && s.phase.taken == |s.phase.todo[0].res|
       case Dispatch => s.runQ != []
       case Respond(i) => i < |s.running| && !s.running[i].answered
       case Release(i) => i < |s.running| && s.running[i].answered && s.running[i].held != []
       case Complete(i) => i < |s.running| && s.running[i].answered && s.running[i].held == []
       case TidyUp(i) => i < |s.leaving|
       case Finish => s.finished != []
  }

  predicate MayTry(s: State) {
    s.phase.Trying? && s.phase.back == [] && |s.phase.trials| < 5
  }

  /** The elasticity manager is about to pop a resource. */
  ghost predicate Shrinks(s: State) {
    s.phase.Chosen? && Decide(s.phase.plan) == Deprovision && s.provisioned > 0
  }

  ghost function Apply(c: Config, s: State, e: Event): State
    requires Enabled(c, s, e)
  {
    match e
    case Issue(priority, predicted, target) =>
      s.(arriving := s.arriving + [Job(s.nextJid, c.m, c.M, priority, predicted, target)], nextJid := s.nextJid + 1)
    case Push(i) =>
      s.(arriving := DropAt(s.arriving, i), ready := [s.arriving[i]] + s.ready)
    case Begin =>
      s.(phase := Trying([], []))
    case Take(order) =>
      var plan := PlanFor(PolicyAt(|s.phase.trials|), order, s.pool);
      PlanResources(PolicyAt(|s.phase.trials|), order, s.pool);
      s.(pool := Remaining(plan, s.pool),
         phase := Trying(s.phase.trials + [Trial(order, s.pool, plan)], Resources(plan)))
    case TakeNothing =>
      s.(phase := Crashed)
    case PutBack =>
      s.(pool := s.pool + [s.phase.back[0]], phase := s.phase.(back := s.phase.back[1..]))
    case Choose(k) =>
      var plan := s.phase.trials[k].plan;
      s.(phase := if NoJobs(plan) == 0 then Idle else Chosen(plan))
    case Adjust =>
      if Decide(s.phase.plan) == Provision then
        s.(pool := s.pool + [s.nextRid], nextRid := s.nextRid + 1, provisioned := s.provisioned + 1,
           phase := Serving(s.phase.plan, false, 0, []))
      else if Shrinks(s) then
        s.(pool := s.pool[..|s.pool| - 1], provisioned := s.provisioned - 1,
           phase := Serving(s.phase.plan, false, 0, [s.pool[|s.pool| - 1]]))
      else
        s.(phase := Serving(s.phase.plan, false, 0, []))
    case Remove =>
      s.(ready := RemoveJob(s.ready, s.phase.todo[0].job.id), phase := s.phase.(removed := true))
    case ClaimOne =>
      var r := s.phase.todo[0].res[s.phase.taken];
      if r in s.pool then s.(pool := Erase(s.pool, r), phase := s.phase.(taken := s.phase.taken + 1))
      else s.(phase := Crashed)
    case Enqueue =>
      s.(runQ := [s.phase.todo[0]] + s.runQ,
         phase := if |s.phase.todo| == 1 then Idle else Serving(s.phase.todo[1..], false, 0, s.phase.lost))
    case Dispatch =>
      var p := s.runQ[0];
      var s' := s.(runQ := s.runQ[1..]);
      if p.job.id in s.started then s'
      else if p.res == [] then s'.(phase := Crashed)
      else s'.(started := s.started + {p.job.id}, running := s.running + [Task(p.job, p.res, false)])
    case Respond(i) =>
      s.(answered := s.answered + {s.running[i].job.id}, running := s.running[i := s.running[i].(answered := true)])
    case Release(i) =>
      s.(pool := s.pool + [s.running[i].held[0]],
         running := s.running[i := s.running[i].(held := s.running[i].held[1..])])
    case Complete(i) =>
      s.(running := DropAt(s.running, i), finished := [s.running[i].job] + s.finished,
         leaving := s.leaving + [s.running[i].job.id])
    case TidyUp(i) =>
      s.(runQ := RemoveEntry(s.runQ, s.leaving[i]), leaving := DropAt(s.leaving, i))
    case Finish =>
      s.(finished := s.finished[1..], done := s.done + [s.finished[0]], marked := s.marked + {s.finished[0].id})
  }

  /** A step of the scheduling thread. */
  predicate IsScheduling(e: Event) {
    || e.Begin? || e.Take? || e.TakeNothing? || e.PutBack? || e.Choose?
    || e.Adjust? || e.Remove? || e.ClaimOne? || e.Enqueue?
  }

  /** Whether the events can happen one after another. */
  ghost predicate CanRun(c: Config, s: State, es: seq<Event>)
    decreases es
  {
    es == [] || (Enabled(c, s, es[0]) && CanRun(c, Apply(c, s, es[0]), es[1..]))
  }

  /** The state after the events. */
  ghost function After(c: Config, s: State, es: seq<Event>): State
    requires CanRun(c, s, es)
    decreases es
  {
    if es == [] then s else After(c, Apply(c, s, es[0]), es[1..])
  }

  ghost predicate Reachable(c: Config, s: State) {
    exists es :: CanRun(c, START, es) && After(c, START, es) == s
  }

  /** A step followed by a run. */
  lemma RunCons(c: Config, s: State, e: Event, s': State, es: seq<Event>)
    requires Enabled(c, s, e) && Apply(c, s, e) == s' && CanRun(c, s', es)
    ensures CanRun(c, s, [e] + es) && After(c, s, [e] + es) == After(c, s', es)
  {
    assert ([e] + es)[0] == e && ([e] + es)[1..] == es;
  }

  /** Runs in a row. */
  lemma {:induction false} RunConcat(c: Config, s: State, a: seq<Event>, b: seq<Event>)
    requires CanRun(c, s, a) && CanRun(c, After(c, s, a), b)
    ensures CanRun(c, s, a + b) && After(c, s, a + b) == After(c, After(c, s, a), b)
    decreases a
  {
    if a == [] {
      assert a + b == b;
    } else {
      assert (a + b)[0] == a[0] && (a + b)[1..] == a[1..] + b;
      RunConcat(c, Apply(c, s, a[0]), a[1..], b);
    }
  }

  /** The events lead from one state to the other. */
  ghost predicate Leads(c: Config, s: State, es: seq<Event>, s': State) {
    CanRun(c, s, es) && After(c, s, es) == s'
  }

  lemma LeadsNowhere(c: Config, s: State)
    ensures Leads(c, s, [], s)
  {
  }

  lemma LeadsFirst(c: Config, s: State, e: Event, s': State, es: seq<Event>, s'': State)
    requires Enabled(c, s, e) && Apply(c, s, e) == s' && Leads(c, s', es, s'')
    ensures Leads(c, s, [e] + es, s'')
  {
    RunCons(c, s, e, s', es);
  }

  lemma LeadsOn(c: Config, s: State, a: seq<Event>, s': State, b: seq<Event>, s'': State)
    requires Leads(c, s, a, s') && Leads(c, s', b, s'')
    ensures Leads(c, s, a + b, s'')
  {
    RunConcat(c, s, a, b);
  }

  lemma LeadsMeans(c: Config, s: State, es: seq<Event>, s': State)
    requires Leads(c, s, es, s')
    ensures CanRun(c, s, es) && After(c, s, es) == s'
  {
  }
}
