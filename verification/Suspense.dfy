/**
How `<Suspense/>` waits for its tasks on the server (suspense_component.rs:374-523): an effect that
watches the set of tasks and sends once when nothing is left to load, and a future that races what it
sends against local resources.

Each step is atomic, and tasks come and go between any two of them. A run of the effect first drops
the subscriptions of the one before, and is given what that returned.
*/
module Suspense {
  import opened Basics

  type Task = nat

  /** Where a run of the effect has come to. */
  datatype Effect =
    | Idle
    | Reading            // about to look at the tasks
    | Walking            // they were empty: about to walk over the children again
    | Tracking           // about to subscribe to the tasks
    | Rereading          // about to look at the tasks again
    | Sending(ret: bool) // about to tell the future
    | Notifying(ret: bool) // about to tell the error boundary
    | Disposed

  datatype Future = Racing | Resolving | Fallback | Resolved

  datatype Sender = Kept | Sent | Absent

  datatype State = State(
    tasks: set<Task>,
    alive: bool,             // the signal that holds the tasks is not disposed
    effect: Effect,
    last: Option<bool>,      // what the last run returned
    subscribed: bool,
    notified: bool,          // the effect is to run again
    children: bool,          // not yet taken by the future
    walks: nat,              // how often the effect walked over the children
    tasksSender: Sender,
    boundarySender: Sender,  // absent outside an error boundary
    local: bool,             // a local resource was read
    future: Future)

  /** The effect is called for when it is made. */
  function Start(tasks: set<Task>, boundary: bool): State {
    State(tasks, true, Idle, None, false, true, true, 0, Kept, if boundary then Kept else Absent, false, Racing)
  }

  // ---- A run of the effect

  function Begin(s: State): State {
    s.(effect := Reading, notified := false, subscribed := s.last.None? && s.alive)
  }

  function Return(s: State, ret: bool): State {
    s.(effect := Idle, last := Some(ret))
  }

  function Read(s: State): State {
    if !s.alive then Return(s, false)
    else if s.tasks != {} then Return(s.(subscribed := true), false)
    else if s.last == Some(true) then s.(effect := Sending(false))
    else s.(effect := Walking)
  }

  /** Any tasks the children add are steps of their own. */
  function Walk(s: State): State {
    s.(effect := Tracking, walks := if s.children then s.walks + 1 else s.walks)
  }

  function Track(s: State): State {
    s.(effect := Rereading, subscribed := s.subscribed || s.alive)
  }

  function Reread(s: State): State {
    if s.alive && s.tasks == {} then s.(effect := Sending(true)) else Return(s, true)
  }

  function Take(sender: Sender): Sender {
    if sender.Kept? then Sent else sender
  }

  function Send(s: State): State
    requires s.effect.Sending?
  {
    s.(effect := Notifying(s.effect.ret), tasksSender := Take(s.tasksSender))
  }

  function Notify(s: State): State
    requires s.effect.Notifying?
  {
    Return(s.(boundarySender := Take(s.boundarySender)), s.effect.ret)
  }

  /** The next step of a run. */
  function Forward(s: State): State {
    match s.effect
    case Idle => Begin(s)
    case Reading => Read(s)
    case Walking => Walk(s)
    case Tracking => Track(s)
    case Rereading => Reread(s)
    case Sending(_) => Send(s)
    case Notifying(_) => Notify(s)
    case Disposed => s
  }

  predicate EffectStep(s: State, t: State) {
    !s.effect.Disposed? && (s.effect.Idle? ==> s.notified) && t == Forward(s)
  }

  // ---- Tasks come and go

  function SetTasks(s: State, tasks: set<Task>): State {
    s.(tasks := tasks, notified := s.notified || s.subscribed)
  }

  ghost predicate TaskStep(s: State, t: State) {
    || (s.alive && exists task: Task :: t == SetTasks(s, s.tasks + {task}) || t == SetTasks(s, s.tasks - {task}))
    || t == s.(alive := false)
    || t == s.(local := true)
    || t == s.(notified := true)  // the effect may be called for by something else it reads
  }

  /** A task can be added or finished at any time, and a subscribed effect is called for. */
  lemma TasksComeAndGo(s: State, task: Task, added: bool)
    requires s.alive
    ensures var tasks := if added then s.tasks + {task} else s.tasks - {task};
      exists t :: TaskStep(s, t) && t.tasks == tasks && t.notified == (s.notified || s.subscribed) && t.effect == s.effect
  {
    var t := SetTasks(s, if added then s.tasks + {task} else s.tasks - {task});
    assert TaskStep(s, t);
  }

  // ---- The future

  /** A local resource wins: the fallback is rendered, and the error boundary told. */
  function LocalWins(s: State): State {
    s.(future := Fallback, boundarySender := Take(s.boundarySender))
  }

  function TasksWin(s: State): State {
    if s.children then s.(future := Resolving, children := false) else LocalWins(s)
  }

  function ChildrenResolve(s: State): State {
    s.(future := Resolved, effect := if s.effect.Idle? then Disposed else s.effect)
  }

  predicate FutureStep(s: State, t: State) {
    match s.future
    case Racing => (s.local && t == LocalWins(s)) || (s.tasksSender.Sent? && t == TasksWin(s))
    case Resolving => (s.local && t == LocalWins(s)) || t == ChildrenResolve(s)
    case Fallback => false
    case Resolved => false
  }

  ghost predicate Step(s: State, t: State) {
    EffectStep(s, t) || TaskStep(s, t) || FutureStep(s, t)
  }

  ghost predicate Run(run: seq<State>) {
    run != [] && forall i :: 0 <= i < |run| - 1 ==> Step(run[i], run[i + 1])
  }

  ghost predicate Reachable(s: State) {
    exists run, tasks, boundary :: Run(run) && run[0] == Start(tasks, boundary) && run[|run| - 1] == s
  }

  // ---- The invariant

  /** The run has found, or will look again for, what it is to wait for. */
  predicate Watching(s: State) {
    s.subscribed && (s.tasks != {} || s.notified)
  }

  predicate Inv(s: State) {
    // A sender that did not fire is waited for by someone who will be called.
    && (s.effect.Idle? && s.tasksSender.Kept? && s.alive ==> s.notified || Watching(s))
    && (s.effect.Rereading? && s.alive ==> s.subscribed)
    && (s.last.None? && !s.effect.Idle? && !s.effect.Disposed? && s.alive ==> s.subscribed)
    // Sending comes after a walk.
    && (s.tasksSender.Kept? ==> s.children)
    && (s.last == Some(true) || s.effect.Tracking? || s.effect.Rereading? ==> s.walks > 0 || !s.children)
    && (s.effect.Sending? || s.effect.Notifying? || s.tasksSender.Sent? ==> s.walks > 0)
    && (s.effect.Notifying? ==> s.tasksSender.Sent?)
    && !s.tasksSender.Absent?
    && (!s.children ==> s.walks > 0 && s.tasksSender.Sent?)
    // The error boundary is told.
    && (s.tasksSender.Sent? ==> s.effect.Notifying? || !s.boundarySender.Kept?)
    && (s.future.Fallback? ==> !s.boundarySender.Kept?)
    && (s.future.Racing? ==> s.children)
    && (s.effect.Disposed? ==> s.future.Resolved? && s.tasksSender.Sent?)
    && (s.future.Resolved? || s.future.Resolving? ==> s.tasksSender.Sent? && !s.children)
    // Only a local resource makes it give up.
    && (s.future.Fallback? ==> s.local)
  }

  lemma BeginKeeps(s: State)
    requires Inv(s) && s.effect.Idle?
    ensures Inv(Begin(s))
  {
  }

  lemma ReadKeeps(s: State)
    requires Inv(s) && s.effect.Reading?
    ensures Inv(Read(s))
  {
  }

  lemma WalkKeeps(s: State)
    requires Inv(s) && s.effect.Walking?
    ensures Inv(Walk(s))
  {
  }

  lemma TrackKeeps(s: State)
    requires Inv(s) && s.effect.Tracking?
    ensures Inv(Track(s))
  {
  }

  lemma RereadKeeps(s: State)
    requires Inv(s) && s.effect.Rereading?
    ensures Inv(Reread(s))
  {
  }

  lemma SendKeeps(s: State)
    requires Inv(s) && s.effect.Sending?
    ensures Inv(Send(s))
  {
  }

  lemma NotifyKeeps(s: State)
    requires Inv(s) && s.effect.Notifying?
    ensures Inv(Notify(s))
  {
  }

  lemma EffectKeeps(s: State, t: State)
    requires Inv(s) && EffectStep(s, t)
    ensures Inv(t)
  {
    hide Inv, Begin, Read, Walk, Track, Reread, Send, Notify;
    match s.effect
    case Idle => BeginKeeps(s);
    case Reading => ReadKeeps(s);
    case Walking => WalkKeeps(s);
    case Tracking => TrackKeeps(s);
    case Rereading => RereadKeeps(s);
    case Sending(_) => SendKeeps(s);
    case Notifying(_) => NotifyKeeps(s);
  }

  lemma TaskKeeps(s: State, t: State)
    requires Inv(s) && TaskStep(s, t)
    ensures Inv(t)
  {
  }

  lemma FutureKeeps(s: State, t: State)
    requires Inv(s) && FutureStep(s, t)
    ensures Inv(t)
  {
  }

  lemma {:induction false} RunKeeps(run: seq<State>, i: nat)
    requires Run(run) && i < |run| && Inv(run[0])
    ensures Inv(run[i])
  {
    hide Inv, EffectStep, TaskStep, FutureStep;
    if i > 0 {
      RunKeeps(run, i - 1);
      var s, t := run[i - 1], run[i];
      assert Step(run[i - 1], run[i - 1 + 1]);
      if EffectStep(s, t) {
        EffectKeeps(s, t);
      } else if TaskStep(s, t) {
        TaskKeeps(s, t);
      } else {
        FutureKeeps(s, t);
      }
    }
  }

  lemma ReachableKeeps(s: State)
    requires Reachable(s)
    ensures Inv(s)
  {
    var run, tasks, boundary :| Run(run) && run[0] == Start(tasks, boundary) && run[|run| - 1] == s;
    RunKeeps(run, |run| - 1);
  }

  // ---- Completion

  /** When nothing is going to happen, and the sender has not fired, there are tasks to wait for and the effect hears of them. */
  lemma NeverSticks(s: State)
    requires Reachable(s) && s.effect.Idle? && !s.notified && s.alive && s.tasksSender.Kept?
    ensures s.subscribed && s.tasks != {}
  {
    ReachableKeeps(s);
  }

  /** A run that finds no task, and whose walk adds none, sends. */
  lemma EmptyRunSends(s: State)
    requires Reachable(s) && s.effect.Reading? && s.alive && s.tasks == {}
    ensures var done := if s.last == Some(true) then Forward(Forward(Forward(s)))
                        else Forward(Forward(Forward(Forward(Forward(Forward(s))))));
      && done.effect.Idle? && done.tasksSender.Sent? && !done.boundarySender.Kept?
      && done.last == Some(s.last != Some(true))
  {
    ReachableKeeps(s);
    hide Reachable;
    var one := Forward(s);
    if s.last == Some(true) {
      assert one.effect == Sending(false);
      SendingDone(one);
    } else {
      var four := Forward(Forward(Forward(one)));
      assert four.effect == Sending(true);
      SendingDone(four);
    }
  }

  lemma SendingDone(s: State)
    requires s.effect.Sending? && !s.tasksSender.Absent?
    ensures var done := Forward(Forward(s));
      done.effect.Idle? && done.tasksSender.Sent? && !done.boundarySender.Kept? && done.last == Some(s.effect.ret)
  {
  }

  /** A run whose walk finds new tasks says so, and the run that next finds none sends without a walk of its own. */
  lemma DoubleChecks(s: State)
    ensures s.effect.Rereading? && s.alive && s.tasks != {} ==>
      Forward(s).effect.Idle? && Forward(s).last == Some(true) && Forward(s).tasksSender == s.tasksSender
    ensures s.effect.Reading? && s.alive && s.tasks == {} && s.last == Some(true) ==> Forward(s).effect.Sending? && Forward(s).walks == s.walks
    ensures s.effect.Reading? && s.alive && s.tasks == {} && s.last != Some(true) ==> Forward(s).effect.Walking?
    ensures s.effect.Reading? && s.alive && s.tasks != {} ==>
      Forward(s).effect.Idle? && Forward(s).subscribed && Forward(s).last == Some(false) && Forward(s).tasksSender == s.tasksSender
  {
  }

  /** Whatever sends does so after a walk of its own or of the run before, having found no task since. */
  lemma SendsOnlyWhenEmpty(s: State, t: State)
    requires Reachable(s) && Step(s, t) && t.effect.Sending? && !s.effect.Sending?
    ensures s.tasks == {} && s.alive && s.walks > 0
  {
    ReachableKeeps(s);
    hide Reachable;
    OnlyRunsSend(s, t);
  }

  lemma OnlyRunsSend(s: State, t: State)
    requires Step(s, t) && t.effect.Sending? && !s.effect.Sending?
    ensures t == Forward(s) && (s.effect.Reading? || s.effect.Rereading?)
  {
    if !EffectStep(s, t) {
      OthersKeepEffect(s, t);
    }
  }

  /** Tasks and resources come and go without touching anything else. */
  lemma TaskStepTouches(s: State, t: State)
    requires TaskStep(s, t)
    ensures t == s.(tasks := t.tasks, alive := t.alive, local := t.local, notified := t.notified)
  {
  }

  lemma OthersKeepEffect(s: State, t: State)
    requires TaskStep(s, t) || FutureStep(s, t)
    ensures t.effect == s.effect || t.effect.Disposed?
    ensures t.tasksSender == s.tasksSender
    ensures t.boundarySender == s.boundarySender || t.boundarySender == Take(s.boundarySender)
  {
    hide TaskStep;
    if TaskStep(s, t) {
      TaskStepTouches(s, t);
    }
  }

  /** Each sender fires at most once: what was sent stays sent. */
  lemma {:induction false} SentOnce(run: seq<State>, i: nat, j: nat)
    requires Run(run) && i <= j < |run|
    ensures run[i].tasksSender.Sent? ==> run[j].tasksSender.Sent?
    ensures run[i].boundarySender.Sent? ==> run[j].boundarySender.Sent?
    ensures run[i].boundarySender.Absent? ==> run[j].boundarySender.Absent?
  {
    hide Step;
    if i < j {
      SentOnce(run, i, j - 1);
      assert Step(run[j - 1], run[j - 1 + 1]);
      StepSends(run[j - 1], run[j]);
    }
  }

  lemma StepSends(s: State, t: State)
    requires Step(s, t)
    ensures t.tasksSender == s.tasksSender || t.tasksSender == Take(s.tasksSender)
    ensures t.boundarySender == s.boundarySender || t.boundarySender == Take(s.boundarySender)
  {
    hide TaskStep, FutureStep, Take;
    if !EffectStep(s, t) {
      OthersKeepEffect(s, t);
    }
  }

  /** The future takes the children once, and never finds them gone. */
  lemma ChildrenThere(s: State)
    requires Reachable(s) && s.future.Racing? && s.tasksSender.Sent?
    ensures s.children && TasksWin(s).future.Resolving?
  {
    ReachableKeeps(s);
  }

  /** The fallback is rendered only if a local resource was read. */
  lemma FallbackOnlyIfLocal(s: State)
    requires Reachable(s) && s.future.Fallback?
    ensures s.local
  {
    ReachableKeeps(s);
  }

  /** Once the tasks are done, without a local resource, the future takes the children, whatever comes first. */
  lemma TasksLead(s: State, t: State)
    requires Reachable(s) && s.future.Racing? && !s.local && FutureStep(s, t)
    ensures s.tasksSender.Sent? && t.future.Resolving? && !t.children && t.boundarySender == s.boundarySender
  {
    ReachableKeeps(s);
  }

  /** And then renders them: the only step it can take resolves, and ends the effect. */
  lemma ResolvingResolves(s: State, t: State)
    requires Reachable(s) && s.future.Resolving? && !s.local
    ensures FutureStep(s, t) ==> t.future.Resolved? && (s.effect.Idle? ==> t.effect.Disposed?)
    ensures FutureStep(s, t) ==> t.tasks == s.tasks && t.boundarySender == s.boundarySender && t.tasksSender == s.tasksSender
    ensures exists u :: FutureStep(s, u) && u.future.Resolved?
  {
    var u := ChildrenResolve(s);
    assert FutureStep(s, u);
  }

  /** With one, it renders the fallback and tells the error boundary, if it does not resolve first. */
  lemma LocalEnds(s: State, t: State)
    requires Reachable(s) && s.local && FutureStep(s, t)
    ensures t.future.Fallback? ==> !t.boundarySender.Kept? && t.tasksSender == s.tasksSender && t.effect == s.effect
    ensures t.future.Fallback? || (s.future.Racing? && t.future.Resolving?) || (s.future.Resolving? && t.future.Resolved?)
    ensures exists u :: FutureStep(s, u) && u.future.Fallback?
  {
    ReachableKeeps(s);
    var u := LocalWins(s);
    assert FutureStep(s, u);
  }

  /** What the future came to is final. */
  lemma {:induction false} EndIsFinal(run: seq<State>, i: nat, j: nat)
    requires Run(run) && i <= j < |run| && (run[i].future.Fallback? || run[i].future.Resolved?)
    ensures run[j].future == run[i].future
    ensures run[i].effect.Disposed? ==> run[j].effect.Disposed?
  {
    hide Step;
    if i < j {
      EndIsFinal(run, i, j - 1);
      assert Step(run[j - 1], run[j - 1 + 1]);
      EndStays(run[j - 1], run[j]);
    }
  }

  lemma EndStays(s: State, t: State)
    requires Step(s, t) && (s.future.Fallback? || s.future.Resolved?)
    ensures t.future == s.future && (s.effect.Disposed? ==> t.effect.Disposed?)
  {
    hide TaskStep;
    if TaskStep(s, t) {
      TaskStepTouches(s, t);
    }
  }

  /** An error boundary around is told by the time the future is over and no run is under way. */
  lemma BoundaryTold(s: State)
    requires Reachable(s) && (s.future.Fallback? || s.future.Resolved?)
    ensures !s.boundarySender.Kept? || s.effect.Notifying?
  {
    ReachableKeeps(s);
  }
}
