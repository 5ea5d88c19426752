/**
How a signal is written by any number of threads (signal/commit.rs over reentry.rs).

The state of one signal is what the threads share (the committed value, the writer turn, the
history of commits) and, for each thread, its record entry, its live accesses and the operations
it is in the middle of. Every action is one thread's step between two points where other threads
or user code can run; guards may be dropped in any order. Different signals share no state, so a
program with many signals is a run of this system for each of them.
*/
module WriterTurn {
  import opened Basics
  import opened Reentry

  type Thread = nat

  /** The protocol never looks inside a value. */
  type Value = int

  /** The most deferred writes one flush applies. */
  const MAX_APPLIED: nat := 100_000

  /**
  A copy of a value taken to be changed and written back: the value copied, how many commits had
  been made by then, and which tenure of the writer turn its thread was in (`None`: it did not
  hold the turn).
  */
  datatype Snap = Snap(base: Value, since: nat, tenure: Option<nat>)

  /** A deferred write: a new value (`Deferred::Set`) or a notification only (`Deferred::Notify`). */
  datatype Write = Write(uid: nat, value: Option<Value>, snap: Option<Snap>)

  datatype Access =
    | Reading(locked: bool)                                       // a read guard
    | Writing(snapshot: bool, snap: Option<Snap>, done: bool)     // `begin_write` started it
    | Guarding(copy: Snap, done: bool)                            // a write guard inside another use
    | Draining(applied: nat, done: bool)                          // `resume_write`, then `drain`

  function KindOf(a: Access): Kind {
    match a
    case Reading(_) => Read
    case Writing(snapshot, _, _) => if snapshot then Snapshot else Read
    case Guarding(_, _) => Snapshot
    case Draining(_, _) => Read
  }

  /** What a thread is blocked in: nothing, `begin_write`'s `take_turn`, or `Pending::flush`. */
  datatype Phase = Running | Waiting(snapshot: bool) | Flushing(queue: seq<Write>, turn: bool)

  /** An `update` whose closure is running on a copy, without an access of its own. */
  datatype Loose = Loose(snap: Snap, recorded: bool)

  /**
  One thread's side of the signal. `out` holds the queues `pending_or_committed` has taken out of
  the record while a value is being cloned. `tenure`, `leader`, `made`, `applied` and `dropped` are
  history: the times this thread took the turn, the last access begun with the turn, and the writes
  it deferred, applied and gave up.
  */
  datatype Local = Local(
    available: bool,
    entry: Option<Entry<Write>>,
    accesses: map<nat, Access>,
    next: nat,
    loose: map<nat, Loose>,
    out: seq<seq<Write>>,
    phase: Phase,
    tenure: nat,
    leader: nat,
    made: seq<Write>,
    applied: seq<Write>,
    dropped: seq<Write>)

  function Fresh(): Local {
    Local(true, None, map[], 0, map[], [], Running, 0, 0, [], [], [])
  }

  /** How the copy behind a committed value relates to the turn under which it was committed. */
  datatype Mode =
    | Blind       // no copy: a `set`
    | Held        // copied in the same tenure of the turn as the commit
    | Unheld      // copied without the turn
    | Moved       // copied in an earlier tenure
    | Unrecorded  // copied and committed by a thread whose record is gone

  /** What a commit does to the value: an outermost update applies its function, the rest put a value. */
  datatype Effect = Apply(f: Value -> Value) | Put(value: Value)

  datatype Commit = Commit(who: Thread, effect: Effect, snap: Option<Snap>, mode: Mode)

  datatype Shared = Shared(committed: Value, turn: Option<Thread>, log: seq<Commit>)

  datatype Out = Out(l: Local, sh: Shared)

  // ---- Steps

  predicate HasTurn(l: Local) {
    (l.entry.Some? && l.entry.value.turn) || (l.phase.Flushing? && l.phase.turn)
  }

  predicate HoldsLock(l: Local) {
    exists h | h in l.accesses :: l.accesses[h] == Reading(true)
  }

  function EntryOf(l: Local): Entry<Write> {
    if l.entry.Some? then l.entry.value else NewEntry()
  }

  function PendingOf(e: Entry<Write>): seq<Write> {
    if e.pending.Some? then e.pending.value else []
  }

  /** The writes deferred on this thread that are in the record or being flushed, in order. */
  function Queue(l: Local): seq<Write> {
    match l.phase
    case Flushing(queue, _) => queue
    case _ => PendingOf(EntryOf(l))
  }

  /** Whether the record shows exactly one access (so that a commit can be made now). */
  predicate Alone(l: Local) {
    l.available && l.entry.Some? && l.entry.value.depth <= 1
  }

  function ModeOf(l: Local, snap: Option<Snap>): Mode {
    match snap
    case None => Blind
    case Some(s) =>
      if s.tenure.None? then Unheld
      else if HasTurn(l) && s.tenure.value == l.tenure then Held
      else Moved
  }

  function Snapped(l: Local, sh: Shared, base: Value): Snap {
    Snap(base, |sh.log|, if HasTurn(l) then Some(l.tenure) else None)
  }

  function LastValue(q: seq<Write>): Option<Value> {
    if q == [] then None
    else if q[|q| - 1].value.Some? then q[|q| - 1].value
    else LastValue(q[..|q| - 1])
  }

  /** `pending_or_committed`. */
  function BaseFor(l: Local, sh: Shared): Value {
    var last := LastValue(PendingOf(EntryOf(l)));
    if last.Some? then last.value else sh.committed
  }

  /** An access starts, with the entry `e` if the record can be reached. */
  function Opened(l: Local, a: Access, e: Entry<Write>): Local {
    l.(entry := if l.available then Some(e) else None,
       accesses := l.accesses[l.next := a],
       next := l.next + 1)
  }

  /** `defer`: `first` puts the write ahead of those deferred so far. */
  function Deferred(l: Local, value: Option<Value>, snap: Option<Snap>, first: bool): Local {
    var w := Write(|l.made|, value, snap);
    if l.available && l.entry.Some? then
      var e := l.entry.value;
      var q := if first then [w] + PendingOf(e) else PendingOf(e) + [w];
      l.(made := l.made + [w], entry := Some(PutAhead(e.(pending := None), q)))
    else
      l.(made := l.made + [w], dropped := l.dropped + [w])
  }

  /** The turn goes back to the signal if this thread's `released` guard held it. */
  function Release(sh: Shared, released: bool): Shared {
    if released then sh.(turn := None) else sh
  }

  function Commits(t: Thread, sh: Shared, value: Value, effect: Effect, snap: Option<Snap>, mode: Mode): Shared {
    sh.(committed := value, log := sh.log + [Commit(t, effect, snap, mode)])
  }

  /** A read guard (`Plain::try_new_at`): recorded, then the value's lock is taken for reading. */
  function ReadEnter(l: Local): Local {
    if |l.accesses| < USIZE_MAX then Opened(l, Reading(true), Entered(EntryOf(l), Read)) else l
  }

  /** A read guard is dropped: the lock is released first, the access ends after. */
  function ReadUnlock(l: Local, h: nat): Local {
    if h in l.accesses && l.accesses[h].Reading? then l.(accesses := l.accesses[h := Reading(false)]) else l
  }

  /** Whether a guard can go now: a drain lets go of its access only once it is over, or by a panic. */
  predicate CanExit(l: Local, h: nat, panicking: bool) {
    h in l.accesses && l.accesses[h] != Reading(true) && (l.accesses[h].Draining? ==> l.accesses[h].done || panicking)
  }

  /** `exit`, up to the hand-over to `flush`. */
  function Exit(l: Local, sh: Shared, h: nat, panicking: bool): Out {
    if !CanExit(l, h, panicking) then Out(l, sh) else
    var accesses := l.accesses - {h};
    if l.entry.None? then Out(l.(accesses := accesses), sh) else
    match Exited(l.entry.value, KindOf(l.accesses[h]))
    case Ok(e) => Out(l.(accesses := accesses, entry := Some(e)), sh)
    case Err(f) =>
      if Flushes(f, panicking)
      then Out(l.(accesses := accesses, entry := None, phase := Flushing(f.pending.value, f.turn)), sh)
      else Out(l.(accesses := accesses, entry := None, dropped := l.dropped + if f.pending.Some? then f.pending.value else []),
               Release(sh, f.turn))
  }

  /** `begin_write` up to `take_turn`: a use alive on this thread, or no record, ends it here. */
  function BeginWrite(l: Local, snapshot: bool): Local {
    if l.available && EntryOf(l).depth == 0 then l.(phase := Waiting(snapshot)) else l
  }

  /** `take_turn` returns, and the write is recorded. */
  function Acquire(t: Thread, l: Local, sh: Shared): Out {
    if !l.phase.Waiting? || sh.turn.Some? then Out(l, sh) else
    var a := Writing(l.phase.snapshot, None, false);
    Out(Opened(l.(phase := Running, tenure := l.tenure + 1, leader := l.next), a, Began(EntryOf(l), KindOf(a))),
        sh.(turn := Some(t)))
  }

  /** The started write copies the committed value. */
  function TakeSnapshot(l: Local, sh: Shared, h: nat): Local {
    if h in l.accesses && l.accesses[h].Writing? && l.accesses[h].snapshot && l.accesses[h].snap.None? && !l.accesses[h].done then
      l.(accesses := l.accesses[h := Writing(true, Some(Snapped(l, sh, sh.committed)), false)])
    else l
  }

  /** `commit`: now if nothing else of this thread uses the signal, or else deferred, first. */
  function CommitValue(t: Thread, l: Local, sh: Shared, free: bool, h: nat, value: Value, effect: Effect): Out
    requires h in l.accesses && l.accesses[h].Writing?
  {
    var Writing(snapshot, snap, _) := l.accesses[h];
    var l' := l.(accesses := l.accesses[h := Writing(snapshot, snap, true)]);
    if !Alone(l) then Out(Deferred(l', Some(value), snap, true), sh)
    else if !free then Out(l, sh)
    else Out(l', Commits(t, sh, value, effect, snap, ModeOf(l, snap)))
  }

  /** A started `update` (or write guard) commits what `f` makes of its copy. */
  function CommitUpdate(t: Thread, l: Local, sh: Shared, free: bool, h: nat, f: Value -> Value): Out {
    if h in l.accesses && l.accesses[h].Writing? && l.accesses[h].snap.Some? && !l.accesses[h].done
    then CommitValue(t, l, sh, free, h, f(l.accesses[h].snap.value.base), Apply(f))
    else Out(l, sh)
  }

  /** A started `set` commits its value. */
  function CommitSet(t: Thread, l: Local, sh: Shared, free: bool, h: nat, v: Value): Out {
    if h in l.accesses && l.accesses[h].Writing? && !l.accesses[h].snapshot && !l.accesses[h].done
    then CommitValue(t, l, sh, free, h, v, Put(v))
    else Out(l, sh)
  }

  /** A write guard taken while the signal is in use here. */
  function NestedGuard(l: Local, sh: Shared): Local {
    if EntryOf(l).depth > 0 && l.available && |l.accesses| < USIZE_MAX then
      Opened(l, Guarding(Snapped(l, sh, BaseFor(l, sh)), false), Entered(EntryOf(l), Snapshot))
    else l
  }

  /** The nested guard is dropped: its value is deferred (its access ends in a later `Exit`). */
  function DeferGuard(l: Local, h: nat, f: Value -> Value): Local {
    if !(h in l.accesses && l.accesses[h].Guarding? && !l.accesses[h].done) then l else
    var copy := l.accesses[h].copy;
    Deferred(l.(accesses := l.accesses[h := Guarding(copy, true)]), Some(f(copy.base)), Some(copy), false)
  }

  /** `update_snapshot` while the signal is in use here: its closure starts on a copy. */
  function NestedUpdate(l: Local, sh: Shared): Local {
    if EntryOf(l).depth > 0 && l.available then
      l.(loose := l.loose[l.next := Loose(Snapped(l, sh, BaseFor(l, sh)), true)], next := l.next + 1)
    else l
  }

  /** ... and its result is deferred when the closure returns. */
  function FinishNested(l: Local, h: nat, f: Value -> Value): Local {
    if !(h in l.loose && l.loose[h].recorded) then l else
    var snap := l.loose[h].snap;
    Deferred(l.(loose := l.loose - {h}), Some(f(snap.base)), Some(snap), false)
  }

  /** `set` (a value) or `notify` (none) while the signal is in use here. */
  function DeferBlind(l: Local, value: Option<Value>): Local {
    if EntryOf(l).depth > 0 && l.available then Deferred(l, value, None, false) else l
  }

  /** `take_pending`, when the queue is taken out so that user code can run. */
  function TakeOut(l: Local): Local {
    if l.entry.Some? && l.entry.value.pending.Some? then
      l.(entry := Some(l.entry.value.(pending := None)), out := l.out + [l.entry.value.pending.value])
    else l
  }

  /** `put_pending` of the queue taken out last. */
  function PutBack(l: Local): Local {
    if l.out == [] then l else
    var q := l.out[|l.out| - 1];
    var out := l.out[..|l.out| - 1];
    if l.entry.Some? then l.(out := out, entry := Some(PutAhead(l.entry.value, q)))
    else l.(out := out, dropped := l.dropped + q)
  }

  /** `flush` takes the turn, if it was not handed one. */
  function FlushTurn(t: Thread, l: Local, sh: Shared): Out {
    if l.phase.Flushing? && !l.phase.turn && sh.turn.None? then
      Out(l.(phase := l.phase.(turn := true), tenure := l.tenure + 1), sh.(turn := Some(t)))
    else Out(l, sh)
  }

  /** `flush` puts the writes back in the record, and starts to drain them. */
  function Resume(l: Local): Local {
    if l.phase.Flushing? && l.phase.turn then
      Opened(l.(phase := Running, leader := l.next), Draining(0, false), Resumed(EntryOf(l), l.phase.queue))
    else l
  }

  /** One round of `drain`. */
  function Drain(t: Thread, l: Local, sh: Shared, free: bool, h: nat): Out {
    if !(h in l.accesses && l.accesses[h].Draining? && !l.accesses[h].done) then Out(l, sh) else
    var n := l.accesses[h].applied;
    var over := l.accesses[h := Draining(n, true)];
    if n >= MAX_APPLIED then
      if l.entry.None? then Out(l.(accesses := over), sh) else
      Out(l.(accesses := over, entry := Some(l.entry.value.(pending := None)), dropped := l.dropped + PendingOf(l.entry.value)), sh)
    else if !Alone(l) then Out(l.(accesses := over), sh)
    else
      var q := PendingOf(l.entry.value);
      if q == [] then Out(l.(accesses := over, entry := Some(l.entry.value.(pending := None))), sh)
      else if q[0].value.Some? && !free then Out(l, sh)
      else
        var l' := l.(accesses := l.accesses[h := Draining(n + 1, false)],
                     entry := Some(l.entry.value.(pending := if |q| > 1 then Some(q[1..]) else None)),
                     applied := l.applied + [q[0]]);
        Out(l', if q[0].value.Some?
                then Commits(t, sh, q[0].value.value, Put(q[0].value.value), q[0].snap, ModeOf(l, q[0].snap))
                else sh)
  }

  /** The thread's record is destroyed, with what it holds. */
  function Shutdown(l: Local, sh: Shared): Out {
    Out(l.(available := false, entry := None, dropped := l.dropped + PendingOf(EntryOf(l))),
        Release(sh, EntryOf(l).turn))
  }

  /** `set_unrecorded`: only if neither the turn nor the value is busy. */
  function SetUnrecorded(t: Thread, l: Local, sh: Shared, free: bool, v: Value): Shared {
    if !l.available && sh.turn.None? && free && !HoldsLock(l) then Commits(t, sh, v, Put(v), None, Blind) else sh
  }

  /** `update_snapshot` without a record: copies the value without the turn. */
  function UpdateUnrecorded(l: Local, sh: Shared): Local {
    if l.available then l else
    l.(loose := l.loose[l.next := Loose(Snap(sh.committed, |sh.log|, None), false)], next := l.next + 1)
  }

  function FinishUnrecorded(t: Thread, l: Local, sh: Shared, free: bool, h: nat, f: Value -> Value): Out {
    if !(h in l.loose && !l.loose[h].recorded) then Out(l, sh) else
    var snap := l.loose[h].snap;
    Out(l.(loose := l.loose - {h}),
        if sh.turn.None? && free && !HoldsLock(l)
        then Commits(t, sh, f(snap.base), Put(f(snap.base)), Some(snap), Unrecorded) else sh)
  }

  datatype Action =
    | ARead | AUnlock(h: nat) | AExit(h: nat, panicking: bool)
    | ABegin(snapshot: bool) | AAcquire | ASnapshot(h: nat) | ACommit(h: nat, f: Value -> Value) | ASet(h: nat, v: Value)
    | AGuard | ADeferGuard(h: nat, f: Value -> Value)
    | AUpdate | AFinish(h: nat, f: Value -> Value)
    | ADefer(value: Option<Value>) | ATake | APut
    | AFlushTurn | AResume | ADrain(h: nat)
    | AShutdown | ASetUnrecorded(v: Value) | AUpdateUnrecorded | AFinishUnrecorded(h: nat, f: Value -> Value)

  /** The steps that start or change a use of the signal. */
  function UseStep(l: Local, sh: Shared, a: Action): Local {
    match a
    case ARead => ReadEnter(l)
    case AUnlock(h) => ReadUnlock(l, h)
    case ABegin(snapshot) => BeginWrite(l, snapshot)
    case ASnapshot(h) => TakeSnapshot(l, sh, h)
    case AGuard => NestedGuard(l, sh)
    case AUpdate => NestedUpdate(l, sh)
    case AUpdateUnrecorded => UpdateUnrecorded(l, sh)
    case _ => l
  }

  /** The steps that move deferred writes. */
  function QueueStep(l: Local, a: Action): Local {
    match a
    case ADeferGuard(h, f) => DeferGuard(l, h, f)
    case AFinish(h, f) => FinishNested(l, h, f)
    case ADefer(value) => DeferBlind(l, value)
    case ATake => TakeOut(l)
    case APut => PutBack(l)
    case _ => l
  }

  /** The steps that can change what the threads share. */
  function ShareStep(t: Thread, l: Local, sh: Shared, free: bool, a: Action): Out {
    match a
    case AExit(h, panicking) => Exit(l, sh, h, panicking)
    case ACommit(h, f) => CommitUpdate(t, l, sh, free, h, f)
    case ASet(h, v) => CommitSet(t, l, sh, free, h, v)
    case ADrain(h) => Drain(t, l, sh, free, h)
    case AShutdown => Shutdown(l, sh)
    case ASetUnrecorded(v) => Out(l, SetUnrecorded(t, l, sh, free, v))
    case AFinishUnrecorded(h, f) => FinishUnrecorded(t, l, sh, free, h, f)
    case _ => Out(l, sh)
  }

  /** The steps of a thread blocked in `take_turn` or in `flush`. */
  function BlockedStep(t: Thread, l: Local, sh: Shared, a: Action): Out {
    match a
    case AAcquire => Acquire(t, l, sh)
    case AFlushTurn => FlushTurn(t, l, sh)
    case AResume => Out(Resume(l), sh)
    case _ => Out(l, sh)
  }

  /** One step of thread `t`; `free`: no other thread holds the value's lock for reading. */
  function LocalStep(t: Thread, l: Local, sh: Shared, free: bool, a: Action): Out {
    if !l.phase.Running? then BlockedStep(t, l, sh, a) else
    match a
    case ARead | AUnlock(_) | ABegin(_) | ASnapshot(_) | AGuard | AUpdate | AUpdateUnrecorded => Out(UseStep(l, sh, a), sh)
    case ADeferGuard(_, _) | AFinish(_, _) | ADefer(_) | ATake | APut => Out(QueueStep(l, a), sh)
    case AAcquire | AFlushTurn | AResume => Out(l, sh)
    case _ => ShareStep(t, l, sh, free, a)
  }

  /** The signal, created with the value `init`. A thread without a member in `locals` never used it. */
  datatype Signal = Signal(init: Value, sh: Shared, locals: map<Thread, Local>)

  function Start(init: Value): Signal {
    Signal(init, Shared(init, None, []), map[])
  }

  function At(s: Signal, t: Thread): Local {
    if t in s.locals then s.locals[t] else Fresh()
  }

  predicate OthersUnlocked(s: Signal, t: Thread) {
    forall u | u in s.locals && u != t :: !HoldsLock(s.locals[u])
  }

  function Next(s: Signal, t: Thread, a: Action): Signal {
    var o := LocalStep(t, At(s, t), s.sh, OthersUnlocked(s, t), a);
    s.(sh := o.sh, locals := s.locals[t := o.l])
  }

  function Run(s: Signal, run: seq<(Thread, Action)>): Signal
    decreases |run|
  {
    if run == [] then s else Run(Next(s, run[0].0, run[0].1), run[1..])
  }

  ghost predicate Reachable(s: Signal) {
    exists run :: s == Run(Start(s.init), run)
  }
}
