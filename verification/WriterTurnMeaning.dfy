/**
What the single operations on a signal do to its value and to the writes deferred on it, said of the
steps of reachable states and of nothing else.
*/
module WriterTurnMeaning {
  import opened Basics
  import opened Reentry
  import opened WriterTurn
  import opened WriterTurnSafety
  import opened WriterTurnTheorems

  // ---- Started writes

  /** A write that `begin_write` started, by a thread that can go on. */
  predicate Started(l: Local, h: nat, snapshot: bool) {
    && l.phase.Running? && l.entry.Some?
    && h in l.accesses && l.accesses[h].Writing? && l.accesses[h].snapshot == snapshot && !l.accesses[h].done
    && (l.accesses[h].snap.Some? <==> snapshot)
  }

  /** A `set` commits its own value, if nothing else of its thread uses the signal. */
  lemma SetCommits(s: Signal, t: Thread, h: nat, v: Value)
    requires Reachable(s) && OthersUnlocked(s, t) && Started(At(s, t), h, false) && |At(s, t).accesses| == 1
    ensures var s' := Next(s, t, ASet(h, v));
      && s'.sh.committed == v && s'.sh.log == s.sh.log + [Commit(t, Put(v), None, Blind)]
      && s'.sh.turn == s.sh.turn && Queue(At(s', t)) == Queue(At(s, t))
  {
    ReachableKeeps(s);
    assert LocalInv(t, At(s, t), s.sh);
  }

  /** One write ahead of a queue. */
  predicate QueuedFirst(before: seq<Write>, after: seq<Write>, value: Option<Value>) {
    |after| == |before| + 1 && after[0].value == value && after[1..] == before
  }

  predicate QueuedLast(before: seq<Write>, after: seq<Write>, value: Option<Value>) {
    |after| == |before| + 1 && after[|before|].value == value && after[..|before|] == before
  }

  /** Otherwise it is deferred ahead of the writes made inside it, and nothing is committed. */
  lemma SetDefers(s: Signal, t: Thread, h: nat, v: Value)
    requires Reachable(s) && Started(At(s, t), h, false) && |At(s, t).accesses| > 1
    ensures var s' := Next(s, t, ASet(h, v));
      s'.sh == s.sh && QueuedFirst(Queue(At(s, t)), Queue(At(s', t)), Some(v))
  {
    ReachableKeeps(s);
    assert LocalInv(t, At(s, t), s.sh);
  }

  /** An update that cannot commit now defers what its closure makes of the committed value, first. */
  lemma UpdateDefers(s: Signal, t: Thread, h: nat, f: Value -> Value)
    requires Reachable(s) && Started(At(s, t), h, true) && |At(s, t).accesses| > 1
    ensures var s' := Next(s, t, ACommit(h, f));
      s'.sh == s.sh && QueuedFirst(Queue(At(s, t)), Queue(At(s', t)), Some(f(s.sh.committed)))
  {
    ReachableKeeps(s);
    assert LocalInv(t, At(s, t), s.sh);
    assert FreshCopy(At(s, t), s.sh, At(s, t).accesses[h]);
  }

  // ---- Writes inside another use

  /** The thread is using the signal, and can go on. */
  predicate Using(l: Local) {
    l.phase.Running? && l.available && l.entry.Some?
  }

  /** A `set` or a notification inside a use is queued last, as it is. */
  lemma BlindDefers(s: Signal, t: Thread, value: Option<Value>)
    requires Reachable(s) && Using(At(s, t))
    ensures var s' := Next(s, t, ADefer(value));
      s'.sh == s.sh && QueuedLast(Queue(At(s, t)), Queue(At(s', t)), value)
  {
    ReachableKeeps(s);
    assert LocalInv(t, At(s, t), s.sh);
  }

  /** A write guard inside a use works on what it will be committed over, and its value is queued last when it is dropped. */
  lemma GuardDefers(s: Signal, t: Thread, f: Value -> Value)
    requires Reachable(s) && Using(At(s, t)) && |At(s, t).accesses| < USIZE_MAX
    ensures var l, s1 := At(s, t), Next(s, t, AGuard);
      var s2 := Next(s1, t, ADeferGuard(l.next, f));
      && At(s1, t).accesses.Keys == l.accesses.Keys + {l.next} && At(s2, t).accesses.Keys == At(s1, t).accesses.Keys
      && s2.sh == s.sh
      && QueuedLast(Queue(l), Queue(At(s2, t)), Some(f(AfterWrites(s.sh.committed, Queue(l)))))
  {
    ReachableKeeps(s);
    assert LocalInv(t, At(s, t), s.sh);
    GuardQueue(s, t, f);
    AfterLast(s.sh.committed, Queue(At(s, t)));
  }

  lemma GuardQueue(s: Signal, t: Thread, f: Value -> Value)
    requires RecordOk(At(s, t)) && Using(At(s, t)) && |At(s, t).accesses| < USIZE_MAX
    ensures var l, s1 := At(s, t), Next(s, t, AGuard);
      var s2 := Next(s1, t, ADeferGuard(l.next, f));
      && At(s1, t).accesses.Keys == l.accesses.Keys + {l.next} && At(s2, t).accesses.Keys == At(s1, t).accesses.Keys
      && s2.sh == s.sh && QueuedLast(Queue(l), Queue(At(s2, t)), Some(f(BaseFor(l, s.sh))))
  {
    var l := At(s, t);
    assert l.entry.value.depth > 0;
    var s1 := Next(s, t, AGuard);
    assert At(s1, t) == NestedGuard(l, s.sh);
    var s2 := Next(s1, t, ADeferGuard(l.next, f));
    assert At(s2, t) == DeferGuard(At(s1, t), l.next, f);
  }

  /** The whole queue is taken out, and the record has none then. */
  lemma TakenWhole(s: Signal, t: Thread)
    requires Using(At(s, t)) && EntryOf(At(s, t)).pending.Some?
    ensures var l, l' := At(s, t), At(Next(s, t, ATake), t);
      Queue(l') == [] && l'.out == l.out + [Queue(l)] && l'.accesses == l.accesses
  {
  }

  /** What was taken out last goes back ahead of all that was deferred meanwhile. */
  lemma PutBackAhead(s: Signal, t: Thread)
    requires Using(At(s, t)) && At(s, t).out != []
    ensures var l, l' := At(s, t), At(Next(s, t, APut), t);
      Queue(l') == l.out[|l.out| - 1] + Queue(l) && l'.out == l.out[..|l.out| - 1] && l'.accesses == l.accesses
  {
  }

  // ---- The end of a drain

  /** A thread that drains, and whether it was stopped by the cap. */
  predicate Draining(l: Local, h: nat, capped: bool) {
    && l.phase.Running? && l.entry.Some?
    && h in l.accesses && l.accesses[h].Draining? && !l.accesses[h].done
    && (capped <==> l.accesses[h].applied >= 100_000)
  }

  /** A drain that reaches the cap gives up the rest, all of it, and commits none of it. */
  lemma DrainCapped(s: Signal, t: Thread, h: nat)
    requires Reachable(s) && Draining(At(s, t), h, true)
    ensures var l, s' := At(s, t), Next(s, t, ADrain(h));
      && s'.sh == s.sh && Queue(At(s', t)) == [] && At(s', t).dropped == l.dropped + Queue(l)
      && At(s', t).applied == l.applied && At(s', t).accesses[h].done
  {
    ReachableKeeps(s);
    assert LocalInv(t, At(s, t), s.sh);
  }

  /** A drain stops when another use of the signal is alive, and leaves the queue to the end of that. */
  lemma DrainYields(s: Signal, t: Thread, h: nat)
    requires Reachable(s) && Draining(At(s, t), h, false) && |At(s, t).accesses| > 1
    ensures var l, s' := At(s, t), Next(s, t, ADrain(h));
      && s'.sh == s.sh && Queue(At(s', t)) == Queue(l) && SameHistory(l, At(s', t)) && At(s', t).accesses[h].done
  {
    ReachableKeeps(s);
    assert LocalInv(t, At(s, t), s.sh);
  }

  // ---- Reads

  /** A read takes the value's lock, and is counted. */
  lemma ReadLocks(s: Signal, t: Thread)
    requires Reachable(s) && At(s, t).phase.Running? && |At(s, t).accesses| < USIZE_MAX
    ensures var l, l' := At(s, t), At(Next(s, t, ARead), t);
      && l.next !in l.accesses && l'.accesses == l.accesses[l.next := Reading(true)] && HoldsLock(l')
      && (l.available ==> l'.entry.Some? && l'.entry.value.depth == |l.accesses| + 1)
  {
    ReachableKeeps(s);
    assert LocalInv(t, At(s, t), s.sh);
    assert At(Next(s, t, ARead), t).accesses[At(s, t).next] == Reading(true);
    CardAdd(At(s, t).accesses, At(s, t).next, Reading(true));
  }

  /** It keeps the lock until it is let go, whatever any thread does. */
  lemma ReadKeepsLock(s: Signal, t: Thread, h: nat, u: Thread, a: Action)
    requires Reachable(s) && StillLocked(At(s, t), h)
    requires u != t || a != AUnlock(h)
    ensures StillLocked(At(Next(s, u, a), t), h)
  {
    ReachableKeeps(s);
    assert LocalInv(t, At(s, t), s.sh);
    if u == t {
      LockKept(t, At(s, t), s.sh, OthersUnlocked(s, t), h, a);
    }
  }

  predicate StillLocked(l: Local, h: nat) {
    h in l.accesses && l.accesses[h] == Reading(true)
  }

  lemma LockKept(t: Thread, l: Local, sh: Shared, free: bool, h: nat, a: Action)
    requires RecordOk(l) && StillLocked(l, h) && a != AUnlock(h)
    ensures StillLocked(LocalStep(t, l, sh, free, a).l, h)
  {
    UseKeepsLock(l, sh, h, a);
    QueueKeepsLock(l, h, a);
    ShareKeepsLock(t, l, sh, free, h, a);
    BlockedKeepsLock(t, l, sh, h, a);
    hide StillLocked, UseStep, QueueStep, ShareStep, BlockedStep;
  }

  lemma UseKeepsLock(l: Local, sh: Shared, h: nat, a: Action)
    requires RecordOk(l) && StillLocked(l, h) && a != AUnlock(h)
    ensures StillLocked(UseStep(l, sh, a), h)
  {
  }

  lemma QueueKeepsLock(l: Local, h: nat, a: Action)
    requires RecordOk(l) && StillLocked(l, h)
    ensures StillLocked(QueueStep(l, a), h)
  {
  }

  lemma ShareKeepsLock(t: Thread, l: Local, sh: Shared, free: bool, h: nat, a: Action)
    requires RecordOk(l) && StillLocked(l, h)
    ensures StillLocked(ShareStep(t, l, sh, free, a).l, h)
  {
  }

  lemma BlockedKeepsLock(t: Thread, l: Local, sh: Shared, h: nat, a: Action)
    requires RecordOk(l) && StillLocked(l, h)
    ensures StillLocked(BlockedStep(t, l, sh, a).l, h)
  {
  }

  // ---- Threads whose record is gone

  /** A `set` without a record commits its value exactly if neither the turn nor the value is busy. */
  lemma UnrecordedSets(s: Signal, t: Thread, v: Value)
    requires At(s, t).phase.Running? && !At(s, t).available
    ensures var s', free := Next(s, t, ASetUnrecorded(v)), s.sh.turn.None? && OthersUnlocked(s, t) && !HoldsLock(At(s, t));
      && (free ==> s'.sh == Shared(v, None, s.sh.log + [Commit(t, Put(v), None, Blind)]))
      && (!free ==> s'.sh == s.sh)
  {
  }

  /** An update without a record commits what its closure makes of the value that was committed when it began. */
  lemma UnrecordedUpdates(s: Signal, t: Thread, f: Value -> Value)
    requires At(s, t).phase.Running? && !At(s, t).available
    requires s.sh.turn.None? && OthersUnlocked(s, t) && !HoldsLock(At(s, t))
    ensures var s' := Next(Next(s, t, AUpdateUnrecorded), t, AFinishUnrecorded(At(s, t).next, f));
      s'.sh.committed == f(s.sh.committed) && |s'.sh.log| == |s.sh.log| + 1
  {
    var l, s1 := At(s, t), Next(s, t, AUpdateUnrecorded);
    assert At(s1, t) == UpdateUnrecorded(l, s.sh) && s1.sh == s.sh;
    assert OthersUnlocked(s1, t) by {
      assert forall u | u in s1.locals && u != t :: u in s.locals && s1.locals[u] == s.locals[u];
    }
    assert Next(s1, t, AFinishUnrecorded(l.next, f)).sh == FinishUnrecorded(t, At(s1, t), s.sh, true, l.next, f).sh;
    hide Next;
    UnrecordedCommits(t, l, s.sh, f);
  }

  lemma UnrecordedCommits(t: Thread, l: Local, sh: Shared, f: Value -> Value)
    requires !l.available && sh.turn.None? && !HoldsLock(l)
    ensures var sh' := FinishUnrecorded(t, UpdateUnrecorded(l, sh), sh, true, l.next, f).sh;
      sh'.committed == f(sh.committed) && |sh'.log| == |sh.log| + 1
  {
    assert UpdateUnrecorded(l, sh).accesses == l.accesses;
  }

  // ---- Whole writes

  /** The thread does not use the signal, and nothing is in the way of a write. */
  predicate Unused(s: Signal, t: Thread) {
    && At(s, t).phase.Running? && At(s, t).available && At(s, t).accesses == map[]
    && s.sh.turn.None? && OthersUnlocked(s, t)
  }

  /** `begin_write`: the thread waits for the turn, gets it, and has one access. */
  function Begun(s: Signal, t: Thread, snapshot: bool): Signal {
    Next(Next(s, t, ABegin(snapshot)), t, AAcquire)
  }

  lemma BeginStarts(s: Signal, t: Thread, snapshot: bool)
    requires Reachable(s) && Unused(s, t)
    ensures var s', l := Begun(s, t, snapshot), At(s, t);
      && Reachable(s') && s'.sh == s.sh.(turn := Some(t)) && OthersUnlocked(s', t)
      && At(s', t).accesses == map[l.next := Writing(snapshot, None, false)]
      && At(s', t).phase.Running? && At(s', t).entry.Some? && Queue(At(s', t)) == []
  {
    var s1 := Next(s, t, ABegin(snapshot));
    ReachableKeeps(s);
    assert LocalInv(t, At(s, t), s.sh);
    ReachableNext(s, t, ABegin(snapshot));
    ReachableNext(s1, t, AAcquire);
    BeginWaits(s, t, snapshot);
    hide Reachable, LocalInv, Next;
    AcquireStarts(s1, t);
  }

  lemma BeginWaits(s: Signal, t: Thread, snapshot: bool)
    requires Unused(s, t) && RecordOk(At(s, t))
    ensures var s' := Next(s, t, ABegin(snapshot));
      s'.sh == s.sh && At(s', t) == At(s, t).(phase := Waiting(snapshot)) && OthersUnlocked(s', t)
  {
    var s' := Next(s, t, ABegin(snapshot));
    assert forall u | u in s'.locals && u != t :: u in s.locals && s'.locals[u] == s.locals[u];
  }

  lemma AcquireStarts(s: Signal, t: Thread)
    requires At(s, t).phase.Waiting? && s.sh.turn.None? && OthersUnlocked(s, t)
    requires At(s, t).available && At(s, t).entry.None? && At(s, t).accesses == map[]
    ensures var s', l := Next(s, t, AAcquire), At(s, t);
      && s'.sh == s.sh.(turn := Some(t)) && OthersUnlocked(s', t)
      && At(s', t).accesses == map[l.next := Writing(l.phase.snapshot, None, false)]
      && At(s', t).phase.Running? && At(s', t).entry.Some? && Queue(At(s', t)) == []
  {
    var s' := Next(s, t, AAcquire);
    assert forall u | u in s'.locals && u != t :: u in s.locals && s'.locals[u] == s.locals[u];
  }

  /** The write's only access ends: the turn is given back. */
  lemma WriteEnds(s: Signal, t: Thread, h: nat)
    requires Reachable(s) && At(s, t).phase.Running? && At(s, t).entry.Some? && Queue(At(s, t)) == []
    requires At(s, t).accesses.Keys == {h} && At(s, t).accesses[h].Writing?
    ensures var s' := Next(s, t, AExit(h, false));
      s'.sh == s.sh.(turn := None) && At(s', t).phase.Running? && At(s', t).accesses == map[]
  {
    ReachableKeeps(s);
    assert LocalInv(t, At(s, t), s.sh);
    assert At(s, t).accesses.Keys == {h};
    CardRemove(At(s, t).accesses, h);
    assert At(s, t).accesses - {h} == map[];
  }

  /** A `set` that nothing interrupts commits its value, and gives the turn back. */
  lemma WholeSet(s: Signal, t: Thread, v: Value)
    requires Reachable(s) && Unused(s, t)
    ensures var h, s1 := At(s, t).next, Begun(s, t, false);
      var s' := Next(Next(s1, t, ASet(h, v)), t, AExit(h, false));
      s'.sh.committed == v && s'.sh.turn.None? && |s'.sh.log| == |s.sh.log| + 1 && At(s', t).accesses == map[]
  {
    BeginStarts(s, t, false);
    var h, s1 := At(s, t).next, Begun(s, t, false);
    SetCommits(s1, t, h, v);
    ReachableNext(s1, t, ASet(h, v));
    SetDone(s1, t, h, v);
    hide Next, Begun, Reachable;
    WriteEnds(Next(s1, t, ASet(h, v)), t, h);
  }

  lemma SetDone(s: Signal, t: Thread, h: nat, v: Value)
    requires Started(At(s, t), h, false) && OthersUnlocked(s, t) && Alone(At(s, t))
    ensures var l' := At(Next(s, t, ASet(h, v)), t);
      l'.phase.Running? && l'.entry == At(s, t).entry && l'.accesses == At(s, t).accesses[h := Writing(false, None, true)]
  {
  }

  /** An `update` that nothing interrupts commits what its closure makes of the committed value. */
  lemma WholeUpdate(s: Signal, t: Thread, f: Value -> Value)
    requires Reachable(s) && Unused(s, t)
    ensures var h, s1 := At(s, t).next, Begun(s, t, true);
      var s2 := Next(s1, t, ASnapshot(h));
      var s' := Next(Next(s2, t, ACommit(h, f)), t, AExit(h, false));
      && s'.sh.committed == f(s.sh.committed) && s'.sh.turn.None? && |s'.sh.log| == |s.sh.log| + 1
      && At(s', t).accesses == map[]
  {
    BeginStarts(s, t, true);
    var h, s1 := At(s, t).next, Begun(s, t, true);
    CopyTaken(s1, t, h);
    ReachableNext(s1, t, ASnapshot(h));
    var s2 := Next(s1, t, ASnapshot(h));
    ReachableKeeps(s2);
    assert LocalInv(t, At(s2, t), s2.sh);
    OutermostUpdateApplies(s2, t, h, f);
    ReachableNext(s2, t, ACommit(h, f));
    UpdateDone(s2, t, h, f);
    hide Next, Begun, Reachable;
    WriteEnds(Next(s2, t, ACommit(h, f)), t, h);
  }

  lemma CopyTaken(s: Signal, t: Thread, h: nat)
    requires At(s, t).phase.Running? && h in At(s, t).accesses && At(s, t).accesses[h] == Writing(true, None, false)
    ensures var s' := Next(s, t, ASnapshot(h));
      && s'.sh == s.sh && At(s', t).phase.Running? && At(s', t).entry == At(s, t).entry
      && At(s', t).accesses == At(s, t).accesses[h := At(s', t).accesses[h]]
      && At(s', t).accesses[h].Writing? && At(s', t).accesses[h].snap.Some? && !At(s', t).accesses[h].done
      && At(s', t).available == At(s, t).available && (OthersUnlocked(s', t) == OthersUnlocked(s, t))
  {
    var s' := Next(s, t, ASnapshot(h));
    assert forall u | u != t :: (u in s'.locals <==> u in s.locals) && (u in s.locals ==> s'.locals[u] == s.locals[u]);
  }

  lemma UpdateDone(s: Signal, t: Thread, h: nat, f: Value -> Value)
    requires OthersUnlocked(s, t) && Alone(At(s, t)) && At(s, t).phase.Running?
    requires h in At(s, t).accesses && At(s, t).accesses[h].Writing? && At(s, t).accesses[h].snap.Some? && !At(s, t).accesses[h].done
    ensures var s', a := Next(s, t, ACommit(h, f)), At(s, t).accesses[h];
      && At(s', t).phase.Running? && At(s', t).entry == At(s, t).entry && s'.sh.turn == s.sh.turn
      && At(s', t).accesses == At(s, t).accesses[h := Writing(a.snapshot, a.snap, true)]
  {
  }
}
