/**
Exactly which updates can lose another thread's commit. The documentation of the traits says that
updates of one signal serialize and that none is lost; the code gives that to an update made under
the writer turn, and to no other.
*/
module LostUpdates {
  import opened Basics
  import opened Reentry
  import opened WriterTurn
  import opened WriterTurnSafety
  import opened WriterTurnTheorems

  function Inc(x: Value): Value { x + 1 }

  function Same(x: Value): Value { x }

  lemma Then(t: Thread, l: Local, sh: Shared, free: bool, a: Action, rest: seq<Action>, o: Out)
    requires LocalStep(t, l, sh, free, a) == o
    ensures LocalRun(t, l, sh, free, [a] + rest) == LocalRun(t, o.l, o.sh, free, rest)
  {
    assert ([a] + rest)[1..] == rest;
  }

  function WriterActs(): seq<Action> {
    [ABegin(true)] + ([AAcquire] + ([ASnapshot(0)] + ([ACommit(0, Inc)] + ([AExit(0, false)] + []))))
  }

  function WriterCommit(sh: Shared): Commit {
    Commit(1, Apply(Inc), Some(Snap(sh.committed, |sh.log|, Some(1))), Held)
  }

  /** Thread 1 updates the signal, adding one. */
  lemma WriterIncrements(sh: Shared)
    requires sh.turn.None?
    ensures LocalRun(1, Fresh(), sh, true, WriterActs()).sh == Shared(sh.committed + 1, None, sh.log + [WriterCommit(sh)])
    ensures LocalRun(1, Fresh(), sh, true, WriterActs()).l.accesses == map[]
  {
    hide LocalRun;
    var l0 := Fresh();
    var l1 := l0.(phase := Waiting(true));
    var r4 := [AExit(0, false)] + [];
    var r3 := [ACommit(0, Inc)] + r4;
    var r2 := [ASnapshot(0)] + r3;
    Then(1, l0, sh, true, ABegin(true), [AAcquire] + r2, Out(l1, sh));
    var sh1 := sh.(turn := Some(1));
    var l2 := Local(true, Some(Entry(1, 0, 1, 0, true, None)), map[0 := Writing(true, None, false)], 1, map[], [], Running, 1, 0, [], [], []);
    Then(1, l1, sh, true, AAcquire, r2, Out(l2, sh1));
    var snap := Some(Snap(sh.committed, |sh.log|, Some(1)));
    var l3 := l2.(accesses := map[0 := Writing(true, snap, false)]);
    Then(1, l2, sh1, true, ASnapshot(0), r3, Out(l3, sh1));
    var l4 := l2.(accesses := map[0 := Writing(true, snap, true)]);
    var sh2 := Shared(sh.committed + 1, Some(1), sh.log + [WriterCommit(sh)]);
    Then(1, l3, sh1, true, ACommit(0, Inc), r4, Out(l4, sh2));
    var l5 := l2.(accesses := map[], entry := None);
    Then(1, l4, sh2, true, AExit(0, false), [], Out(l5, sh2.(turn := None)));
    RunNothing(1, l5, sh2.(turn := None), true);
  }

  lemma RunNothing(t: Thread, l: Local, sh: Shared, free: bool)
    ensures LocalRun(t, l, sh, free, []) == Out(l, sh)
  {
  }

  function Deferring(base: Value, since: nat, tenure: Option<nat>): Write {
    Write(0, Some(base + 1), Some(Snap(base, since, tenure)))
  }

  /** Thread 0, just after it let go of the lock of a read in which it deferred the write `w`. */
  function ReadEnding(w: Write, h: nat, next: nat, tenure: nat): Local {
    Local(true, Some(Entry(1, 0, 0, 0, false, Some([w]))), map[h := Reading(false)], next, map[], [], Running, tenure, 0, [w], [], [])
  }

  function EndActs(h: nat, next: nat): seq<Action> {
    [AExit(h, false)] + ([AFlushTurn] + ([AResume] + ([ADrain(next)] + [])))
  }

  /** Thread 0, draining the write `w`. */
  function DrainingOf(w: Write, next: nat, tenure: nat): Local {
    Local(true, Some(Entry(1, 0, 0, 0, true, Some([w]))), map[next := Draining(0, false)], next + 1, map[], [], Running,
          tenure, next, [w], [], [])
  }

  lemma ReadFlushes(w: Write, h: nat, next: nat, tenure: nat, sh: Shared, rest: seq<Action>)
    requires sh.turn.None?
    ensures LocalRun(0, ReadEnding(w, h, next, tenure), sh, true, [AExit(h, false)] + ([AFlushTurn] + ([AResume] + rest)))
         == LocalRun(0, DrainingOf(w, next, tenure + 1), sh.(turn := Some(0)), true, rest)
  {
    hide LocalRun;
    var l0 := ReadEnding(w, h, next, tenure);
    var l1 := l0.(entry := None, accesses := map[], phase := Flushing([w], false));
    var r2 := [AResume] + rest;
    assert l0.accesses - {h} == map[];
    Then(0, l0, sh, true, AExit(h, false), [AFlushTurn] + r2, Out(l1, sh));
    var sh1 := sh.(turn := Some(0));
    var l2 := l1.(phase := Flushing([w], true), tenure := tenure + 1);
    Then(0, l1, sh, true, AFlushTurn, r2, Out(l2, sh1));
    assert [w] + [] == [w];
    Then(0, l2, sh1, true, AResume, rest, Out(DrainingOf(w, next, tenure + 1), sh1));
  }

  /** The read ends: its deferred write is flushed, and committed over whatever was committed meanwhile. */
  lemma ReadEnds(w: Write, h: nat, next: nat, tenure: nat, sh: Shared)
    requires sh.turn.None? && w.value.Some? && w.snap.Some?
    requires w.snap.value.tenure == None || w.snap.value.tenure == Some(tenure)
    ensures LocalRun(0, ReadEnding(w, h, next, tenure), sh, true, EndActs(h, next)).sh
         == Shared(w.value.value, Some(0),
                   sh.log + [Commit(0, Put(w.value.value), w.snap, if w.snap.value.tenure.None? then Unheld else Moved)])
  {
    hide LocalRun;
    ReadFlushes(w, h, next, tenure, sh, [ADrain(next)] + []);
    var l, sh1 := DrainingOf(w, next, tenure + 1), sh.(turn := Some(0));
    var o := Drain(0, l, sh1, true, next);
    Then(0, l, sh1, true, ADrain(next), [], o);
    RunNothing(0, o.l, o.sh, true);
  }

  function ReadActs(): seq<Action> {
    [ARead] + ([AUpdate] + ([AFinish(1, Inc)] + ([AUnlock(0)] + [])))
  }

  /** Thread 0 reads the signal and updates it inside the read. */
  lemma ReadDefers(sh: Shared, free: bool)
    requires sh.turn.None?
    ensures LocalRun(0, Fresh(), sh, free, ReadActs()) == Out(ReadEnding(Deferring(sh.committed, |sh.log|, None), 0, 2, 0), sh)
  {
    hide LocalRun;
    var snap := Snap(sh.committed, |sh.log|, None);
    var w := Deferring(sh.committed, |sh.log|, None);
    var l1 := Fresh().(entry := Some(Entry(1, 0, 0, 0, false, None)), accesses := map[0 := Reading(true)], next := 1);
    var r3 := [AUnlock(0)] + [];
    var r2 := [AFinish(1, Inc)] + r3;
    var r1 := [AUpdate] + r2;
    Then(0, Fresh(), sh, free, ARead, r1, Out(l1, sh));
    var l2 := l1.(loose := map[1 := Loose(snap, true)], next := 2);
    Then(0, l1, sh, free, AUpdate, r2, Out(l2, sh));
    var l3 := l2.(loose := map[], made := [w], entry := Some(Entry(1, 0, 0, 0, false, Some([w]))));
    assert l2.loose - {1} == map[] && [] + [w] == [w] && [w] + [] == [w];
    Then(0, l2, sh, free, AFinish(1, Inc), r3, Out(l3, sh));
    var l4 := ReadEnding(w, 0, 2, 0);
    Then(0, l3, sh, free, AUnlock(0), [], Out(l4, sh));
    RunNothing(0, l4, sh, free);
  }

  lemma StartReachable(init: Value)
    ensures Reachable(Start(init))
  {
    assert Start(init) == Run(Start(init), []);
  }

  /**
  An update inside a read is lost: both threads add one to 0, and the value ends at 1.
  */
  lemma UpdateInsideReadIsLost() returns (s: Signal)
    ensures Reachable(s) && s.init == 0 && s.sh.committed == 1 && |s.sh.log| == 2
    ensures s.sh.log[1].mode == Unheld && !Isolated(s.sh.log, 1)
  {
    hide LocalRun;
    StartReachable(0);
    ReadDefers(Start(0).sh, true);
    var s1 := Turns(Start(0), 0, ReadActs());
    assert OthersUnlocked(s1, 1);
    WriterIncrements(s1.sh);
    var s2 := Turns(s1, 1, WriterActs());
    assert OthersUnlocked(s2, 0);
    ReadEnds(Deferring(0, 0, None), 0, 2, 0, s2.sh);
    s := Turns(s2, 0, EndActs(0, 2));
    assert s.sh.log[0].who == 1 && s.sh.log[1].who == 0;
  }

  function MovingActs(): seq<Action> {
    [ABegin(true)] + ([AAcquire] + ([ASnapshot(0)] + ([AUpdate] + MovedActs())))
  }

  function MovedActs(): seq<Action> {
    [ACommit(0, Same)] + ([AExit(0, false)] + ReadOnActs())
  }

  function ReadOnActs(): seq<Action> {
    [ARead] + ([AFinish(1, Inc)] + ([AUnlock(2)] + []))
  }

  /** A write guard of thread 0, on the value 0, with an update running inside its use. */
  function GuardHeld(done: bool): Local {
    Local(true, Some(Entry(1, 0, 1, 0, true, None)), map[0 := Writing(true, Some(Snap(0, 0, Some(1))), done)], 2,
          map[1 := Loose(Snap(0, 0, Some(1)), true)], [], Running, 1, 0, [], [], [])
  }

  lemma GuardTaken(sh: Shared, rest: seq<Action>)
    requires sh == Shared(0, None, [])
    ensures LocalRun(0, Fresh(), sh, true, [ABegin(true)] + ([AAcquire] + ([ASnapshot(0)] + ([AUpdate] + rest))))
         == LocalRun(0, GuardHeld(false), sh.(turn := Some(0)), true, rest)
  {
    hide LocalRun;
    var l1 := Fresh().(phase := Waiting(true));
    var r3 := [AUpdate] + rest;
    var r2 := [ASnapshot(0)] + r3;
    Then(0, Fresh(), sh, true, ABegin(true), [AAcquire] + r2, Out(l1, sh));
    var sh1 := sh.(turn := Some(0));
    var l2 := GuardHeld(false).(accesses := map[0 := Writing(true, None, false)], next := 1, loose := map[]);
    Then(0, l1, sh, true, AAcquire, r2, Out(l2, sh1));
    var l3 := GuardHeld(false).(next := 1, loose := map[]);
    Then(0, l2, sh1, true, ASnapshot(0), r3, Out(l3, sh1));
    Then(0, l3, sh1, true, AUpdate, rest, Out(GuardHeld(false), sh1));
  }

  function OwnCommit(): Commit {
    Commit(0, Apply(Same), Some(Snap(0, 0, Some(1))), Held)
  }

  /** The same thread after the guard is dropped, inside the update's closure. */
  function GuardGone(): Local {
    GuardHeld(true).(entry := None, accesses := map[])
  }

  lemma GuardDropped(sh: Shared, rest: seq<Action>)
    requires sh == Shared(0, Some(0), [])
    ensures LocalRun(0, GuardHeld(false), sh, true, [ACommit(0, Same)] + ([AExit(0, false)] + rest))
         == LocalRun(0, GuardGone(), Shared(0, None, [OwnCommit()]), true, rest)
  {
    hide LocalRun;
    var sh1 := Shared(0, Some(0), [OwnCommit()]);
    Then(0, GuardHeld(false), sh, true, ACommit(0, Same), [AExit(0, false)] + rest, Out(GuardHeld(true), sh1));
    assert GuardHeld(true).accesses - {0} == map[];
    Then(0, GuardHeld(true), sh1, true, AExit(0, false), rest, Out(GuardGone(), sh1.(turn := None)));
  }

  /** The closure then reads the signal, and the read outlives the update. */
  lemma ReadOn(sh: Shared)
    requires sh.turn.None?
    ensures LocalRun(0, GuardGone(), sh, true, ReadOnActs()) == Out(ReadEnding(Deferring(0, 0, Some(1)), 2, 3, 1), sh)
  {
    hide LocalRun;
    var w := Deferring(0, 0, Some(1));
    var r4 := [AUnlock(2)] + [];
    var l3 := GuardGone().(entry := Some(Entry(1, 0, 0, 0, false, None)), accesses := map[2 := Reading(true)], next := 3);
    Then(0, GuardGone(), sh, true, ARead, [AFinish(1, Inc)] + r4, Out(l3, sh));
    var l4 := ReadEnding(w, 2, 3, 1).(accesses := map[2 := Reading(true)]);
    assert l3.loose - {1} == map[] && [] + [w] == [w] && [w] + [] == [w];
    Then(0, l3, sh, true, AFinish(1, Inc), r4, Out(l4, sh));
    Then(0, l4, sh, true, AUnlock(2), [], Out(ReadEnding(w, 2, 3, 1), sh));
    RunNothing(0, ReadEnding(w, 2, 3, 1), sh, true);
  }

  /** An update under the turn is lost too if its closure ends the use that had the turn. */
  lemma MovedUpdateIsLost() returns (s: Signal)
    ensures Reachable(s) && s.init == 0 && s.sh.committed == 1 && |s.sh.log| == 3
    ensures s.sh.log[2].mode == Moved && !Isolated(s.sh.log, 2)
  {
    hide LocalRun;
    StartReachable(0);
    GuardTaken(Start(0).sh, MovedActs());
    GuardDropped(Shared(0, Some(0), []), ReadOnActs());
    ReadOn(Shared(0, None, [OwnCommit()]));
    var s1 := Turns(Start(0), 0, MovingActs());
    assert OthersUnlocked(s1, 1);
    WriterIncrements(s1.sh);
    var s2 := Turns(s1, 1, WriterActs());
    assert OthersUnlocked(s2, 0);
    ReadEnds(Deferring(0, 0, Some(1)), 2, 3, 1, s2.sh);
    s := Turns(s2, 0, EndActs(2, 3));
    assert s.sh.log[1].who == 1 && s.sh.log[2].who == 0;
  }

  /** A thread whose record is gone, with an update running on the value 0. */
  function Unrecorded0(): Local {
    Fresh().(available := false, loose := map[0 := Loose(Snap(0, 0, None), false)], next := 1)
  }

  function ShutdownActs(): seq<Action> {
    [AShutdown] + ([AUpdateUnrecorded] + [])
  }

  lemma ShutDown(sh: Shared)
    requires sh == Shared(0, None, [])
    ensures LocalRun(0, Fresh(), sh, true, ShutdownActs()) == Out(Unrecorded0(), sh)
  {
    hide LocalRun;
    var l1 := Fresh().(available := false);
    Then(0, Fresh(), sh, true, AShutdown, [AUpdateUnrecorded] + [], Out(l1, sh));
    Then(0, l1, sh, true, AUpdateUnrecorded, [], Out(Unrecorded0(), sh));
    RunNothing(0, Unrecorded0(), sh, true);
  }

  lemma UnrecordedFinishes(sh: Shared)
    requires sh.turn.None?
    ensures LocalRun(0, Unrecorded0(), sh, true, [AFinishUnrecorded(0, Inc)] + []).sh
         == Shared(1, None, sh.log + [Commit(0, Put(1), Some(Snap(0, 0, None)), Unrecorded)])
  {
    hide LocalRun;
    var o := FinishUnrecorded(0, Unrecorded0(), sh, true, 0, Inc);
    Then(0, Unrecorded0(), sh, true, AFinishUnrecorded(0, Inc), [], o);
    RunNothing(0, o.l, o.sh, true);
  }

  /** An update by a thread whose record is gone is lost the same way. */
  lemma UnrecordedUpdateIsLost() returns (s: Signal)
    ensures Reachable(s) && s.init == 0 && s.sh.committed == 1 && |s.sh.log| == 2
    ensures s.sh.log[1].mode == Unrecorded && !Isolated(s.sh.log, 1)
  {
    hide LocalRun;
    StartReachable(0);
    ShutDown(Start(0).sh);
    var s1 := Turns(Start(0), 0, ShutdownActs());
    assert OthersUnlocked(s1, 1);
    WriterIncrements(s1.sh);
    var s2 := Turns(s1, 1, WriterActs());
    assert OthersUnlocked(s2, 0);
    UnrecordedFinishes(s2.sh);
    s := Turns(s2, 0, [AFinishUnrecorded(0, Inc)] + []);
    assert s.sh.log[0].who == 1 && s.sh.log[1].who == 0;
  }

  /**
  No other thread's commit comes between an update's copy and its commit, in every run, exactly if
  the copy was made under the turn that it is committed under (a plain `set` copies nothing).
  */
  lemma IsolatedExactlyUnderTheTurn(m: Mode)
    ensures AlwaysIsolated(m) <==> m == Held || m == Blind
  {
    if m == Held || m == Blind {
      forall s: Signal, i: nat | Reachable(s) && i < |s.sh.log| && s.sh.log[i].mode == m ensures Isolated(s.sh.log, i) {
        ReachableKeeps(s);
      }
    } else {
      var s0 := UpdateInsideReadIsLost();
      var s1 := MovedUpdateIsLost();
      var s2 := UnrecordedUpdateIsLost();
    }
  }
}
