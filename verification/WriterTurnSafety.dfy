/**
What every step of the writer-turn protocol keeps, and what follows for every run of any number
of threads: the record and the turn agree, no thread waits for itself, deferred writes are
conserved, and the committed value is the fold of the commits in the order of the turn.
*/
module WriterTurnSafety {
  import opened Basics
  import opened Reentry
  import opened WriterTurn

  // ---- The invariant of one thread

  /** The turn is this thread's exactly while its record (or its flush) holds it. */
  ghost predicate TurnOk(t: Thread, l: Local, sh: Shared) {
    sh.turn == Some(t) <==> HasTurn(l)
  }

  /** The record counts the live accesses; a thread that waits holds nothing of the signal. */
  ghost predicate RecordOk(l: Local) {
    && (l.available ==> (l.entry.Some? <==> |l.accesses| > 0))
    && (l.entry.Some? ==> l.available && l.entry.value.depth == |l.accesses|)
    && (!l.phase.Running? ==> l.available && l.entry.None?)
    && (forall h :: h in l.accesses ==> h < l.next)
  }

  /** A use begun by `begin_write` or `resume_write`. */
  predicate Leads(a: Access) {
    a.Writing? || a.Draining?
  }

  /**
  A use has at most one leader, which holds the turn; and while a started write works on its copy,
  the copy is the committed value: nothing is committed in between.
  */
  ghost predicate LeaderOk(l: Local, sh: Shared) {
    && (forall h :: h in l.accesses && Leads(l.accesses[h]) ==> h == l.leader)
    && (l.entry.Some? ==> forall h :: h in l.accesses && Leads(l.accesses[h]) ==> l.entry.value.turn)
    && (l.entry.Some? ==> forall h :: h in l.accesses ==> FreshCopy(l, sh, l.accesses[h]))
  }

  ghost predicate FreshCopy(l: Local, sh: Shared, a: Access) {
    a.Writing? && a.snap.Some? && !a.done ==> a.snap.value == Snap(sh.committed, |sh.log|, Some(l.tenure))
  }

  ghost predicate OnlyBy(t: Thread, log: seq<Commit>, from: nat) {
    forall j :: from <= j < |log| ==> log[j].who == t
  }

  /** A copy made in the current tenure of the turn has seen no other thread's commit since. */
  ghost predicate SnapOk(t: Thread, tenure: nat, has: bool, log: seq<Commit>, s: Snap) {
    && s.since <= |log|
    && (s.tenure.Some? ==> s.tenure.value <= tenure)
    && (has && s.tenure == Some(tenure) ==> OnlyBy(t, log, s.since))
  }

  ghost predicate QueueOk(t: Thread, tenure: nat, has: bool, log: seq<Commit>, q: seq<Write>) {
    forall w :: w in q && w.snap.Some? ==> SnapOk(t, tenure, has, log, w.snap.value)
  }

  function CopyOf(a: Access): Option<Snap> {
    match a
    case Writing(_, snap, _) => snap
    case Guarding(copy, _) => Some(copy)
    case _ => None
  }

  ghost predicate CopiesOk(t: Thread, tenure: nat, has: bool, log: seq<Commit>,
                           accesses: map<nat, Access>, loose: map<nat, Loose>) {
    && (forall h :: h in accesses && CopyOf(accesses[h]).Some? ==> SnapOk(t, tenure, has, log, CopyOf(accesses[h]).value))
    && (forall h :: h in loose ==> SnapOk(t, tenure, has, log, loose[h].snap))
  }

  ghost predicate SnapsOk(t: Thread, l: Local, sh: Shared) {
    && CopiesOk(t, l.tenure, HasTurn(l), sh.log, l.accesses, l.loose)
    && QueueOk(t, l.tenure, HasTurn(l), sh.log, Queue(l))
    && QueueOk(t, l.tenure, HasTurn(l), sh.log, Flatten(l.out))
  }

  ghost predicate Accounted(made: seq<Write>, applied: seq<Write>, dropped: seq<Write>, queue: seq<Write>, out: seq<Write>) {
    multiset(made) == multiset(applied) + multiset(dropped) + multiset(queue) + multiset(out)
  }

  /** Every write this thread deferred is in exactly one place. */
  ghost predicate Conserved(l: Local) {
    && Accounted(l.made, l.applied, l.dropped, Queue(l), Flatten(l.out))
    && (forall i :: 0 <= i < |l.made| ==> l.made[i].uid == i)
  }

  ghost predicate LocalInv(t: Thread, l: Local, sh: Shared) {
    TurnOk(t, l, sh) && RecordOk(l) && LeaderOk(l, sh) && SnapsOk(t, l, sh) && Conserved(l)
  }

  /** What one thread's step may do to what the threads share. */
  ghost predicate Guarantee(t: Thread, sh: Shared, sh': Shared) {
    && sh.log <= sh'.log && OnlyBy(t, sh'.log, |sh.log|)
    && (sh'.turn == sh.turn || (sh.turn.None? && sh'.turn == Some(t)) || (sh.turn == Some(t) && sh'.turn.None?))
    && (sh.turn.None? || sh.turn == Some(t) || (sh'.log == sh.log && sh'.committed == sh.committed))
  }

  // ---- Copies

  lemma SnapKept(t: Thread, tenure: nat, has: bool, log: seq<Commit>, tenure': nat, has': bool, log': seq<Commit>, s: Snap)
    requires SnapOk(t, tenure, has, log, s)
    requires log <= log' && OnlyBy(t, log', |log|)
    requires tenure' == tenure + 1 || (tenure' == tenure && (has' ==> has))
    ensures SnapOk(t, tenure', has', log', s)
  {
  }

  /** Everything copied before stays as it was after a step of the same thread. */
  lemma SnapsKept(t: Thread, tenure: nat, has: bool, log: seq<Commit>, tenure': nat, has': bool, log': seq<Commit>,
                  accesses: map<nat, Access>, loose: map<nat, Loose>, q: seq<Write>, q2: seq<Write>)
    requires CopiesOk(t, tenure, has, log, accesses, loose)
    requires QueueOk(t, tenure, has, log, q) && QueueOk(t, tenure, has, log, q2)
    requires log <= log' && OnlyBy(t, log', |log|)
    requires tenure' == tenure + 1 || (tenure' == tenure && (has' ==> has))
    ensures CopiesOk(t, tenure', has', log', accesses, loose)
    ensures QueueOk(t, tenure', has', log', q) && QueueOk(t, tenure', has', log', q2)
  {
    forall s | SnapOk(t, tenure, has, log, s) ensures SnapOk(t, tenure', has', log', s) {
      SnapKept(t, tenure, has, log, tenure', has', log', s);
    }
  }

  /** A copy made now is up to date. */
  lemma SnappedOk(t: Thread, l: Local, sh: Shared, base: Value)
    ensures SnapOk(t, l.tenure, HasTurn(l), sh.log, Snapped(l, sh, base))
  {
  }

  // ---- Moving deferred writes

  lemma Drop(made: seq<Write>, applied: seq<Write>, dropped: seq<Write>, queue: seq<Write>, out: seq<Write>)
    requires Accounted(made, applied, dropped, queue, out)
    ensures Accounted(made, applied, dropped + queue, [], out)
  {
  }

  lemma Make(made: seq<Write>, applied: seq<Write>, dropped: seq<Write>, queue: seq<Write>, out: seq<Write>, w: Write)
    requires Accounted(made, applied, dropped, queue, out)
    ensures Accounted(made + [w], applied, dropped, queue + [w], out)
    ensures Accounted(made + [w], applied, dropped, [w] + queue, out)
    ensures Accounted(made + [w], applied, dropped + [w], queue, out)
  {
  }

  lemma PutLast(made: seq<Write>, applied: seq<Write>, dropped: seq<Write>, queue: seq<Write>, out: seq<Write>, last: seq<Write>)
    requires Accounted(made, applied, dropped, queue, out + last)
    ensures Accounted(made, applied, dropped, last + queue, out)
    ensures Accounted(made, applied, dropped + last, queue, out)
  {
  }

  lemma ApplyFirst(made: seq<Write>, applied: seq<Write>, dropped: seq<Write>, queue: seq<Write>, out: seq<Write>)
    requires Accounted(made, applied, dropped, queue, out) && queue != []
    ensures Accounted(made, applied + [queue[0]], dropped, queue[1..], out)
  {
    assert queue == [queue[0]] + queue[1..];
  }

  // ---- Counting accesses

  lemma CardAdd<V>(m: map<nat, V>, k: nat, v: V)
    requires k !in m
    ensures |m[k := v]| == |m| + 1
  {
  }

  lemma CardRemove<V>(m: map<nat, V>, k: nat)
    requires k in m
    ensures |m - {k}| == |m| - 1
  {
    assert (m - {k}).Keys == m.Keys - {k};
    assert |m.Keys - {k}| == |m.Keys| - 1;
  }

  // ---- Each step keeps the invariant

  /** Starting an access that leads nothing keeps the invariant, if its copy is up to date. */
  lemma OpenKeeps(t: Thread, l: Local, sh: Shared, a: Access, e: Entry<Write>)
    requires LocalInv(t, l, sh) && l.phase.Running? && !Leads(a) && |l.accesses| < USIZE_MAX
    requires e == Entered(EntryOf(l), KindOf(a))
    requires CopyOf(a).Some? ==> SnapOk(t, l.tenure, HasTurn(l), sh.log, CopyOf(a).value)
    ensures LocalInv(t, Opened(l, a, e), sh)
  {
    hide SnapOk, Accounted, Flatten;
    CardAdd(l.accesses, l.next, a);
    var l' := Opened(l, a, e);
    assert l'.entry.Some? ==> l'.entry.value.turn == EntryOf(l).turn && l'.entry.value.pending == EntryOf(l).pending
                              && l'.entry.value.depth == |l.accesses| + 1;
    assert HasTurn(l') == HasTurn(l) && Queue(l') == Queue(l);
  }

  lemma ReadKeeps(t: Thread, l: Local, sh: Shared)
    requires LocalInv(t, l, sh) && l.phase.Running?
    ensures LocalInv(t, ReadEnter(l), sh)
  {
    if |l.accesses| < USIZE_MAX {
      OpenKeeps(t, l, sh, Reading(true), Entered(EntryOf(l), Read));
    }
  }

  lemma UnlockKeeps(t: Thread, l: Local, sh: Shared, h: nat)
    requires LocalInv(t, l, sh) && l.phase.Running?
    ensures LocalInv(t, ReadUnlock(l, h), sh)
  {
    hide SnapOk, Accounted, Flatten;
  }

  /** Ending an access leaves the counts right, and hands over only when none is left. */
  lemma ExitCounts(t: Thread, l: Local, sh: Shared, h: nat, panicking: bool)
    requires LocalInv(t, l, sh) && l.phase.Running? && CanExit(l, h, panicking)
    ensures var o := Exit(l, sh, h, panicking);
      TurnOk(t, o.l, o.sh) && RecordOk(o.l) && LeaderOk(o.l, o.sh) && Guarantee(t, sh, o.sh)
  {
    hide SnapsOk, Conserved;
    CardRemove(l.accesses, h);
  }

  lemma ExitShape(l: Local, sh: Shared, h: nat, panicking: bool)
    requires l.phase.Running? && CanExit(l, h, panicking)
    ensures var o := Exit(l, sh, h, panicking);
      && o.l.accesses == l.accesses - {h} && o.l.loose == l.loose && o.l.tenure == l.tenure && o.l.out == l.out
      && o.sh.log == sh.log && (HasTurn(o.l) ==> HasTurn(l)) && o.l.made == l.made && o.l.applied == l.applied
      && ((Queue(o.l) == Queue(l) && o.l.dropped == l.dropped) || (Queue(o.l) == [] && o.l.dropped == l.dropped + Queue(l)))
  {
    hide Flatten;
  }

  lemma ConservedShrinks(l: Local, l': Local)
    requires Conserved(l) && l'.made == l.made && l'.applied == l.applied && l'.out == l.out
    requires (Queue(l') == Queue(l) && l'.dropped == l.dropped) || (Queue(l') == [] && l'.dropped == l.dropped + Queue(l))
    ensures Conserved(l')
  {
    Drop(l.made, l.applied, l.dropped, Queue(l), Flatten(l.out));
  }

  /** Letting go of accesses, of the turn or of the queue leaves the copies that stay up to date. */
  lemma SnapsShrink(t: Thread, l: Local, sh: Shared, l': Local, sh': Shared, h: nat)
    requires SnapsOk(t, l, sh)
    requires l'.accesses == l.accesses - {h} && l'.loose == l.loose && l'.tenure == l.tenure && l'.out == l.out
    requires sh'.log == sh.log && (HasTurn(l') ==> HasTurn(l)) && (Queue(l') == Queue(l) || Queue(l') == [])
    ensures SnapsOk(t, l', sh')
  {
    SnapsKept(t, l.tenure, HasTurn(l), sh.log, l.tenure, HasTurn(l'), sh.log,
              l.accesses, l.loose, Queue(l), Flatten(l.out));
  }

  lemma ExitKeeps(t: Thread, l: Local, sh: Shared, h: nat, panicking: bool)
    requires LocalInv(t, l, sh) && l.phase.Running?
    ensures var o := Exit(l, sh, h, panicking); LocalInv(t, o.l, o.sh) && Guarantee(t, sh, o.sh)
  {
    hide SnapsOk, Conserved;
    if CanExit(l, h, panicking) {
      ExitCounts(t, l, sh, h, panicking);
      ExitShape(l, sh, h, panicking);
      var o := Exit(l, sh, h, panicking);
      ConservedShrinks(l, o.l);
      SnapsShrink(t, l, sh, o.l, o.sh, h);
    }
  }

  lemma BeginKeeps(t: Thread, l: Local, sh: Shared, snapshot: bool)
    requires LocalInv(t, l, sh) && l.phase.Running?
    ensures LocalInv(t, BeginWrite(l, snapshot), sh)
  {
  }

  lemma AcquireKeeps(t: Thread, l: Local, sh: Shared)
    requires LocalInv(t, l, sh)
    ensures var o := Acquire(t, l, sh); LocalInv(t, o.l, o.sh) && Guarantee(t, sh, o.sh)
  {
    hide SnapOk, Accounted, Flatten;
    if l.phase.Waiting? && sh.turn.None? {
      var o := Acquire(t, l, sh);
      CardAdd(l.accesses, l.next, Writing(l.phase.snapshot, None, false));
      SnapsKept(t, l.tenure, HasTurn(l), sh.log, o.l.tenure, HasTurn(o.l), o.sh.log,
                l.accesses, l.loose, Queue(l), Flatten(l.out));
    }
  }

  lemma SnapshotKeeps(t: Thread, l: Local, sh: Shared, h: nat)
    requires LocalInv(t, l, sh) && l.phase.Running?
    ensures LocalInv(t, TakeSnapshot(l, sh, h), sh)
  {
    SnappedOk(t, l, sh, sh.committed);
  }

  /** Deferring a write moves it into the queue, or gives it up where nothing would apply it. */
  lemma DeferConserves(l: Local, value: Option<Value>, snap: Option<Snap>, first: bool)
    requires Conserved(l) && l.phase.Running? && (l.entry.Some? ==> l.available)
    ensures Conserved(Deferred(l, value, snap, first))
    ensures forall w :: w in Queue(Deferred(l, value, snap, first)) ==> w in Queue(l) || w.snap == snap
  {
    var q, w := Queue(l), Write(|l.made|, value, snap);
    Make(l.made, l.applied, l.dropped, q, Flatten(l.out), w);
    var l' := Deferred(l, value, snap, first);
    assert l'.made == l.made + [w] && l'.applied == l.applied && l'.out == l.out;
    assert l.entry.Some? ==> Queue(l') == (if first then [w] + q else q + [w]) && l'.dropped == l.dropped;
  }

  /** A step that only moves deferred writes, or adds one with a copy that is up to date. */
  lemma QueueMoves(t: Thread, l: Local, sh: Shared, l': Local, snap: Option<Snap>)
    requires LocalInv(t, l, sh)
    requires l'.available == l.available && l'.accesses == l.accesses && l'.next == l.next && l'.loose == l.loose
    requires l'.phase == l.phase && l'.tenure == l.tenure && l'.leader == l.leader
    requires l'.entry.Some? == l.entry.Some?
    requires l.entry.Some? ==> l'.entry.value.depth == l.entry.value.depth && l'.entry.value.turn == l.entry.value.turn
    requires snap.Some? ==> SnapOk(t, l.tenure, HasTurn(l), sh.log, snap.value)
    requires forall w :: w in Queue(l') || w in Flatten(l'.out) ==> w in Queue(l) || w in Flatten(l.out) || w.snap == snap
    requires Conserved(l')
    ensures LocalInv(t, l', sh)
  {
    hide SnapOk, Conserved, Flatten;
  }

  lemma DeferKeeps(t: Thread, l: Local, sh: Shared, value: Option<Value>, snap: Option<Snap>, first: bool)
    requires LocalInv(t, l, sh) && l.phase.Running?
    requires snap.Some? ==> SnapOk(t, l.tenure, HasTurn(l), sh.log, snap.value)
    ensures LocalInv(t, Deferred(l, value, snap, first), sh)
  {
    hide SnapOk, SnapsOk, Conserved;
    DeferConserves(l, value, snap, first);
    QueueMoves(t, l, sh, Deferred(l, value, snap, first), snap);
  }

  /** A committed value goes on top of the log, under this thread's turn. */
  lemma CommitKeeps(t: Thread, l: Local, sh: Shared, free: bool, h: nat, value: Value, effect: Effect)
    requires LocalInv(t, l, sh) && l.phase.Running?
    requires h in l.accesses && l.accesses[h].Writing? && !l.accesses[h].done
    ensures var o := CommitValue(t, l, sh, free, h, value, effect); LocalInv(t, o.l, o.sh) && Guarantee(t, sh, o.sh)
  {
    hide SnapOk, Accounted, Flatten;
    var Writing(snapshot, snap, _) := l.accesses[h];
    var l' := l.(accesses := l.accesses[h := Writing(snapshot, snap, true)]);
    assert LocalInv(t, l', sh);
    if !Alone(l) {
      DeferKeeps(t, l', sh, Some(value), snap, true);
    } else {
      var o := CommitValue(t, l, sh, free, h, value, effect);
      SnapsKept(t, l'.tenure, HasTurn(l'), sh.log, l'.tenure, HasTurn(l'), o.sh.log,
                l'.accesses, l'.loose, Queue(l'), Flatten(l'.out));
    }
  }

  lemma GuardKeeps(t: Thread, l: Local, sh: Shared)
    requires LocalInv(t, l, sh) && l.phase.Running?
    ensures LocalInv(t, NestedGuard(l, sh), sh)
  {
    if |l.accesses| < USIZE_MAX {
      SnappedOk(t, l, sh, BaseFor(l, sh));
      OpenKeeps(t, l, sh, Guarding(Snapped(l, sh, BaseFor(l, sh)), false), Entered(EntryOf(l), Snapshot));
    }
  }

  lemma DeferGuardKeeps(t: Thread, l: Local, sh: Shared, h: nat, f: Value -> Value)
    requires LocalInv(t, l, sh) && l.phase.Running?
    ensures LocalInv(t, DeferGuard(l, h, f), sh)
  {
    hide SnapOk;
    if h in l.accesses && l.accesses[h].Guarding? && !l.accesses[h].done {
      var copy := l.accesses[h].copy;
      var l' := l.(accesses := l.accesses[h := Guarding(copy, true)]);
      assert LocalInv(t, l', sh);
      DeferKeeps(t, l', sh, Some(f(copy.base)), Some(copy), false);
    }
  }

  lemma UpdateKeeps(t: Thread, l: Local, sh: Shared)
    requires LocalInv(t, l, sh) && l.phase.Running?
    ensures LocalInv(t, NestedUpdate(l, sh), sh)
  {
    SnappedOk(t, l, sh, BaseFor(l, sh));
  }

  lemma FinishKeeps(t: Thread, l: Local, sh: Shared, h: nat, f: Value -> Value)
    requires LocalInv(t, l, sh) && l.phase.Running?
    ensures LocalInv(t, FinishNested(l, h, f), sh)
  {
    hide SnapOk;
    if h in l.loose && l.loose[h].recorded {
      var snap := l.loose[h].snap;
      var l' := l.(loose := l.loose - {h});
      assert LocalInv(t, l', sh);
      DeferKeeps(t, l', sh, Some(f(snap.base)), Some(snap), false);
    }
  }

  lemma TakeConserves(l: Local)
    requires Conserved(l) && l.phase.Running?
    ensures Conserved(TakeOut(l))
    ensures Flatten(TakeOut(l).out) + Queue(TakeOut(l)) == Flatten(l.out) + Queue(l)
  {
    if l.entry.Some? && l.entry.value.pending.Some? {
      FlattenSnoc(l.out, l.entry.value.pending.value);
    }
  }

  lemma TakeKeeps(t: Thread, l: Local, sh: Shared)
    requires LocalInv(t, l, sh) && l.phase.Running?
    ensures LocalInv(t, TakeOut(l), sh)
  {
    hide SnapOk, SnapsOk, Conserved;
    TakeConserves(l);
    var l' := TakeOut(l);
    forall w | w in Queue(l') || w in Flatten(l'.out) ensures w in Queue(l) || w in Flatten(l.out) {
      assert w in Flatten(l'.out) + Queue(l');
    }
    QueueMoves(t, l, sh, l', None);
  }

  lemma PutConserves(l: Local)
    requires Conserved(l) && l.phase.Running?
    ensures Conserved(PutBack(l))
    ensures l.entry.Some? ==> Flatten(PutBack(l).out) + Queue(PutBack(l)) == Flatten(l.out) + Queue(l)
    ensures l.entry.None? && l.out != [] ==>
      Queue(PutBack(l)) == [] && Flatten(PutBack(l).out) + l.out[|l.out| - 1] == Flatten(l.out)
  {
    hide Accounted, Flatten;
    if l.out != [] {
      var n := |l.out| - 1;
      assert l.out == l.out[..n] + [l.out[n]];
      FlattenSnoc(l.out[..n], l.out[n]);
      PutLast(l.made, l.applied, l.dropped, Queue(l), Flatten(l.out[..n]), l.out[n]);
    }
  }

  lemma PutKeeps(t: Thread, l: Local, sh: Shared)
    requires LocalInv(t, l, sh) && l.phase.Running?
    ensures LocalInv(t, PutBack(l), sh)
  {
    hide SnapOk, SnapsOk, Conserved, Flatten;
    PutConserves(l);
    var l' := PutBack(l);
    if l.out != [] {
      forall w | w in Queue(l') || w in Flatten(l'.out) ensures w in Queue(l) || w in Flatten(l.out) {
        assert w in Flatten(l'.out) + Queue(l');
        assert l.entry.None? ==> w in Flatten(l'.out) + l.out[|l.out| - 1];
      }
    }
    QueueMoves(t, l, sh, l', None);
  }

  lemma FlushTurnKeeps(t: Thread, l: Local, sh: Shared)
    requires LocalInv(t, l, sh)
    ensures var o := FlushTurn(t, l, sh); LocalInv(t, o.l, o.sh) && Guarantee(t, sh, o.sh)
  {
    hide SnapOk, Accounted, Flatten;
    var o := FlushTurn(t, l, sh);
    if o.sh != sh {
      SnapsKept(t, l.tenure, HasTurn(l), sh.log, o.l.tenure, HasTurn(o.l), o.sh.log,
                l.accesses, l.loose, Queue(l), Flatten(l.out));
    }
  }

  lemma ResumeKeeps(t: Thread, l: Local, sh: Shared)
    requires LocalInv(t, l, sh)
    ensures LocalInv(t, Resume(l), sh)
  {
    hide SnapOk, Accounted, Flatten;
    CardAdd(l.accesses, l.next, Draining(0, false));
    assert Queue(Resume(l)) == Queue(l);
  }

  lemma DrainQueue(t: Thread, l: Local, sh: Shared, free: bool, h: nat)
    requires l.phase.Running?
    ensures var l', q := Drain(t, l, sh, free, h).l, Queue(l);
      && l'.made == l.made && l'.out == l.out
      && ((Queue(l') == q && l'.dropped == l.dropped && l'.applied == l.applied)
          || (Queue(l') == [] && l'.dropped == l.dropped + q && l'.applied == l.applied)
          || (q != [] && Queue(l') == q[1..] && l'.dropped == l.dropped && l'.applied == l.applied + [q[0]]))
  {
    hide Flatten;
  }

  /** Writes are applied from the front of the queue, or given up together. */
  lemma DrainConserves(l: Local, l': Local)
    requires Conserved(l) && l'.made == l.made && l'.out == l.out
    requires var q := Queue(l);
      || (Queue(l') == q && l'.dropped == l.dropped && l'.applied == l.applied)
      || (Queue(l') == [] && l'.dropped == l.dropped + q && l'.applied == l.applied)
      || (q != [] && Queue(l') == q[1..] && l'.dropped == l.dropped && l'.applied == l.applied + [q[0]])
    ensures Conserved(l') && forall w :: w in Queue(l') ==> w in Queue(l)
  {
    Drop(l.made, l.applied, l.dropped, Queue(l), Flatten(l.out));
    if Queue(l) != [] {
      ApplyFirst(l.made, l.applied, l.dropped, Queue(l), Flatten(l.out));
    }
  }

  lemma DrainShares(t: Thread, l: Local, sh: Shared, free: bool, h: nat)
    requires LocalInv(t, l, sh) && l.phase.Running?
    ensures var o := Drain(t, l, sh, free, h); o.l.tenure == l.tenure && HasTurn(o.l) == HasTurn(l) && o.sh.turn == sh.turn
    ensures var o := Drain(t, l, sh, free, h); Guarantee(t, sh, o.sh) && RecordOk(o.l)
    ensures var o := Drain(t, l, sh, free, h); o.sh == sh || (HasTurn(l) && |l.accesses| == 1 && h in l.accesses && l.accesses[h].Draining?)
  {
    hide SnapsOk, Conserved;
  }

  lemma DrainShape(t: Thread, l: Local, sh: Shared, free: bool, h: nat)
    ensures var o := Drain(t, l, sh, free, h);
      && o.l.loose == l.loose && o.l.leader == l.leader && o.l.entry.Some? == l.entry.Some?
      && (l.entry.Some? ==> o.l.entry.value.turn == l.entry.value.turn)
      && (o.l.accesses == l.accesses
          || (h in l.accesses && l.accesses[h].Draining?
              && exists n, done :: o.l.accesses == l.accesses[h := Draining(n, done)]))
  {
    hide Flatten;
    var o := Drain(t, l, sh, free, h);
    if h in l.accesses && l.accesses[h].Draining? && !l.accesses[h].done && o.l.accesses != l.accesses {
      var n := l.accesses[h].applied;
      assert o.l.accesses == l.accesses[h := Draining(n, true)] || o.l.accesses == l.accesses[h := Draining(n + 1, false)];
    }
  }

  /** A drain is alone when it commits: no other use of this thread is working on a copy. */
  lemma DrainLeads(t: Thread, l: Local, sh: Shared, l': Local, sh': Shared, h: nat)
    requires LeaderOk(l, sh) && CopiesOk(t, l.tenure, HasTurn(l), sh.log, l.accesses, l.loose)
    requires l'.tenure == l.tenure && l'.leader == l.leader && l'.loose == l.loose && l'.entry.Some? == l.entry.Some?
    requires l.entry.Some? ==> l'.entry.value.turn == l.entry.value.turn
    requires l'.accesses == l.accesses
             || (h in l.accesses && l.accesses[h].Draining? && exists n, done :: l'.accesses == l.accesses[h := Draining(n, done)])
    requires sh' == sh || (|l.accesses| == 1 && h in l.accesses && l.accesses[h].Draining?)
    ensures LeaderOk(l', sh') && CopiesOk(t, l.tenure, HasTurn(l), sh.log, l'.accesses, l'.loose)
  {
    if sh' != sh {
      CardRemove(l.accesses, h);
      assert (l.accesses - {h}).Keys == {};
      assert forall k :: k in l.accesses ==> k == h || k in l.accesses - {h};
    }
  }

  lemma DrainKeeps(t: Thread, l: Local, sh: Shared, free: bool, h: nat)
    requires LocalInv(t, l, sh) && l.phase.Running?
    ensures var o := Drain(t, l, sh, free, h); LocalInv(t, o.l, o.sh) && Guarantee(t, sh, o.sh)
  {
    hide SnapOk;
    var o := Drain(t, l, sh, free, h);
    DrainQueue(t, l, sh, free, h);
    DrainConserves(l, o.l);
    DrainShares(t, l, sh, free, h);
    DrainShape(t, l, sh, free, h);
    DrainLeads(t, l, sh, o.l, o.sh, h);
    SnapsKept(t, l.tenure, HasTurn(l), sh.log, l.tenure, HasTurn(l), o.sh.log,
              o.l.accesses, o.l.loose, Queue(l), Flatten(l.out));
  }

  lemma ShutdownKeeps(t: Thread, l: Local, sh: Shared)
    requires LocalInv(t, l, sh) && l.phase.Running?
    ensures var o := Shutdown(l, sh); LocalInv(t, o.l, o.sh) && Guarantee(t, sh, o.sh)
  {
    hide SnapOk, Accounted, Flatten;
    Drop(l.made, l.applied, l.dropped, Queue(l), Flatten(l.out));
    var o := Shutdown(l, sh);
    SnapsKept(t, l.tenure, HasTurn(l), sh.log, o.l.tenure, HasTurn(o.l), o.sh.log,
              l.accesses, l.loose, Queue(l), Flatten(l.out));
  }

  lemma SetUnrecordedKeeps(t: Thread, l: Local, sh: Shared, free: bool, v: Value)
    requires LocalInv(t, l, sh) && l.phase.Running?
    ensures var sh' := SetUnrecorded(t, l, sh, free, v); LocalInv(t, l, sh') && Guarantee(t, sh, sh')
  {
    var sh' := SetUnrecorded(t, l, sh, free, v);
    SnapsKept(t, l.tenure, HasTurn(l), sh.log, l.tenure, HasTurn(l), sh'.log,
              l.accesses, l.loose, Queue(l), Flatten(l.out));
  }

  lemma UpdateUnrecordedKeeps(t: Thread, l: Local, sh: Shared)
    requires LocalInv(t, l, sh) && l.phase.Running?
    ensures LocalInv(t, UpdateUnrecorded(l, sh), sh)
  {
  }

  lemma FinishUnrecordedKeeps(t: Thread, l: Local, sh: Shared, free: bool, h: nat, f: Value -> Value)
    requires LocalInv(t, l, sh) && l.phase.Running?
    ensures var o := FinishUnrecorded(t, l, sh, free, h, f); LocalInv(t, o.l, o.sh) && Guarantee(t, sh, o.sh)
  {
    var o := FinishUnrecorded(t, l, sh, free, h, f);
    SnapsKept(t, l.tenure, HasTurn(l), sh.log, l.tenure, HasTurn(l), o.sh.log,
              l.accesses, l.loose, Queue(l), Flatten(l.out));
  }

  ghost predicate Kept(t: Thread, sh: Shared, o: Out) {
    LocalInv(t, o.l, o.sh) && Guarantee(t, sh, o.sh)
  }

  lemma CommitsKeep(t: Thread, l: Local, sh: Shared, free: bool, h: nat, f: Value -> Value, v: Value)
    requires LocalInv(t, l, sh) && l.phase.Running?
    ensures Kept(t, sh, CommitUpdate(t, l, sh, free, h, f)) && Kept(t, sh, CommitSet(t, l, sh, free, h, v))
  {
    if h in l.accesses && l.accesses[h].Writing? && !l.accesses[h].done {
      CommitKeeps(t, l, sh, free, h, v, Put(v));
      if l.accesses[h].snap.Some? {
        CommitKeeps(t, l, sh, free, h, f(l.accesses[h].snap.value.base), Apply(f));
      }
    }
  }

  lemma UseStepKeeps(t: Thread, l: Local, sh: Shared, a: Action)
    requires LocalInv(t, l, sh) && l.phase.Running?
    ensures LocalInv(t, UseStep(l, sh, a), sh)
  {
    hide LocalInv, ReadEnter, ReadUnlock, BeginWrite, TakeSnapshot, NestedGuard, NestedUpdate, UpdateUnrecorded;
    match a
    case ARead => ReadKeeps(t, l, sh);
    case AUnlock(h) => UnlockKeeps(t, l, sh, h);
    case ABegin(snapshot) => BeginKeeps(t, l, sh, snapshot);
    case ASnapshot(h) => SnapshotKeeps(t, l, sh, h);
    case AGuard => GuardKeeps(t, l, sh);
    case AUpdate => UpdateKeeps(t, l, sh);
    case AUpdateUnrecorded => UpdateUnrecordedKeeps(t, l, sh);
    case _ =>
  }

  lemma QueueStepKeeps(t: Thread, l: Local, sh: Shared, a: Action)
    requires LocalInv(t, l, sh) && l.phase.Running?
    ensures LocalInv(t, QueueStep(l, a), sh)
  {
    hide LocalInv, DeferGuard, FinishNested, Deferred, TakeOut, PutBack;
    match a
    case ADeferGuard(h, f) => DeferGuardKeeps(t, l, sh, h, f);
    case AFinish(h, f) => FinishKeeps(t, l, sh, h, f);
    case ADefer(value) => DeferKeeps(t, l, sh, value, None, false);
    case ATake => TakeKeeps(t, l, sh);
    case APut => PutKeeps(t, l, sh);
    case _ =>
  }

  lemma ShareStepKeeps(t: Thread, l: Local, sh: Shared, free: bool, a: Action)
    requires LocalInv(t, l, sh) && l.phase.Running?
    ensures Kept(t, sh, ShareStep(t, l, sh, free, a))
  {
    hide LocalInv, Exit, CommitUpdate, CommitSet, Drain, Shutdown, SetUnrecorded, FinishUnrecorded;
    match a
    case AExit(h, panicking) => ExitKeeps(t, l, sh, h, panicking);
    case ACommit(h, f) => CommitsKeep(t, l, sh, free, h, f, 0);
    case ASet(h, v) => CommitsKeep(t, l, sh, free, h, x => x, v);
    case ADrain(h) => DrainKeeps(t, l, sh, free, h);
    case AShutdown => ShutdownKeeps(t, l, sh);
    case ASetUnrecorded(v) => SetUnrecordedKeeps(t, l, sh, free, v);
    case AFinishUnrecorded(h, f) => FinishUnrecordedKeeps(t, l, sh, free, h, f);
    case _ =>
  }

  lemma BlockedStepKeeps(t: Thread, l: Local, sh: Shared, a: Action)
    requires LocalInv(t, l, sh)
    ensures Kept(t, sh, BlockedStep(t, l, sh, a))
  {
    hide LocalInv, Acquire, FlushTurn, Resume;
    match a
    case AAcquire => AcquireKeeps(t, l, sh);
    case AFlushTurn => FlushTurnKeeps(t, l, sh);
    case AResume => ResumeKeeps(t, l, sh);
    case _ =>
  }

  /** Every action of a thread keeps its invariant, and changes what is shared only under its turn. */
  lemma LocalStepKeeps(t: Thread, l: Local, sh: Shared, free: bool, a: Action)
    requires LocalInv(t, l, sh)
    ensures Kept(t, sh, LocalStep(t, l, sh, free, a))
  {
    hide LocalInv, UseStep, QueueStep, ShareStep, BlockedStep;
    if !l.phase.Running? {
      BlockedStepKeeps(t, l, sh, a);
    } else {
      UseStepKeeps(t, l, sh, a);
      QueueStepKeeps(t, l, sh, a);
      ShareStepKeeps(t, l, sh, free, a);
    }
  }

  /** The invariant of a thread survives the steps of the others. */
  lemma Undisturbed(u: Thread, l: Local, t: Thread, sh: Shared, sh': Shared)
    requires LocalInv(u, l, sh) && Guarantee(t, sh, sh') && t != u
    ensures LocalInv(u, l, sh')
  {
    if sh'.log != sh.log {
      forall s | SnapOk(u, l.tenure, HasTurn(l), sh.log, s) ensures SnapOk(u, l.tenure, HasTurn(l), sh'.log, s) {
      }
    }
  }

  // ---- What is committed

  function Effected(e: Effect, v: Value): Value {
    match e
    case Apply(f) => f(v)
    case Put(value) => value
  }

  /** The commits, applied in the order in which they were made. */
  function Fold(init: Value, log: seq<Commit>): Value {
    if log == [] then init else Effected(log[|log| - 1].effect, Fold(init, log[..|log| - 1]))
  }

  /** No other thread commits between the copy that commit `i` was made from and the commit itself. */
  ghost predicate Isolated(log: seq<Commit>, i: nat)
    requires i < |log|
  {
    log[i].snap.Some? ==>
      && log[i].snap.value.since <= i
      && forall j :: log[i].snap.value.since <= j < i ==> log[j].who == log[i].who
  }

  ghost predicate SharedInv(s: Signal) {
    && s.sh.committed == Fold(s.init, s.sh.log)
    && forall i :: 0 <= i < |s.sh.log| && (s.sh.log[i].mode == Held || s.sh.log[i].mode == Blind) ==> Isolated(s.sh.log, i)
  }

  /** A step commits at most once, and what it commits follows from what was committed. */
  ghost predicate OneCommit(t: Thread, sh: Shared, sh': Shared) {
    || (sh'.log == sh.log && sh'.committed == sh.committed)
    || exists c ::
         && sh'.log == sh.log + [c] && c.who == t
         && sh'.committed == Effected(c.effect, sh.committed)
         && (c.mode == Held ==> c.snap.Some? && c.snap.value.since <= |sh.log| && OnlyBy(t, sh.log, c.snap.value.since))
         && (c.mode == Blind ==> c.snap.None?)
  }

  lemma CommitFollows(t: Thread, sh: Shared, value: Value, effect: Effect, snap: Option<Snap>, mode: Mode)
    requires value == Effected(effect, sh.committed)
    requires mode == Held ==> snap.Some? && snap.value.since <= |sh.log| && OnlyBy(t, sh.log, snap.value.since)
    requires mode == Blind ==> snap.None?
    ensures OneCommit(t, sh, Commits(t, sh, value, effect, snap, mode))
  {
    var c := Commit(t, effect, snap, mode);
    assert Commits(t, sh, value, effect, snap, mode).log == sh.log + [c];
  }

  lemma CommitValueFollows(t: Thread, l: Local, sh: Shared, free: bool, h: nat, value: Value, effect: Effect)
    requires LocalInv(t, l, sh) && l.phase.Running?
    requires h in l.accesses && l.accesses[h].Writing? && !l.accesses[h].done
    requires l.entry.Some? ==> value == Effected(effect, sh.committed)
    ensures OneCommit(t, sh, CommitValue(t, l, sh, free, h, value, effect).sh)
  {
    if Alone(l) && free {
      var snap := l.accesses[h].snap;
      assert CopyOf(l.accesses[h]) == snap;
      CommitFollows(t, sh, value, effect, snap, ModeOf(l, snap));
    }
  }

  lemma DrainFollows(t: Thread, l: Local, sh: Shared, free: bool, h: nat)
    requires LocalInv(t, l, sh) && l.phase.Running?
    ensures OneCommit(t, sh, Drain(t, l, sh, free, h).sh)
  {
    var q := PendingOf(EntryOf(l));
    if q != [] && q[0].value.Some? {
      assert q[0] in Queue(l);
      CommitFollows(t, sh, q[0].value.value, Put(q[0].value.value), q[0].snap, ModeOf(l, q[0].snap));
    }
  }

  lemma UpdateFollows(t: Thread, l: Local, sh: Shared, free: bool, h: nat, f: Value -> Value, v: Value)
    requires LocalInv(t, l, sh) && l.phase.Running?
    ensures OneCommit(t, sh, CommitUpdate(t, l, sh, free, h, f).sh)
    ensures OneCommit(t, sh, CommitSet(t, l, sh, free, h, v).sh)
  {
    hide Conserved, SnapsOk;
    if h in l.accesses && l.accesses[h].Writing? && !l.accesses[h].done {
      CommitValueFollows(t, l, sh, free, h, v, Put(v));
      if l.accesses[h].snap.Some? {
        assert l.entry.Some? ==> FreshCopy(l, sh, l.accesses[h]);
        CommitValueFollows(t, l, sh, free, h, f(l.accesses[h].snap.value.base), Apply(f));
      }
    }
  }

  lemma UnrecordedFollows(t: Thread, l: Local, sh: Shared, free: bool, h: nat, f: Value -> Value, v: Value)
    ensures OneCommit(t, sh, SetUnrecorded(t, l, sh, free, v))
    ensures OneCommit(t, sh, FinishUnrecorded(t, l, sh, free, h, f).sh)
  {
    CommitFollows(t, sh, v, Put(v), None, Blind);
    if h in l.loose {
      var v := f(l.loose[h].snap.base);
      CommitFollows(t, sh, v, Put(v), Some(l.loose[h].snap), Unrecorded);
    }
  }

  lemma StepFollows(t: Thread, l: Local, sh: Shared, free: bool, a: Action)
    requires LocalInv(t, l, sh)
    ensures OneCommit(t, sh, LocalStep(t, l, sh, free, a).sh)
  {
    hide LocalInv, CommitUpdate, CommitSet, Drain, SetUnrecorded, FinishUnrecorded, UseStep, QueueStep, Resume;
    if l.phase.Running? {
      match a
      case ACommit(h, f) => UpdateFollows(t, l, sh, free, h, f, 0);
      case ASet(h, v) => UpdateFollows(t, l, sh, free, h, x => x, v);
      case ADrain(h) => DrainFollows(t, l, sh, free, h);
      case ASetUnrecorded(v) => UnrecordedFollows(t, l, sh, free, 0, x => x, v);
      case AFinishUnrecorded(h, f) => UnrecordedFollows(t, l, sh, free, h, f, 0);
      case _ =>
    }
  }

  // ---- Every run

  ghost predicate Inv(s: Signal) {
    SharedInv(s) && forall t :: LocalInv(t, At(s, t), s.sh)
  }

  lemma SharedKept(s: Signal, t: Thread, sh': Shared, locals: map<Thread, Local>)
    requires SharedInv(s) && OneCommit(t, s.sh, sh')
    ensures SharedInv(s.(sh := sh', locals := locals))
  {
    if sh'.log != s.sh.log {
      var n := |s.sh.log|;
      assert sh'.log[..n] == s.sh.log;
      forall i | 0 <= i < |sh'.log| && (sh'.log[i].mode == Held || sh'.log[i].mode == Blind) ensures Isolated(sh'.log, i) {
        if i < n {
          assert Isolated(s.sh.log, i);
        }
      }
    }
  }

  lemma NextKeeps(s: Signal, t: Thread, a: Action)
    requires Inv(s)
    ensures Inv(Next(s, t, a))
  {
    hide LocalInv, SharedInv, LocalStep;
    var l, free := At(s, t), OthersUnlocked(s, t);
    LocalStepKeeps(t, l, s.sh, free, a);
    StepFollows(t, l, s.sh, free, a);
    var s' := Next(s, t, a);
    SharedKept(s, t, s'.sh, s'.locals);
    forall u ensures LocalInv(u, At(s', u), s'.sh) {
      if u != t {
        Undisturbed(u, At(s, u), t, s.sh, s'.sh);
      }
    }
  }

  lemma StartKeeps(init: Value)
    ensures Inv(Start(init))
  {
  }

  lemma {:induction false} RunKeeps(s: Signal, run: seq<(Thread, Action)>)
    requires Inv(s)
    ensures Inv(Run(s, run)) && Run(s, run).init == s.init
    decreases |run|
  {
    if run != [] {
      NextKeeps(s, run[0].0, run[0].1);
      RunKeeps(Next(s, run[0].0, run[0].1), run[1..]);
    }
  }

  /** In every run of any number of threads, the invariant holds. */
  lemma ReachableKeeps(s: Signal)
    requires Reachable(s)
    ensures Inv(s)
  {
    var run :| s == Run(Start(s.init), run);
    StartKeeps(s.init);
    RunKeeps(Start(s.init), run);
  }
}
