/**
What the writer-turn protocol promises, over every run of any number of threads, and exactly when
an update can lose another thread's commit.
*/
module WriterTurnTheorems {
  import opened Basics
  import opened Reentry
  import opened WriterTurn
  import opened WriterTurnSafety

  /** The committed value is the fold of all commits, in the order in which the turn was held. */
  lemma CommittedIsFold(s: Signal)
    requires Reachable(s)
    ensures s.sh.committed == Fold(s.init, s.sh.log)
  {
    ReachableKeeps(s);
  }

  /** An outermost update commits what its closure makes of the value committed at that very moment. */
  lemma OutermostUpdateApplies(s: Signal, t: Thread, h: nat, f: Value -> Value)
    requires Reachable(s) && OthersUnlocked(s, t)
    requires var l := At(s, t);
      l.phase.Running? && Alone(l) && h in l.accesses && l.accesses[h].Writing? && l.accesses[h].snap.Some? && !l.accesses[h].done
    ensures var s' := Next(s, t, ACommit(h, f));
      && s'.sh.committed == f(s.sh.committed)
      && |s'.sh.log| == |s.sh.log| + 1
      && s'.sh.log[|s.sh.log|] == Commit(t, Apply(f), Some(Snap(s.sh.committed, |s.sh.log|, Some(At(s, t).tenure))), Held)
  {
    ReachableKeeps(s);
    assert LocalInv(t, At(s, t), s.sh);
    assert FreshCopy(At(s, t), s.sh, At(s, t).accesses[h]);
  }

  /** A thread that waits for a turn does not hold it, and holds nothing else of the signal. */
  lemma NoThreadWaitsForItself(s: Signal, t: Thread)
    requires Reachable(s)
    requires At(s, t).phase.Waiting? || (At(s, t).phase.Flushing? && !At(s, t).phase.turn)
    ensures s.sh.turn != Some(t)
    ensures At(s, t).entry.None? && At(s, t).accesses == map[]
  {
    ReachableKeeps(s);
    assert LocalInv(t, At(s, t), s.sh);
  }

  /** At most one thread holds the turn, and the turn is taken only while a thread's record or flush holds it. */
  lemma OneTurnHolder(s: Signal, t: Thread, u: Thread)
    requires Reachable(s) && HasTurn(At(s, t))
    ensures s.sh.turn == Some(t)
    ensures HasTurn(At(s, u)) ==> u == t
  {
    ReachableKeeps(s);
    assert LocalInv(t, At(s, t), s.sh) && LocalInv(u, At(s, u), s.sh);
  }

  /** `resume_write` never finds an entry, so never a turn or writes deferred since. */
  lemma ResumeFindsNothing(s: Signal, t: Thread)
    requires Reachable(s) && At(s, t).phase.Flushing?
    ensures At(s, t).entry.None?
  {
    ReachableKeeps(s);
    assert LocalInv(t, At(s, t), s.sh);
  }

  /** With a single thread the turn is free whenever `take_turn` is reached, so `try_take` gets it. */
  lemma SingleThreadNeverBusy(s: Signal, t: Thread)
    requires Reachable(s) && s.locals.Keys <= {t}
    requires At(s, t).phase.Waiting? || (At(s, t).phase.Flushing? && !At(s, t).phase.turn)
    ensures s.sh.turn.None?
  {
    ReachableKeeps(s);
    if s.sh.turn.Some? {
      var u := s.sh.turn.value;
      assert LocalInv(u, At(s, u), s.sh);
      NoThreadWaitsForItself(s, t);
    }
  }

  /** The turn outlives the write that took it: it is kept while any access of the use is alive. */
  lemma TurnKeptWhileInUse(s: Signal, t: Thread, h: nat, panicking: bool)
    requires Reachable(s)
    requires var l := At(s, t); l.entry.Some? && l.entry.value.turn && l.phase.Running? && |l.accesses| > 1 && h in l.accesses
    ensures var s' := Next(s, t, AExit(h, panicking));
      s'.sh.turn == Some(t) && At(s', t).entry.Some? && At(s', t).entry.value.turn
      && Queue(At(s', t)) == Queue(At(s, t))
  {
    ReachableKeeps(s);
    assert LocalInv(t, At(s, t), s.sh);
  }

  lemma TwoMembers<V>(m: map<nat, V>, h: nat, k: nat)
    requires h in m && k in m && h != k
    ensures |m| >= 2
  {
    CardRemove(m, h);
    assert k in m - {h};
  }

  lemma OthersReadsBlock(t: Thread, l: Local, sh: Shared, a: Action)
    ensures var sh' := LocalStep(t, l, sh, false, a).sh; sh'.committed == sh.committed && sh'.log == sh.log
  {
  }

  lemma OwnReadsBlock(t: Thread, l: Local, sh: Shared, free: bool, a: Action)
    requires LocalInv(t, l, sh) && HoldsLock(l)
    ensures var sh' := LocalStep(t, l, sh, free, a).sh; sh'.committed == sh.committed && sh'.log == sh.log
  {
    var k :| k in l.accesses && l.accesses[k] == Reading(true);
    forall h | h in l.accesses && h != k ensures !Alone(l) {
      TwoMembers(l.accesses, h, k);
    }
  }

  /** A write never lands in the middle of a read, whichever thread reads and whichever writes. */
  lemma ReadsAreStable(s: Signal, u: Thread, t: Thread, a: Action)
    requires Reachable(s) && HoldsLock(At(s, u))
    ensures Next(s, t, a).sh.committed == s.sh.committed && Next(s, t, a).sh.log == s.sh.log
  {
    ReachableKeeps(s);
    if u != t {
      OthersReadsBlock(t, At(s, t), s.sh, a);
    } else {
      assert LocalInv(t, At(s, t), s.sh);
      OwnReadsBlock(t, At(s, t), s.sh, OthersUnlocked(s, t), a);
    }
  }

  // ---- Deferred writes

  lemma {:induction false} UidsOnce(made: seq<Write>, w: Write)
    requires forall i :: 0 <= i < |made| ==> made[i].uid == i
    ensures multiset(made)[w] == if w in made then 1 else 0
  {
    if made != [] {
      var n := |made| - 1;
      assert made == made[..n] + [made[n]];
      UidsOnce(made[..n], w);
    }
  }

  /** How often a write is found in the places a deferred write can be. */
  ghost function Found(l: Local, w: Write): nat {
    multiset(l.applied)[w] + multiset(l.dropped)[w] + multiset(Queue(l))[w] + multiset(Flatten(l.out))[w]
  }

  /** Every write a thread defers is in exactly one place: queued, taken out, applied or given up. */
  lemma DeferredOnce(s: Signal, t: Thread, w: Write)
    requires Reachable(s)
    ensures Found(At(s, t), w) == if w in At(s, t).made then 1 else 0
  {
    ReachableKeeps(s);
    assert LocalInv(t, At(s, t), s.sh);
    UidsOnce(At(s, t).made, w);
  }

  /** When the last access of a use ends, its whole queue goes to `flush`, with the turn, or is given up. */
  lemma HandOver(s: Signal, t: Thread, h: nat, panicking: bool)
    requires Reachable(s)
    requires var l := At(s, t); l.phase.Running? && l.entry.Some? && CanExit(l, h, panicking) && |l.accesses| == 1
    ensures var l, s' := At(s, t), Next(s, t, AExit(h, panicking));
      && At(s', t).entry.None?
      && (Queue(l) != [] && !panicking ==>
            At(s', t).phase == Flushing(Queue(l), l.entry.value.turn) && s'.sh == s.sh && At(s', t).dropped == l.dropped)
      && (Queue(l) == [] || panicking ==>
            At(s', t).phase.Running? && s'.sh.turn != Some(t) && At(s', t).dropped == l.dropped + Queue(l))
  {
    ReachableKeeps(s);
    assert LocalInv(t, At(s, t), s.sh);
  }

  /** The order in which a thread's deferred writes are due: those taken out come first. */
  function Order(l: Local): seq<Write> {
    Flatten(l.out) + Queue(l)
  }

  ghost predicate SameHistory(l: Local, l': Local) {
    l'.made == l.made && l'.applied == l.applied && l'.dropped == l.dropped
  }

  /** A write is added: last (`first`: ahead of the queue in the record), or given up at once. */
  ghost predicate Adds(l: Local, l': Local, first: bool) {
    && l'.applied == l.applied && l'.out == l.out && |l'.made| == |l.made| + 1 && l'.made[..|l.made|] == l.made
    && var w := l'.made[|l.made|];
       || (!first && Order(l') == Order(l) + [w] && l'.dropped == l.dropped)
       || (first && Order(l') == Flatten(l.out) + [w] + Queue(l) && l'.dropped == l.dropped)
       || (l.entry.None? && Order(l') == Order(l) && l'.dropped == l.dropped + [w])
  }

  /** The first write in the record is applied. */
  ghost predicate Applies(l: Local, l': Local) {
    && l'.made == l.made && l'.dropped == l.dropped && l'.out == l.out
    && Queue(l) != [] && l'.applied == l.applied + [Queue(l)[0]]
    && Order(l') == Flatten(l.out) + Queue(l)[1..]
  }

  /** A whole queue is given up: the one in the record, or the one taken out last. */
  ghost predicate GivesUp(l: Local, l': Local) {
    && l'.made == l.made && l'.applied == l.applied
    && ((l'.out == l.out && Queue(l') == [] && l'.dropped == l.dropped + Queue(l))
        || (l.out != [] && l'.out == l.out[..|l.out| - 1] && Queue(l') == Queue(l)
            && l'.dropped == l.dropped + l.out[|l.out| - 1]))
  }

  /** What a step can do to a thread's deferred writes; only a started write is deferred ahead of the others. */
  ghost predicate KeepsOrder(l: Local, l': Local, a: Action) {
    || (Order(l') == Order(l) && SameHistory(l, l'))
    || Adds(l, l', a.ACommit? || a.ASet?)
    || (a.ADrain? && Applies(l, l'))
    || (!a.ADefer? && !a.AFinish? && !a.ADeferGuard? && GivesUp(l, l'))
  }

  /** Writes taken out stay ahead of those deferred since ... */
  lemma TakeOrder(l: Local)
    requires l.phase.Running?
    ensures Order(TakeOut(l)) == Order(l) && SameHistory(l, TakeOut(l))
  {
    hide Flatten;
    if l.entry.Some? && l.entry.value.pending.Some? {
      FlattenSnoc(l.out, l.entry.value.pending.value);
    }
  }

  /** ... and go back in front of them, while the signal is in use here. */
  lemma PutOrder(l: Local)
    requires l.phase.Running?
    ensures l.entry.Some? ==> Order(PutBack(l)) == Order(l) && SameHistory(l, PutBack(l))
    ensures l.entry.None? && l.out != [] ==> GivesUp(l, PutBack(l))
  {
    hide Flatten;
    if l.out != [] {
      var n := |l.out| - 1;
      assert l.out == l.out[..n] + [l.out[n]];
      FlattenSnoc(l.out[..n], l.out[n]);
      if l.entry.Some? {
        assert Queue(PutBack(l)) == l.out[n] + Queue(l);
      }
    }
  }

  lemma DeferOrder(l: Local, value: Option<Value>, snap: Option<Snap>, first: bool)
    requires l.phase.Running? && (l.entry.Some? ==> l.available)
    ensures Adds(l, Deferred(l, value, snap, first), first)
  {
    hide Flatten;
    var l', w := Deferred(l, value, snap, first), Write(|l.made|, value, snap);
    assert l'.made == l.made + [w];
    if l.entry.Some? {
      assert Queue(l') == if first then [w] + Queue(l) else Queue(l) + [w];
      assert Order(l') == if first then Flatten(l.out) + [w] + Queue(l) else Order(l) + [w];
    } else {
      assert Order(l') == Order(l);
    }
  }

  lemma DrainOrder(t: Thread, l: Local, sh: Shared, free: bool, h: nat)
    requires l.phase.Running?
    ensures KeepsOrder(l, Drain(t, l, sh, free, h).l, ADrain(h))
  {
    hide Flatten, Adds;
    DrainQueue(t, l, sh, free, h);
  }

  lemma ExitOrder(l: Local, sh: Shared, h: nat, panicking: bool)
    requires l.phase.Running?
    ensures KeepsOrder(l, Exit(l, sh, h, panicking).l, AExit(h, panicking))
  {
    hide Flatten, Adds, Applies;
    if CanExit(l, h, panicking) {
      ExitShape(l, sh, h, panicking);
    }
  }

  lemma CommitOrder(t: Thread, l: Local, sh: Shared, free: bool, h: nat, value: Value, effect: Effect, a: Action)
    requires a.ACommit? || a.ASet?
    requires l.phase.Running? && (l.entry.Some? ==> l.available)
    requires h in l.accesses && l.accesses[h].Writing?
    ensures KeepsOrder(l, CommitValue(t, l, sh, free, h, value, effect).l, a)
  {
    hide Flatten, Deferred, Applies, GivesUp;
    var Writing(snapshot, snap, _) := l.accesses[h];
    DeferOrder(l.(accesses := l.accesses[h := Writing(snapshot, snap, true)]), Some(value), snap, true);
  }

  lemma QueueStepOrder(l: Local, a: Action)
    requires l.phase.Running? && (l.entry.Some? ==> l.available)
    ensures KeepsOrder(l, QueueStep(l, a), a)
  {
    hide Flatten, Deferred, TakeOut, PutBack, Applies, GivesUp;
    match a
    case ADeferGuard(h, f) =>
      if h in l.accesses && l.accesses[h].Guarding? {
        var copy := l.accesses[h].copy;
        DeferOrder(l.(accesses := l.accesses[h := Guarding(copy, true)]), Some(f(copy.base)), Some(copy), false);
      }
    case AFinish(h, f) =>
      if h in l.loose {
        var snap := l.loose[h].snap;
        DeferOrder(l.(loose := l.loose - {h}), Some(f(snap.base)), Some(snap), false);
      }
    case ADefer(value) => DeferOrder(l, value, None, false);
    case ATake => TakeOrder(l);
    case APut =>
      PutOrder(l);
      if l.out == [] {
        PutNothing(l);
      }
    case _ =>
  }

  lemma PutNothing(l: Local)
    requires l.out == []
    ensures PutBack(l) == l
  {
  }

  lemma UseStepOrder(l: Local, sh: Shared, a: Action)
    requires l.phase.Running? && (l.entry.Some? ==> l.available)
    ensures Order(UseStep(l, sh, a)) == Order(l) && SameHistory(l, UseStep(l, sh, a))
  {
    hide Flatten;
  }

  lemma ShareStepOrder(t: Thread, l: Local, sh: Shared, free: bool, a: Action)
    requires l.phase.Running? && (l.entry.Some? ==> l.available)
    ensures KeepsOrder(l, ShareStep(t, l, sh, free, a).l, a)
  {
    hide Flatten, Exit, CommitValue, Drain, Adds, Applies;
    match a
    case AExit(h, panicking) => ExitOrder(l, sh, h, panicking);
    case ACommit(h, f) =>
      if h in l.accesses && l.accesses[h].Writing? && l.accesses[h].snap.Some? {
        CommitOrder(t, l, sh, free, h, f(l.accesses[h].snap.value.base), Apply(f), a);
      }
    case ASet(h, v) =>
      if h in l.accesses && l.accesses[h].Writing? {
        CommitOrder(t, l, sh, free, h, v, Put(v), a);
      }
    case ADrain(h) => DrainOrder(t, l, sh, free, h);
    case _ =>
  }

  lemma BlockedStepOrder(t: Thread, l: Local, sh: Shared, a: Action)
    requires RecordOk(l) && !l.phase.Running?
    ensures Order(BlockedStep(t, l, sh, a).l) == Order(l) && SameHistory(l, BlockedStep(t, l, sh, a).l)
  {
    hide Flatten;
    assert l.entry.None?;
    assert Queue(Resume(l)) == Queue(l);
  }

  lemma LocalStepOrder(t: Thread, l: Local, sh: Shared, free: bool, a: Action)
    requires RecordOk(l)
    ensures KeepsOrder(l, LocalStep(t, l, sh, free, a).l, a)
  {
    hide Order, Adds, Applies, GivesUp, UseStep, QueueStep, ShareStep, BlockedStep;
    if l.phase.Running? {
      UseStepOrder(l, sh, a);
      QueueStepOrder(l, a);
      ShareStepOrder(t, l, sh, free, a);
    } else {
      BlockedStepOrder(t, l, sh, a);
    }
  }

  /** Over every run: deferred writes keep their order, and are applied from the front of the record. */
  lemma DeferredInOrder(s: Signal, t: Thread, a: Action)
    requires Reachable(s)
    ensures KeepsOrder(At(s, t), At(Next(s, t, a), t), a)
  {
    hide KeepsOrder, RecordOk, LocalStep;
    ReachableKeeps(s);
    assert LocalInv(t, At(s, t), s.sh);
    LocalStepOrder(t, At(s, t), s.sh, OthersUnlocked(s, t), a);
  }

  /** The value after the writes of a queue. */
  function AfterWrites(committed: Value, q: seq<Write>): Value
    decreases |q|
  {
    if q == [] then committed
    else AfterWrites(if q[0].value.Some? then q[0].value.value else committed, q[1..])
  }

  lemma {:induction false} AfterLast(committed: Value, q: seq<Write>)
    ensures AfterWrites(committed, q) == if LastValue(q).Some? then LastValue(q).value else committed
    decreases |q|
  {
    if q != [] {
      var next := if q[0].value.Some? then q[0].value.value else committed;
      AfterLast(next, q[1..]);
      LastOfRest(q);
    }
  }

  lemma {:induction false} LastOfRest(q: seq<Write>)
    requires q != []
    ensures LastValue(q) == if LastValue(q[1..]).Some? then LastValue(q[1..]) else q[0].value
    decreases |q|
  {
    var n := |q| - 1;
    if n == 0 {
      assert q[..0] == [] && q[1..] == [];
    } else {
      assert q[1..][..n - 1] == q[..n][1..] && q[1..][n - 1] == q[n];
      LastOfRest(q[..n]);
    }
  }

  /**
  An update inside another use starts from the value it will be committed over: the committed one
  after the writes deferred before it. Its result is deferred last, and is what will be committed.
  */
  lemma NestedUpdateBase(s: Signal, t: Thread, f: Value -> Value)
    requires Reachable(s) && At(s, t).phase.Running? && At(s, t).available && At(s, t).entry.Some?
    ensures var l, s1 := At(s, t), Next(s, t, AUpdate);
      var s2 := Next(s1, t, AFinish(l.next, f));
      && AfterWrites(s.sh.committed, Queue(At(s2, t))) == f(AfterWrites(s.sh.committed, Queue(l)))
      && |Queue(At(s2, t))| == |Queue(l)| + 1 && Queue(At(s2, t))[..|Queue(l)|] == Queue(l)
      && s2.sh == s.sh
  {
    ReachableKeeps(s);
    assert LocalInv(t, At(s, t), s.sh);
    NestedQueue(s, t, f);
    hide Next, LocalInv;
    var q := Queue(At(s, t));
    AfterLast(s.sh.committed, q);
    AfterLast(s.sh.committed, Queue(At(Next(Next(s, t, AUpdate), t, AFinish(At(s, t).next, f)), t)));
  }

  lemma NestedQueue(s: Signal, t: Thread, f: Value -> Value)
    requires RecordOk(At(s, t)) && At(s, t).phase.Running? && At(s, t).available && At(s, t).entry.Some?
    ensures var l, s1 := At(s, t), Next(s, t, AUpdate);
      var s2 := Next(s1, t, AFinish(l.next, f));
      && s2.sh == s.sh && |Queue(At(s2, t))| == |Queue(l)| + 1
      && Queue(At(s2, t))[..|Queue(l)|] == Queue(l)
      && Queue(At(s2, t))[|Queue(l)|].value == Some(f(BaseFor(l, s.sh)))
  {
    var l := At(s, t);
    assert l.entry.value.depth > 0;
    var s1 := Next(s, t, AUpdate);
    assert At(s1, t) == NestedUpdate(l, s.sh);
    var s2 := Next(s1, t, AFinish(l.next, f));
    assert At(s2, t) == FinishNested(At(s1, t), l.next, f);
  }

  /** A drain that nothing else of its thread or of the readers holds up, within the cap. */
  predicate Drains(s: Signal, t: Thread, h: nat) {
    var l := At(s, t);
    && l.phase.Running? && Alone(l) && OthersUnlocked(s, t)
    && h in l.accesses && l.accesses[h].Draining? && !l.accesses[h].done
    && l.accesses[h].applied + |Queue(l)| <= MAX_APPLIED
  }

  function DrainTimes(s: Signal, t: Thread, h: nat, n: nat): Signal
    decreases n
  {
    if n == 0 then s else DrainTimes(Next(s, t, ADrain(h)), t, h, n - 1)
  }

  lemma DrainOne(s: Signal, t: Thread, h: nat)
    requires Drains(s, t, h) && Queue(At(s, t)) != []
    ensures var l, s' := At(s, t), Next(s, t, ADrain(h));
      && Drains(s', t, h)
      && Queue(At(s', t)) == Queue(l)[1..] && s'.sh.committed == AfterWrites(s.sh.committed, [Queue(l)[0]])
      && At(s', t).applied == l.applied + [Queue(l)[0]] && At(s', t).dropped == l.dropped
  {
    var l, s' := At(s, t), Next(s, t, ADrain(h));
    assert [Queue(l)[0]][1..] == [];
    assert OthersUnlocked(s', t) by {
      assert forall u | u in s'.locals && u != t :: u in s.locals && s'.locals[u] == s.locals[u];
    }
  }

  /** A drain commits what the writes of the queue leave, in their order, and applies each once. */
  lemma {:induction false} DrainCommits(s: Signal, t: Thread, h: nat)
    requires Drains(s, t, h)
    ensures var l, s' := At(s, t), DrainTimes(s, t, h, |Queue(At(s, t))|);
      && s'.sh.committed == AfterWrites(s.sh.committed, Queue(l))
      && Queue(At(s', t)) == [] && At(s', t).applied == l.applied + Queue(l) && At(s', t).dropped == l.dropped
    decreases |Queue(At(s, t))|
  {
    hide Drains, Next, Queue, At;
    var q := Queue(At(s, t));
    if q == [] {
      assert At(s, t).applied + [] == At(s, t).applied;
    } else {
      DrainOne(s, t, h);
      DrainCommits(Next(s, t, ADrain(h)), t, h);
      assert [q[0]][1..] == [] && q == [q[0]] + q[1..];
      assert At(s, t).applied + [q[0]] + q[1..] == At(s, t).applied + q;
    }
  }

  // ---- Updates and other threads' commits

  lemma RunOn(s: Signal, run: seq<(Thread, Action)>, t: Thread, a: Action)
    ensures Run(s, run + [(t, a)]) == Next(Run(s, run), t, a)
    decreases |run|
  {
    if run == [] {
      assert run + [(t, a)] == [(t, a)];
      assert Run(s, [(t, a)]) == Run(Next(s, t, a), [(t, a)][1..]);
    } else {
      assert (run + [(t, a)])[1..] == run[1..] + [(t, a)];
      RunOn(Next(s, run[0].0, run[0].1), run[1..], t, a);
    }
  }

  lemma ReachableNext(s: Signal, t: Thread, a: Action)
    requires Reachable(s)
    ensures Reachable(Next(s, t, a))
  {
    var run :| s == Run(Start(s.init), run);
    RunOn(Start(s.init), run, t, a);
  }

  /** Commits made in mode `m` are isolated from other threads, in every run. */
  ghost predicate AlwaysIsolated(m: Mode) {
    forall s: Signal, i: nat :: Reachable(s) && i < |s.sh.log| && s.sh.log[i].mode == m ==> Isolated(s.sh.log, i)
  }

  /** Some steps of one thread in a row, while the others stand still. */
  function LocalRun(t: Thread, l: Local, sh: Shared, free: bool, acts: seq<Action>): Out
    decreases |acts|
  {
    if acts == [] then Out(l, sh) else
    var o := LocalStep(t, l, sh, free, acts[0]);
    LocalRun(t, o.l, o.sh, free, acts[1..])
  }

  lemma {:induction false} Turns(s: Signal, t: Thread, acts: seq<Action>) returns (s': Signal)
    requires Reachable(s)
    ensures Reachable(s') && s'.init == s.init
    ensures var o := LocalRun(t, At(s, t), s.sh, OthersUnlocked(s, t), acts); At(s', t) == o.l && s'.sh == o.sh
    ensures forall u :: u != t ==> At(s', u) == At(s, u)
    ensures s'.locals.Keys <= s.locals.Keys + {t}
    decreases |acts|
  {
    hide LocalStep;
    if acts == [] {
      s' := s;
    } else {
      ReachableNext(s, t, acts[0]);
      var s1 := Next(s, t, acts[0]);
      assert OthersUnlocked(s1, t) == OthersUnlocked(s, t) by {
        assert forall u | u != t :: (u in s1.locals <==> u in s.locals) && (u in s.locals ==> s1.locals[u] == s.locals[u]);
      }
      s' := Turns(s1, t, acts[1..]);
    }
  }
}
