/**
The notification channel (channel.rs) as interleaved atomic steps: a sender that stores a flag and
wakes, a receiver whose poll registers its waker before it takes the flag, and the drop of the last
reference, by either side, which wakes a last time.

The atomics and the waker slot are sequentially consistent. Waking is two steps, so that other steps
can fall between taking the waker out of its slot and waking the task.
*/
module Channel {
  import opened Basics

  /** Each poll comes with a waker; only the latest one need wake the task. */
  type Waker = nat

  datatype Sender =
    | Live
    | Stored                 // `notify` has set the flag
    | Waking(waker: Waker)   // `notify` has taken the waker
    | Dropping               // it dropped the last reference: `Inner::drop` runs
    | Parting(waker: Waker)  // `Inner::drop` has taken the waker
    | Gone

  datatype Poll = Pending | Item | End

  datatype Receiver =
    | Idle(last: Poll)
    | Upgraded
    | Registered
    | Swapped(got: bool)
    | Last(got: bool)                  // the poll dropped the last reference: `Inner::drop` runs
    | LastWaking(got: bool, own: Waker)

  datatype State = State(
    sender: Sender,
    receiver: Receiver,
    strong: nat,
    isSet: bool,
    slot: Option<Waker>,
    current: Waker,  // the waker of the latest poll
    woken: bool,     // it was woken since that poll began
    notifies: nat,
    items: nat)

  function Start(): State {
    State(Live, Idle(Item), 1, false, None, 0, false, 0, 0)
  }

  // ---- Steps of the sender

  function Store(s: State): State
    requires s.sender.Live?
  {
    s.(sender := Stored, isSet := true, notifies := s.notifies + 1)
  }

  function TakeWaker(s: State): State
    requires s.sender.Stored?
  {
    s.(sender := if s.slot.Some? then Waking(s.slot.value) else Live, slot := None)
  }

  function Wake(s: State): State
    requires s.sender.Waking?
  {
    s.(sender := Live, woken := s.woken || s.sender.waker == s.current)
  }

  function DropSender(s: State): State
    requires s.sender.Live? && s.strong > 0
  {
    s.(sender := if s.strong == 1 then Dropping else Gone, strong := s.strong - 1)
  }

  function TakeLastWaker(s: State): State
    requires s.sender.Dropping?
  {
    s.(sender := if s.slot.Some? then Parting(s.slot.value) else Gone, slot := None)
  }

  function WakeLast(s: State): State
    requires s.sender.Parting?
  {
    s.(sender := Gone, woken := s.woken || s.sender.waker == s.current)
  }

  // ---- Steps of the receiver

  function Upgrade(s: State, waker: Waker): State
    requires s.receiver.Idle?
  {
    var polled := s.(current := waker, woken := false);
    if s.strong == 0 then polled.(receiver := Idle(End)) else polled.(receiver := Upgraded, strong := s.strong + 1)
  }

  function Register(s: State): State
    requires s.receiver.Upgraded?
  {
    s.(receiver := Registered, slot := Some(s.current))
  }

  function Swap(s: State): State
    requires s.receiver.Registered?
  {
    s.(receiver := Swapped(s.isSet), isSet := false, items := s.items + if s.isSet then 1 else 0)
  }

  function Answer(got: bool): Poll {
    if got then Item else Pending
  }

  function Release(s: State): State
    requires s.receiver.Swapped? && s.strong > 0
  {
    s.(receiver := if s.strong == 1 then Last(s.receiver.got) else Idle(Answer(s.receiver.got)), strong := s.strong - 1)
  }

  function TakeOwnWaker(s: State): State
    requires s.receiver.Last?
  {
    s.(receiver := if s.slot.Some? then LastWaking(s.receiver.got, s.slot.value) else Idle(Answer(s.receiver.got)), slot := None)
  }

  function WakeSelf(s: State): State
    requires s.receiver.LastWaking?
  {
    s.(receiver := Idle(Answer(s.receiver.got)), woken := s.woken || s.receiver.own == s.current)
  }

  // ---- Runs

  predicate SenderStep(s: State, t: State) {
    match s.sender
    case Live => t == Store(s) || (s.strong > 0 && t == DropSender(s))
    case Stored => t == TakeWaker(s)
    case Waking(_) => t == Wake(s)
    case Dropping => t == TakeLastWaker(s)
    case Parting(_) => t == WakeLast(s)
    case Gone => false
  }

  predicate ReceiverStep(s: State, t: State) {
    match s.receiver
    case Idle(_) => t == Upgrade(s, t.current)
    case Upgraded => t == Register(s)
    case Registered => t == Swap(s)
    case Swapped(_) => s.strong > 0 && t == Release(s)
    case Last(_) => t == TakeOwnWaker(s)
    case LastWaking(_, _) => t == WakeSelf(s)
  }

  predicate Step(s: State, t: State) {
    SenderStep(s, t) || ReceiverStep(s, t)
  }

  predicate Run(run: seq<State>) {
    run != [] && forall i :: 0 <= i < |run| - 1 ==> Step(run[i], run[i + 1])
  }

  ghost predicate Reachable(s: State) {
    exists run :: Run(run) && run[0] == Start() && run[|run| - 1] == s
  }

  // ---- The invariant

  predicate SenderHolds(s: State) {
    s.sender.Live? || s.sender.Stored? || s.sender.Waking?
  }

  predicate ReceiverHolds(s: State) {
    s.receiver.Upgraded? || s.receiver.Registered? || s.receiver.Swapped?
  }

  /** A wake of the task is under way. */
  predicate WakeComing(s: State) {
    || (s.sender.Stored? && s.slot == Some(s.current))
    || s.sender == Waking(s.current)
    || (s.sender.Dropping? && s.slot == Some(s.current))
    || s.sender == Parting(s.current)
  }

  predicate Parked(s: State) {
    s.receiver == Idle(Pending)
  }

  /** The poll has registered its waker and not got an item. */
  predicate Waiting(s: State) {
    || Parked(s) || s.receiver.Registered?
    || (s.receiver.Swapped? && !s.receiver.got) || (s.receiver.Last? && !s.receiver.got)
  }

  predicate Inv(s: State) {
    && s.strong == (if SenderHolds(s) then 1 else 0) + (if ReceiverHolds(s) then 1 else 0)
    && (s.receiver.Last? || s.receiver.LastWaking? ==> s.sender.Gone?)
    && (s.sender.Dropping? || s.sender.Parting? ==> s.receiver.Idle?)
    && s.items + (if s.isSet then 1 else 0) <= s.notifies
    // The waker is in its slot, or it was woken, or it is about to be.
    && (Waiting(s) ==> s.slot == Some(s.current) || s.woken || s.sender == Waking(s.current) ||
                       s.sender == Parting(s.current))
    && (s.receiver.LastWaking? && !s.receiver.got ==> s.woken || s.receiver.own == s.current)
    // The flag is not left set, nor the sender gone, without a wake.
    && ((Parked(s) || (s.receiver.Swapped? && !s.receiver.got)) && s.isSet ==> s.woken || WakeComing(s))
    && (Parked(s) && s.strong == 0 ==> s.woken || WakeComing(s))
  }

  lemma SenderKeeps(s: State, t: State)
    requires Inv(s) && SenderStep(s, t)
    ensures Inv(t)
  {
  }

  lemma ReceiverKeeps(s: State, t: State)
    requires Inv(s) && ReceiverStep(s, t)
    ensures Inv(t)
  {
  }

  lemma {:induction false} RunKeeps(run: seq<State>, i: nat)
    requires Run(run) && i < |run| && Inv(run[0])
    ensures Inv(run[i])
  {
    if i > 0 {
      RunKeeps(run, i - 1);
      assert Step(run[i - 1], run[i - 1 + 1]);
      if SenderStep(run[i - 1], run[i]) {
        SenderKeeps(run[i - 1], run[i]);
      } else {
        ReceiverKeeps(run[i - 1], run[i]);
      }
    }
  }

  lemma ReachableKeeps(s: State)
    requires Reachable(s)
    ensures Inv(s)
  {
    var run :| Run(run) && run[0] == Start() && run[|run| - 1] == s;
    RunKeeps(run, |run| - 1);
  }

  // ---- No wake-up is lost

  /** A parked receiver with something to see has been woken, or is about to be. */
  lemma NoLostWakeUp(s: State)
    requires Reachable(s) && Parked(s) && (s.isSet || s.strong == 0)
    ensures s.woken || WakeComing(s)
  {
    ReachableKeeps(s);
  }

  /** Items never outnumber notifications. */
  lemma ItemsWithinNotifies(s: State)
    requires Reachable(s)
    ensures s.items <= s.notifies && (s.isSet ==> s.items < s.notifies)
  {
    ReachableKeeps(s);
  }

  /** The sender's next step, when it is inside `notify` or the drop. */
  function Finish(s: State): State {
    match s.sender
    case Stored => TakeWaker(s)
    case Waking(_) => Wake(s)
    case Dropping => TakeLastWaker(s)
    case Parting(_) => WakeLast(s)
    case Live => s
    case Gone => s
  }

  /** Two steps of the sender finish any wake, and wake the task, if the receiver stays parked. */
  lemma WakeArrives(s: State)
    requires Reachable(s) && Parked(s) && (s.isSet || s.strong == 0)
    ensures Finish(Finish(s)).woken
    ensures Finish(Finish(s)).receiver == s.receiver && Finish(Finish(s)).isSet == s.isSet
    ensures Finish(Finish(s)).strong == s.strong
  {
    ReachableKeeps(s);
  }

  /** A whole poll without interleaving. */
  function PollAlone(s: State, waker: Waker): State
    requires s.receiver.Idle?
  {
    var up := Upgrade(s, waker);
    if up.receiver.Idle? then up
    else
      var freed := Release(Swap(Register(up)));
      if !freed.receiver.Last? then freed
      else
        var took := TakeOwnWaker(freed);
        if took.receiver.LastWaking? then WakeSelf(took) else took
  }

  /** A woken receiver sees what it was woken for: an item if there is one to take, else the end. */
  lemma PollAnswers(s: State, waker: Waker)
    requires s.receiver.Idle?
    ensures PollAlone(s, waker).receiver == Idle(if s.strong == 0 then End else Answer(s.isSet))
    ensures PollAlone(s, waker).items == s.items + if s.strong > 0 && s.isSet then 1 else 0
    ensures s.strong > 0 ==> !PollAlone(s, waker).isSet && PollAlone(s, waker).strong == s.strong
  {
  }

  /** So a parked receiver with something to see does not park again: it is woken, and its next poll answers. */
  lemma WokenIsAnswered(s: State, waker: Waker)
    requires Reachable(s) && Parked(s) && (s.isSet || s.strong == 0)
    ensures Finish(Finish(s)).woken
    ensures PollAlone(Finish(Finish(s)), waker).receiver == Idle(if s.strong == 0 then End else Item)
  {
    hide Reachable, Finish, PollAlone;
    WakeArrives(s);
    PollAnswers(Finish(Finish(s)), waker);
  }

  // ---- A live sender's notification is answered

  /** Nothing will happen before the sender acts again. */
  predicate Quiet(s: State) {
    Parked(s) && !s.woken && !WakeComing(s)
  }

  lemma {:induction false} SetUntilItem(run: seq<State>, i: nat, j: nat)
    requires Run(run) && i <= j < |run| && run[i].isSet
    ensures run[i].items <= run[j].items
    ensures run[j].isSet || run[j].items > run[i].items
  {
    if i < j {
      SetUntilItem(run, i, j - 1);
      assert Step(run[j - 1], run[j - 1 + 1]);
    }
  }

  /** Once all is quiet the sender is not gone, and each notification was followed by an item. */
  lemma NotifyAnswered(run: seq<State>, i: nat, j: nat)
    requires Run(run) && run[0] == Start() && i < j < |run|
    requires run[i].sender.Live? && run[i + 1] == Store(run[i])
    requires Quiet(run[j])
    ensures run[j].strong > 0
    ensures run[j].items > run[i].items
  {
    RunKeeps(run, j);
    SetUntilItem(run, i + 1, j);
  }

  /** But if the sender is dropped before the next poll, its last notification gives no item. */
  lemma DroppedBeforePoll()
    ensures exists s :: Reachable(s) && s.notifies == 1 && s.items == 0 && s.receiver == Idle(End)
  {
    var a := Start();
    var b := Store(a);
    var c := TakeWaker(b);
    var d := DropSender(c);
    var e := TakeLastWaker(d);
    var f := Upgrade(e, 0);
    var run := [a, b, c, d, e, f];
    assert Step(a, b) && Step(b, c) && Step(c, d) && Step(d, e) && Step(e, f);
    assert Run(run) && run[0] == Start() && run[|run| - 1] == f;
    assert Reachable(f);
  }

  // ---- The operations, each as its own steps

  lemma ReachableStep(s: State, t: State)
    requires Reachable(s) && Step(s, t)
    ensures Reachable(t)
  {
    var run :| Run(run) && run[0] == Start() && run[|run| - 1] == s;
    var more := run + [t];
    forall i | 0 <= i < |more| - 1 ensures Step(more[i], more[i + 1]) {
      if i < |run| - 1 {
        assert Step(run[i], run[i + 1]);
      }
    }
    assert Run(more) && more[0] == Start() && more[|more| - 1] == t;
  }

  lemma StartReachable()
    ensures Reachable(Start())
  {
    var run := [Start()];
    assert Run(run) && run[0] == Start() && run[|run| - 1] == Start();
  }

  class Inner {
    var state: State

    constructor ()
      ensures Reachable(state) && state == Start()
    {
      state := Start();
      new;
      StartReachable();
    }

    /** Sets the flag, and wakes the waker in the slot. */
    method Notify()
      requires Reachable(state) && state.sender.Live?
      modifies this
      ensures Reachable(state) && state.sender.Live? && state.isSet && state.slot == None
      ensures state.woken == (old(state).woken || old(state).slot == Some(old(state).current))
      ensures state.notifies == old(state).notifies + 1 && state.items == old(state).items
      ensures state.receiver == old(state).receiver && state.current == old(state).current
    {
      hide Reachable;
      ReachableStep(state, Store(state));
      state := Store(state);
      ReachableStep(state, TakeWaker(state));
      state := TakeWaker(state);
      if state.sender.Waking? {
        ReachableStep(state, Wake(state));
        state := Wake(state);
      }
    }

    /** One poll: what it answers, and that it waits with its own waker or has nothing to wait for. */
    method PollNext(waker: Waker) returns (poll: Poll)
      requires Reachable(state) && state.receiver.Idle?
      modifies this
      ensures Reachable(state) && state.receiver == Idle(poll)
      ensures poll == if old(state).strong == 0 then End else Answer(old(state).isSet)
      ensures poll.Pending? ==> state.slot == Some(waker) && !state.isSet && state.current == waker
      ensures state.items == old(state).items + if poll.Item? then 1 else 0
      ensures state.sender == old(state).sender && state.notifies == old(state).notifies
    {
      ReachableKeeps(state);
      hide Reachable;
      ReachableStep(state, Upgrade(state, waker));
      state := Upgrade(state, waker);
      if state.receiver.Idle? {
        return End;
      }
      ReachableStep(state, Register(state));
      state := Register(state);
      ReachableStep(state, Swap(state));
      state := Swap(state);
      poll := Answer(state.receiver.got);
      ReachableStep(state, Release(state));
      state := Release(state);
    }

    /** Drops the sender: the waker in the slot is woken, and the next poll is the end. */
    method Drop()
      requires Reachable(state) && state.sender.Live? && state.receiver.Idle?
      modifies this
      ensures Reachable(state) && state.sender.Gone? && state.strong == 0
      ensures state.woken == (old(state).woken || old(state).slot == Some(old(state).current))
      ensures state.receiver == old(state).receiver && state.items == old(state).items
    {
      ReachableKeeps(state);
      hide Reachable;
      ReachableStep(state, DropSender(state));
      state := DropSender(state);
      ReachableStep(state, TakeLastWaker(state));
      state := TakeLastWaker(state);
      if state.sender.Parting? {
        ReachableStep(state, WakeLast(state));
        state := WakeLast(state);
      }
    }
  }
}
