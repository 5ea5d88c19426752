/**
Cleanup under every interleaving (owner.rs:520-575): cleanup functions may make owners, register
more functions and clean up or drop owners again, and so may other threads.

A call of `cleanup`, or the drop of an owner, is a frame that holds what it took and has not done
yet. The frames take their steps in any order, so that every nesting and every interleaving of the
calls is a run of this machine.
*/
module OwnerRuns {
  import opened Basics
  import opened OwnerForest
  import opened OwnerRuntime

  datatype Frame = Frame(children: seq<OwnerId>, cleanups: seq<Job>, nodes: seq<Job>)

  /** `next`: the next job; each registration is a new one. */
  datatype State = State(owners: Owners, frames: seq<Frame>, ran: seq<Job>, next: Job)

  function Start(): State {
    State([], [], [], 0)
  }

  // ---- Steps

  function NewOwner(s: State, parent: Option<OwnerId>, paused: bool): State
    requires parent.Some? ==> LiveOwner(s.owners, parent.value)
  {
    var o := |s.owners|;
    var more := s.owners + [Owner(true, parent, [], [], [], paused)];
    s.(owners := if parent.None? then more
                 else more[parent.value := more[parent.value].(children := more[parent.value].children + [o])])
  }

  function AddCleanup(s: State, o: OwnerId): State
    requires LiveOwner(s.owners, o)
  {
    s.(owners := s.owners[o := s.owners[o].(cleanups := s.owners[o].cleanups + [s.next])], next := s.next + 1)
  }

  function AddNode(s: State, o: OwnerId): State
    requires LiveOwner(s.owners, o)
  {
    s.(owners := s.owners[o := s.owners[o].(nodes := s.owners[o].nodes + [s.next])], next := s.next + 1)
  }

  /** Takes all that an owner has; `dropped`: because its last reference is dropped. */
  function Begin(s: State, o: OwnerId, dropped: bool): State
    requires LiveOwner(s.owners, o)
  {
    var was := s.owners[o];
    s.(owners := s.owners[o := Emptied(was).(alive := !dropped)],
       frames := s.frames + [Frame(was.children, was.cleanups, was.nodes)])
  }

  /** A frame goes on to its next child, which it cleans if that is alive. */
  function NextChild(s: State, i: nat): State
    requires i < |s.frames| && s.frames[i].children != []
  {
    var f := s.frames[i];
    var popped := s.(frames := s.frames[i := f.(children := f.children[1..])]);
    if LiveOwner(s.owners, f.children[0]) then Begin(popped, f.children[0], false) else popped
  }

  function RunCleanup(s: State, i: nat): State
    requires i < |s.frames| && s.frames[i].cleanups != []
  {
    var f := s.frames[i];
    s.(frames := s.frames[i := f.(cleanups := f.cleanups[1..])], ran := s.ran + [f.cleanups[0]])
  }

  function RemoveNodes(s: State, i: nat): State
    requires i < |s.frames|
  {
    var f := s.frames[i];
    s.(frames := s.frames[i := f.(nodes := [])], ran := s.ran + f.nodes)
  }

  /** A new owner is reached from its parent, has nothing yet, and changes nothing else but the parent's children. */
  lemma NewIsReached(s: State, parent: Option<OwnerId>, paused: bool)
    requires parent.Some? ==> LiveOwner(s.owners, parent.value)
    ensures var t, o := NewOwner(s, parent, paused), |s.owners|;
      && |t.owners| == o + 1 && t.owners[o] == Owner(true, parent, [], [], [], paused)
      && (parent.Some? ==> LiveUnder(t.owners, parent.value, o) && t.owners[parent.value].children == s.owners[parent.value].children + [o])
      && (forall x :: 0 <= x < o ==> t.owners[x] == if parent == Some(x) then s.owners[x].(children := t.owners[x].children) else s.owners[x])
      && t.frames == s.frames && t.ran == s.ran
  {
    var t, o := NewOwner(s, parent, paused), |s.owners|;
    if parent.Some? {
      var p := parent.value;
      assert t.owners[p].children == s.owners[p].children + [o];
      assert t.owners[p].children[|s.owners[p].children|] == o;
      assert LiveUnder(t.owners, p, p);
    }
  }

  /** A job is registered last, with its own owner and no other. */
  lemma RegistersLast(s: State, o: OwnerId)
    requires LiveOwner(s.owners, o)
    ensures AddCleanup(s, o).owners[o].cleanups == s.owners[o].cleanups + [s.next] && AddCleanup(s, o).owners[o].nodes == s.owners[o].nodes
    ensures AddNode(s, o).owners[o].nodes == s.owners[o].nodes + [s.next] && AddNode(s, o).owners[o].cleanups == s.owners[o].cleanups
    ensures forall t :: t == AddCleanup(s, o) || t == AddNode(s, o) ==>
      && |t.owners| == |s.owners| && t.frames == s.frames && t.ran == s.ran
      && (forall x :: 0 <= x < |s.owners| && x != o ==> t.owners[x] == s.owners[x])
      && t.owners[o].children == s.owners[o].children && t.owners[o].alive && t.owners[o].parent == s.owners[o].parent
  {
  }

  datatype Action =
    | New(parent: Option<OwnerId>, paused: bool)
    | Cleanup(o: OwnerId)   // registers a function
    | Node(o: OwnerId)      // registers a node
    | Clean(o: OwnerId)
    | Drop(o: OwnerId)
    | Child(i: nat)
    | Run(i: nat)
    | Remove(i: nat)

  predicate Enabled(s: State, a: Action) {
    match a
    case New(parent, _) => parent.Some? ==> LiveOwner(s.owners, parent.value)
    case Cleanup(o) => LiveOwner(s.owners, o)
    case Node(o) => LiveOwner(s.owners, o)
    case Clean(o) => LiveOwner(s.owners, o)
    case Drop(o) => LiveOwner(s.owners, o)
    case Child(i) => i < |s.frames| && s.frames[i].children != []
    case Run(i) => i < |s.frames| && s.frames[i].children == [] && s.frames[i].cleanups != []
    case Remove(i) => i < |s.frames| && s.frames[i].children == [] && s.frames[i].cleanups == []
  }

  function Apply(s: State, a: Action): State
    requires Enabled(s, a)
  {
    match a
    case New(parent, paused) => NewOwner(s, parent, paused)
    case Cleanup(o) => AddCleanup(s, o)
    case Node(o) => AddNode(s, o)
    case Clean(o) => Begin(s, o, false)
    case Drop(o) => Begin(s, o, true)
    case Child(i) => NextChild(s, i)
    case Run(i) => RunCleanup(s, i)
    case Remove(i) => RemoveNodes(s, i)
  }

  /** The states that `actions` lead through from `s`. */
  predicate Runs(s: State, actions: seq<Action>)
    decreases |actions|
  {
    actions == [] || (Enabled(s, actions[0]) && Runs(Apply(s, actions[0]), actions[1..]))
  }

  function Final(s: State, actions: seq<Action>): State
    requires Runs(s, actions)
    decreases |actions|
  {
    if actions == [] then s else Final(Apply(s, actions[0]), actions[1..])
  }

  // ---- Conservation

  /** How often a job is in some lists. */
  function Total(parts: seq<seq<Job>>, j: Job): nat {
    if parts == [] then 0 else multiset(parts[0])[j] + Total(parts[1..], j)
  }

  lemma {:induction false} TotalUpdate(parts: seq<seq<Job>>, i: nat, part: seq<Job>, j: Job)
    requires i < |parts|
    ensures Total(parts[i := part], j) + multiset(parts[i])[j] == Total(parts, j) + multiset(part)[j]
  {
    if i == 0 {
      assert parts[0 := part][1..] == parts[1..];
    } else {
      TotalUpdate(parts[1..], i - 1, part, j);
      assert parts[i := part][1..] == parts[1..][i - 1 := part];
    }
  }

  lemma {:induction false} TotalPush(parts: seq<seq<Job>>, part: seq<Job>, j: Job)
    ensures Total(parts + [part], j) == Total(parts, j) + multiset(part)[j]
  {
    if parts == [] {
      assert [part][1..] == [];
      assert parts + [part] == [part];
    } else {
      TotalPush(parts[1..], part, j);
      assert (parts + [part])[1..] == parts[1..] + [part];
    }
  }

  function OwnerParts(owners: Owners): seq<seq<Job>> {
    seq(|owners|, i requires 0 <= i < |owners| => Jobs(owners[i]))
  }

  function FrameJobs(f: Frame): seq<Job> {
    f.cleanups + f.nodes
  }

  function FrameParts(frames: seq<Frame>): seq<seq<Job>> {
    seq(|frames|, i requires 0 <= i < |frames| => FrameJobs(frames[i]))
  }

  /** In how many places a job is: with an owner, with a frame, or done. */
  function Places(s: State, j: Job): nat {
    Total(OwnerParts(s.owners), j) + Total(FrameParts(s.frames), j) + multiset(s.ran)[j]
  }

  /** Each job ever registered is in exactly one place. */
  ghost predicate Conserved(s: State) {
    forall j: Job :: Places(s, j) == if j < s.next then 1 else 0
  }

  lemma OwnerUpdate(owners: Owners, o: OwnerId, x: Owner, j: Job)
    requires o < |owners|
    ensures Total(OwnerParts(owners[o := x]), j) + multiset(Jobs(owners[o]))[j] == Total(OwnerParts(owners), j) + multiset(Jobs(x))[j]
  {
    TotalUpdate(OwnerParts(owners), o, Jobs(x), j);
    assert OwnerParts(owners[o := x]) == OwnerParts(owners)[o := Jobs(x)];
  }

  lemma FrameUpdate(frames: seq<Frame>, i: nat, f: Frame, j: Job)
    requires i < |frames|
    ensures Total(FrameParts(frames[i := f]), j) + multiset(FrameJobs(frames[i]))[j] == Total(FrameParts(frames), j) + multiset(FrameJobs(f))[j]
  {
    TotalUpdate(FrameParts(frames), i, FrameJobs(f), j);
    assert FrameParts(frames[i := f]) == FrameParts(frames)[i := FrameJobs(f)];
  }

  lemma FramePush(frames: seq<Frame>, f: Frame, j: Job)
    ensures Total(FrameParts(frames + [f]), j) == Total(FrameParts(frames), j) + multiset(FrameJobs(f))[j]
  {
    TotalPush(FrameParts(frames), FrameJobs(f), j);
    assert FrameParts(frames + [f]) == FrameParts(frames) + [FrameJobs(f)];
  }

  lemma NewConserves(s: State, parent: Option<OwnerId>, paused: bool, j: Job)
    requires parent.Some? ==> LiveOwner(s.owners, parent.value)
    ensures Places(NewOwner(s, parent, paused), j) == Places(s, j)
  {
    hide Total;
    var x := Owner(true, parent, [], [], [], paused);
    TotalPush(OwnerParts(s.owners), Jobs(x), j);
    var more := s.owners + [x];
    assert OwnerParts(more) == OwnerParts(s.owners) + [Jobs(x)];
    if parent.Some? {
      var p := more[parent.value];
      OwnerUpdate(more, parent.value, p.(children := p.children + [|s.owners|]), j);
    }
  }

  lemma AddConserves(s: State, o: OwnerId, x: Owner, j: Job)
    requires LiveOwner(s.owners, o)
    requires multiset(Jobs(x)) == multiset(Jobs(s.owners[o])) + multiset{s.next}
    ensures Places(s.(owners := s.owners[o := x], next := s.next + 1), j) == Places(s, j) + if j == s.next then 1 else 0
  {
    hide Total;
    OwnerUpdate(s.owners, o, x, j);
  }

  lemma BeginConserves(s: State, o: OwnerId, dropped: bool, j: Job)
    requires LiveOwner(s.owners, o)
    ensures Places(Begin(s, o, dropped), j) == Places(s, j)
  {
    hide Total;
    var was := s.owners[o];
    OwnerUpdate(s.owners, o, Emptied(was).(alive := !dropped), j);
    FramePush(s.frames, Frame(was.children, was.cleanups, was.nodes), j);
  }

  lemma ChildConserves(s: State, i: nat, j: Job)
    requires i < |s.frames| && s.frames[i].children != []
    ensures Places(NextChild(s, i), j) == Places(s, j)
  {
    hide Total;
    var f := s.frames[i];
    var popped := s.(frames := s.frames[i := f.(children := f.children[1..])]);
    FrameUpdate(s.frames, i, f.(children := f.children[1..]), j);
    if LiveOwner(s.owners, f.children[0]) {
      BeginConserves(popped, f.children[0], false, j);
    }
  }

  lemma RunConserves(s: State, i: nat, j: Job)
    requires i < |s.frames| && s.frames[i].cleanups != []
    ensures Places(RunCleanup(s, i), j) == Places(s, j)
  {
    hide Total;
    var f := s.frames[i];
    assert f.cleanups == [f.cleanups[0]] + f.cleanups[1..];
    FrameUpdate(s.frames, i, f.(cleanups := f.cleanups[1..]), j);
  }

  lemma RemoveConserves(s: State, i: nat, j: Job)
    requires i < |s.frames|
    ensures Places(RemoveNodes(s, i), j) == Places(s, j)
  {
    hide Total;
    FrameUpdate(s.frames, i, s.frames[i].(nodes := []), j);
  }

  function Registers(a: Action): nat {
    if a.Cleanup? || a.Node? then 1 else 0
  }

  lemma StepConserves(s: State, a: Action, j: Job)
    requires Enabled(s, a)
    ensures Apply(s, a).next == s.next + Registers(a)
    ensures Places(Apply(s, a), j) == Places(s, j) + if j == s.next then Registers(a) else 0
  {
    hide Places;
    match a
    case New(parent, paused) => NewConserves(s, parent, paused, j);
    case Cleanup(o) => AddConserves(s, o, s.owners[o].(cleanups := s.owners[o].cleanups + [s.next]), j);
    case Node(o) => AddConserves(s, o, s.owners[o].(nodes := s.owners[o].nodes + [s.next]), j);
    case Clean(o) => BeginConserves(s, o, false, j);
    case Drop(o) => BeginConserves(s, o, true, j);
    case Child(i) => ChildConserves(s, i, j);
    case Run(i) => RunConserves(s, i, j);
    case Remove(i) => RemoveConserves(s, i, j);
  }

  // ---- The forest

  lemma NewKeepsForest(s: State, parent: Option<OwnerId>, paused: bool)
    requires Forest(s.owners) && (parent.Some? ==> LiveOwner(s.owners, parent.value))
    ensures Forest(NewOwner(s, parent, paused).owners)
  {
    var after := NewOwner(s, parent, paused).owners;
    forall x | 0 <= x < |after| ensures Family(after, x) {
      if x < |s.owners| {
        assert Family(s.owners, x);
      }
    }
  }

  lemma BeginKeepsForest(s: State, o: OwnerId, dropped: bool)
    requires Forest(s.owners) && LiveOwner(s.owners, o)
    ensures Forest(Begin(s, o, dropped).owners)
  {
    var after := Begin(s, o, dropped).owners;
    forall x | 0 <= x < |after| ensures Family(after, x) {
      assert Family(s.owners, x);
    }
  }

  lemma StepKeepsForest(s: State, a: Action)
    requires Forest(s.owners) && Enabled(s, a)
    ensures Forest(Apply(s, a).owners)
  {
    hide Forest;
    match a
    case New(parent, paused) => NewKeepsForest(s, parent, paused);
    case Cleanup(o) => SameFamilies(s.owners, o, s.owners[o].(cleanups := s.owners[o].cleanups + [s.next]));
    case Node(o) => SameFamilies(s.owners, o, s.owners[o].(nodes := s.owners[o].nodes + [s.next]));
    case Clean(o) => BeginKeepsForest(s, o, false);
    case Drop(o) => BeginKeepsForest(s, o, true);
    case Child(i) =>
      var f := s.frames[i];
      if LiveOwner(s.owners, f.children[0]) {
        BeginKeepsForest(s.(frames := s.frames[i := f.(children := f.children[1..])]), f.children[0], false);
      }
    case Run(i) =>
    case Remove(i) =>
  }

  ghost predicate Inv(s: State) {
    Forest(s.owners) && Conserved(s)
  }

  lemma StepKeeps(s: State, a: Action)
    requires Inv(s) && Enabled(s, a)
    ensures Inv(Apply(s, a))
  {
    hide Forest, Places, Apply, Enabled;
    StepKeepsForest(s, a);
    forall j: Job ensures Places(Apply(s, a), j) == if j < Apply(s, a).next then 1 else 0 {
      StepConserves(s, a, j);
    }
  }

  lemma {:induction false} RunKeeps(s: State, actions: seq<Action>)
    requires Inv(s) && Runs(s, actions)
    ensures Inv(Final(s, actions))
    decreases |actions|
  {
    if actions != [] {
      StepKeeps(s, actions[0]);
      RunKeeps(Apply(s, actions[0]), actions[1..]);
    }
  }

  lemma StartKept()
    ensures Inv(Start())
  {
  }

  lemma {:induction false} CountedTwice(s: seq<Job>, i: nat, j: nat)
    requires i < j < |s| && s[i] == s[j]
    ensures multiset(s)[s[i]] >= 2
  {
    var a, b := s[..j], s[j..];
    assert s == a + b && a[i] == s[i] && b[0] == s[j];
    assert s[i] in multiset(a) && s[j] in multiset(b);
  }

  /** No cleanup function is run twice and no node removed twice, in any run. */
  lemma JobsRunOnce(actions: seq<Action>)
    requires Runs(Start(), actions)
    ensures Distinct(Final(Start(), actions).ran)
    ensures forall j :: j in Final(Start(), actions).ran ==> j < Final(Start(), actions).next
  {
    StartKept();
    RunKeeps(Start(), actions);
    var s := Final(Start(), actions);
    hide Final, Forest, Total, Runs;
    forall i, j | 0 <= i < j < |s.ran| ensures s.ran[i] != s.ran[j] {
      assert Places(s, s.ran[i]) <= 1;
      if s.ran[i] == s.ran[j] {
        CountedTwice(s.ran, i, j);
      }
    }
    forall j | j in s.ran ensures j < s.next {
      assert multiset(s.ran)[j] > 0;
      assert Places(s, j) > 0;
    }
  }

  // ---- What is cleaned or dropped is run

  predicate InFrame(s: State, j: Job) {
    exists i :: 0 <= i < |s.frames| && j in FrameJobs(s.frames[i])
  }

  /** `x` is reached from a child that a frame has still to clean. */
  predicate Doomed(s: State, x: OwnerId) {
    exists i, c :: 0 <= i < |s.frames| && c in s.frames[i].children && LiveUnder(s.owners, c, x)
  }

  /** The job is done, or a frame has it, or will come to its owner. */
  predicate Due(s: State, j: Job) {
    || j in s.ran
    || InFrame(s, j)
    || exists x :: 0 <= x < |s.owners| && j in Jobs(s.owners[x]) && Doomed(s, x)
  }

  /** Links are only added. */
  predicate Grown(was: Owners, now: Owners) {
    && |was| <= |now|
    && forall y :: 0 <= y < |was| ==>
        && now[y].alive == was[y].alive && now[y].parent == was[y].parent
        && was[y].children <= now[y].children
        && forall j :: j in Jobs(was[y]) ==> j in Jobs(now[y])
  }

  lemma {:induction false} UnderGrows(was: Owners, now: Owners, root: OwnerId, x: OwnerId)
    requires Grown(was, now) && LiveUnder(was, root, x)
    ensures LiveUnder(now, root, x)
    decreases x
  {
    if x != root {
      var p := was[x].parent.value;
      UnderGrows(was, now, root, p);
      assert was[p].children <= now[p].children;
      assert x in now[p].children;
    }
  }

  lemma DueGrows(s: State, t: State, j: Job)
    requires Grown(s.owners, t.owners) && t.frames == s.frames && t.ran == s.ran && Due(s, j)
    ensures Due(t, j)
  {
    if j !in s.ran && !InFrame(s, j) {
      var x :| 0 <= x < |s.owners| && j in Jobs(s.owners[x]) && Doomed(s, x);
      var i, c :| 0 <= i < |s.frames| && c in s.frames[i].children && LiveUnder(s.owners, c, x);
      UnderGrows(s.owners, t.owners, c, x);
      assert Doomed(t, x) && j in Jobs(t.owners[x]);
    }
  }

  /** Taking from `o` leaves what is reached reached: as before, or from a child of `o`. */
  lemma {:induction false} CutAt(was: Owners, o: OwnerId, now: Owners, c: OwnerId, x: OwnerId)
    requires o < |was| && |now| == |was| && now[o].parent == was[o].parent
    requires forall y :: 0 <= y < |was| && y != o ==> now[y] == was[y]
    requires LiveUnder(was, c, x) && x != o
    ensures (c != o && LiveUnder(now, c, x)) || exists d :: d in was[o].children && LiveUnder(now, d, x)
    decreases x
  {
    if x != c {
      var p := was[x].parent.value;
      if p == o {
        assert LiveUnder(now, x, x);
      } else {
        CutAt(was, o, now, c, p);
        if d :| d in was[o].children && LiveUnder(now, d, p) {
          assert LiveUnder(now, d, x);
        }
      }
    }
  }

  /** What is reached from `c` before an owner is taken from is due after, if `c` is to be cleaned or is that owner. */
  lemma DueUnder(s: State, o: OwnerId, dropped: bool, c: OwnerId, x: OwnerId, j: Job)
    requires LiveOwner(s.owners, o) && LiveUnder(s.owners, c, x) && j in Jobs(s.owners[x])
    requires c == o || exists i :: 0 <= i < |s.frames| && c in s.frames[i].children
    ensures Due(Begin(s, o, dropped), j)
  {
    var t := Begin(s, o, dropped);
    var last := |s.frames|;
    if x == o {
      assert j in FrameJobs(t.frames[last]);
    } else {
      CutAt(s.owners, o, t.owners, c, x);
      if d :| d in s.owners[o].children && LiveUnder(t.owners, d, x) {
        assert d in t.frames[last].children;
        assert Doomed(t, x);
      } else {
        var i :| 0 <= i < |s.frames| && c in s.frames[i].children;
        assert c in t.frames[i].children;
        assert Doomed(t, x);
      }
      assert j in Jobs(t.owners[x]);
    }
  }

  lemma DueBegin(s: State, o: OwnerId, dropped: bool, j: Job)
    requires LiveOwner(s.owners, o) && Due(s, j)
    ensures Due(Begin(s, o, dropped), j)
  {
    var t := Begin(s, o, dropped);
    if j !in s.ran {
      if i :| 0 <= i < |s.frames| && j in FrameJobs(s.frames[i]) {
        assert t.frames[i] == s.frames[i];
      } else {
        var x :| 0 <= x < |s.owners| && j in Jobs(s.owners[x]) && Doomed(s, x);
        var i, c :| 0 <= i < |s.frames| && c in s.frames[i].children && LiveUnder(s.owners, c, x);
        DueUnder(s, o, dropped, c, x, j);
      }
    }
  }

  lemma DueChild(s: State, i: nat, j: Job)
    requires i < |s.frames| && s.frames[i].children != [] && Due(s, j)
    ensures Due(NextChild(s, i), j)
  {
    var f := s.frames[i];
    var first := f.children[0];
    var popped := s.(frames := s.frames[i := f.(children := f.children[1..])]);
    OnlyThroughFirst(s, i, j);
    if !Due(popped, j) {
      var x :| 0 <= x < |s.owners| && j in Jobs(s.owners[x]) && LiveUnder(s.owners, first, x);
      UnderBounds(s.owners, first, x);
      DueUnder(popped, first, false, first, x, j);
    } else if LiveOwner(s.owners, first) {
      DueBegin(popped, first, false, j);
    }
  }

  lemma OnlyThroughFirst(s: State, i: nat, j: Job)
    requires i < |s.frames| && s.frames[i].children != [] && Due(s, j)
    ensures Due(s.(frames := s.frames[i := s.frames[i].(children := s.frames[i].children[1..])]), j)
         || exists x :: 0 <= x < |s.owners| && j in Jobs(s.owners[x]) && LiveUnder(s.owners, s.frames[i].children[0], x)
  {
    var f := s.frames[i];
    var t := s.(frames := s.frames[i := f.(children := f.children[1..])]);
    if j !in s.ran {
      if k :| 0 <= k < |s.frames| && j in FrameJobs(s.frames[k]) {
        assert j in FrameJobs(t.frames[k]);
      } else {
        var x :| 0 <= x < |s.owners| && j in Jobs(s.owners[x]) && Doomed(s, x);
        var k, c :| 0 <= k < |s.frames| && c in s.frames[k].children && LiveUnder(s.owners, c, x);
        if k != i || c != f.children[0] {
          assert c in t.frames[k].children;
          assert Doomed(t, x);
        }
      }
    }
  }

  /** A frame does some of its jobs. */
  lemma DueDone(s: State, i: nat, f: Frame, done: seq<Job>, j: Job)
    requires i < |s.frames| && f.children == s.frames[i].children && Due(s, j)
    requires forall k :: k in FrameJobs(s.frames[i]) ==> k in FrameJobs(f) || k in done
    ensures Due(s.(frames := s.frames[i := f], ran := s.ran + done), j)
  {
    var t := s.(frames := s.frames[i := f], ran := s.ran + done);
    if j !in s.ran {
      if k :| 0 <= k < |s.frames| && j in FrameJobs(s.frames[k]) {
        assert j in FrameJobs(t.frames[k]) || j in t.ran;
      } else {
        var x :| 0 <= x < |s.owners| && j in Jobs(s.owners[x]) && Doomed(s, x);
        var k, c :| 0 <= k < |s.frames| && c in s.frames[k].children && LiveUnder(s.owners, c, x);
        assert c in t.frames[k].children;
        assert Doomed(t, x);
      }
    }
  }

  lemma StepKeepsDue(s: State, a: Action, j: Job)
    requires Enabled(s, a) && Due(s, j)
    ensures Due(Apply(s, a), j)
  {
    hide Due;
    match a
    case New(_, _) => DueGrows(s, Apply(s, a), j);
    case Cleanup(_) => DueGrows(s, Apply(s, a), j);
    case Node(_) => DueGrows(s, Apply(s, a), j);
    case Clean(o) => DueBegin(s, o, false, j);
    case Drop(o) => DueBegin(s, o, true, j);
    case Child(i) => DueChild(s, i, j);
    case Run(i) =>
      var f := s.frames[i];
      assert f.cleanups == [f.cleanups[0]] + f.cleanups[1..];
      DueDone(s, i, f.(cleanups := f.cleanups[1..]), [f.cleanups[0]], j);
    case Remove(i) =>
      DueDone(s, i, s.frames[i].(nodes := []), s.frames[i].nodes, j);
  }

  lemma {:induction false} RunKeepsDue(s: State, actions: seq<Action>, j: Job)
    requires Runs(s, actions) && Due(s, j)
    ensures Due(Final(s, actions), j)
    decreases |actions|
  {
    hide Due, Apply;
    if actions != [] {
      StepKeepsDue(s, actions[0], j);
      RunKeepsDue(Apply(s, actions[0]), actions[1..], j);
    }
  }

  /** No call of `cleanup` and no drop is under way. */
  predicate Quiescent(s: State) {
    forall i :: 0 <= i < |s.frames| ==> s.frames[i] == Frame([], [], [])
  }

  lemma QuiescentDone(s: State, j: Job)
    requires Quiescent(s) && Due(s, j)
    ensures j in s.ran
  {
  }

  /**
  Once `o` is cleaned or dropped, then however the run goes on, by the time no cleanup is under way
  every job that was with a live owner under `o` has been done, and by JobsRunOnce only once.
  */
  lemma CleanedJobsRun(s: State, o: OwnerId, dropped: bool, actions: seq<Action>, x: OwnerId, j: Job)
    requires LiveOwner(s.owners, o) && LiveUnder(s.owners, o, x) && j in Jobs(s.owners[x])
    requires Runs(Begin(s, o, dropped), actions) && Quiescent(Final(Begin(s, o, dropped), actions))
    ensures j in Final(Begin(s, o, dropped), actions).ran
  {
    hide Due, Runs, Final, Quiescent;
    DueUnder(s, o, dropped, o, x, j);
    RunKeepsDue(Begin(s, o, dropped), actions, j);
    QuiescentDone(Final(Begin(s, o, dropped), actions), j);
  }

  // ---- In which order

  /** Of two jobs, the first is done before the second: both are still with the frame, one is, or neither. */
  predicate InTurn(s: State, i: nat, a: Job, b: Job) {
    i < |s.frames| &&
    (|| Before(FrameJobs(s.frames[i]), a, b)
     || (a in s.ran && b in FrameJobs(s.frames[i]))
     || Before(s.ran, a, b))
  }

  lemma BeforeGrows(s: seq<Job>, more: seq<Job>, a: Job, b: Job)
    requires Before(s, a, b)
    ensures Before(s + more, a, b)
  {
    BeforeWithin([], s, more, a, b);
    assert [] + s + more == s + more;
  }

  /** The frame does its first jobs. */
  lemma FirstDone(queue: seq<Job>, done: seq<Job>, rest: seq<Job>, ran: seq<Job>, a: Job, b: Job)
    requires queue == done + rest
    requires Before(queue, a, b) || (a in ran && b in queue) || Before(ran, a, b)
    ensures Before(rest, a, b) || (a in ran + done && b in rest) || Before(ran + done, a, b)
  {
    if Before(ran, a, b) {
      BeforeGrows(ran, done, a, b);
    } else if a in ran && b in queue {
      if b in done {
        BeforeConcat(ran, done, a, b);
      }
    } else {
      var i, j :| 0 <= i < j < |queue| && queue[i] == a && queue[j] == b;
      if j < |done| {
        assert done[i] == a && done[j] == b;
        BeforeWithin(ran, done, [], a, b);
        assert ran + done + [] == ran + done;
      } else if i < |done| {
        assert done[i] == a && rest[j - |done|] == b;
      } else {
        assert rest[i - |done|] == a && rest[j - |done|] == b;
      }
    }
  }

  lemma OthersInTurn(s: State, t: State, i: nat, a: Job, b: Job)
    requires InTurn(s, i, a, b) && |s.frames| <= |t.frames|
    requires FrameJobs(t.frames[i]) == FrameJobs(s.frames[i]) && s.ran <= t.ran
    ensures InTurn(t, i, a, b)
  {
    var more := t.ran[|s.ran|..];
    assert t.ran == s.ran + more;
    if Before(s.ran, a, b) {
      BeforeGrows(s.ran, more, a, b);
    }
  }

  lemma StepInTurn(s: State, act: Action, i: nat, a: Job, b: Job)
    requires Enabled(s, act) && InTurn(s, i, a, b)
    ensures InTurn(Apply(s, act), i, a, b)
  {
    var t := Apply(s, act);
    if (act.Run? || act.Remove?) && act.i == i {
      var f := s.frames[i];
      if act.Run? {
        assert FrameJobs(f) == [f.cleanups[0]] + FrameJobs(t.frames[i]);
        FirstDone(FrameJobs(f), [f.cleanups[0]], FrameJobs(t.frames[i]), s.ran, a, b);
      } else {
        assert FrameJobs(f) == f.nodes + FrameJobs(t.frames[i]);
        FirstDone(FrameJobs(f), f.nodes, FrameJobs(t.frames[i]), s.ran, a, b);
      }
    } else {
      OthersInTurn(s, t, i, a, b);
    }
  }

  lemma {:induction false} RunInTurn(s: State, actions: seq<Action>, i: nat, a: Job, b: Job)
    requires Runs(s, actions) && InTurn(s, i, a, b)
    ensures InTurn(Final(s, actions), i, a, b)
    decreases |actions|
  {
    hide InTurn, Apply, Enabled;
    if actions != [] {
      StepInTurn(s, actions[0], i, a, b);
      RunInTurn(Apply(s, actions[0]), actions[1..], i, a, b);
    }
  }

  lemma {:induction false} FoundIn(parts: seq<seq<Job>>, i: nat, j: Job)
    requires i < |parts| && j in parts[i]
    ensures Total(parts, j) >= 1
  {
    if i > 0 {
      FoundIn(parts[1..], i - 1, j);
    }
  }

  lemma NotDoneYet(s: State, i: nat, j: Job)
    requires Conserved(s) && i < |s.frames| && j in FrameJobs(s.frames[i])
    ensures j !in s.ran
  {
    FoundIn(FrameParts(s.frames), i, j);
    assert Places(s, j) <= 1;
  }

  /**
  In every run after an owner is cleaned or dropped, its cleanup functions run in the order in which
  they were registered, and its nodes are removed after all of them, in their order.
  */
  lemma CleanedInOrder(s: State, o: OwnerId, dropped: bool, actions: seq<Action>, k: nat, m: nat)
    requires Inv(s) && LiveOwner(s.owners, o) && Runs(Begin(s, o, dropped), actions)
    requires k < m < |s.owners[o].cleanups + s.owners[o].nodes|
    ensures var jobs, ran := s.owners[o].cleanups + s.owners[o].nodes, Final(Begin(s, o, dropped), actions).ran;
      jobs[m] in ran ==> Before(ran, jobs[k], jobs[m])
  {
    var jobs, start, i := s.owners[o].cleanups + s.owners[o].nodes, Begin(s, o, dropped), |s.frames|;
    assert start == Apply(s, if dropped then Drop(o) else Clean(o));
    StepKeeps(s, if dropped then Drop(o) else Clean(o));
    RunKeeps(start, actions);
    assert FrameJobs(start.frames[i]) == jobs;
    assert InTurn(start, i, jobs[k], jobs[m]);
    hide Runs, Final, Total;
    RunInTurn(start, actions, i, jobs[k], jobs[m]);
    var end := Final(start, actions);
    if jobs[m] in FrameJobs(end.frames[i]) {
      NotDoneYet(end, i, jobs[m]);
    }
  }

  // ---- Nothing else is run

  lemma {:induction false} CleanedTotal(owners: Owners, order: seq<OwnerId>, j: Job)
    requires Distinct(order) && forall i :: 0 <= i < |order| ==> order[i] < |owners|
    ensures multiset(JobsOf(owners, order))[j] + Total(OwnerParts(Cleaned(owners, order)), j) == Total(OwnerParts(owners), j)
    decreases |order|
  {
    hide Total, JobsOf;
    if order == [] {
      NothingCleaned(owners);
    } else {
      var n := |order| - 1;
      var init, last := order[..n], order[n];
      assert order == init + [last];
      assert Distinct(init) && last !in init;
      CleanedTotal(owners, init, j);
      JobsOneMore(owners, init, last, j);
      CleanedOneMore(owners, init, last);
      hide Cleaned;
      OwnerUpdate(Cleaned(owners, init), last, Emptied(owners[last]), j);
      EmptiedJobs(owners[last], j);
    }
  }

  lemma NothingCleaned(owners: Owners)
    ensures JobsOf(owners, []) == [] && Cleaned(owners, []) == owners
  {
  }

  lemma EmptiedJobs(o: Owner, j: Job)
    ensures multiset(Jobs(Emptied(o)))[j] == 0
  {
    assert Jobs(Emptied(o)) == [];
  }

  lemma JobsOneMore(owners: Owners, init: seq<OwnerId>, last: OwnerId, j: Job)
    requires last < |owners|
    ensures multiset(JobsOf(owners, init + [last]))[j] == multiset(JobsOf(owners, init))[j] + multiset(Jobs(owners[last]))[j]
  {
    JobsConcat(owners, init, [last]);
    JobsOne(owners, last);
  }

  lemma CleanedOneMore(owners: Owners, init: seq<OwnerId>, last: OwnerId)
    requires last !in init && last < |owners|
    ensures Cleaned(owners, init)[last] == owners[last]
    ensures Cleaned(owners, init + [last]) == Cleaned(owners, init)[last := Emptied(owners[last])]
  {
  }

  /** What a whole cleanup runs is exactly what the owners had and have no more. */
  lemma CleanupConserves(owners: Owners, o: OwnerId, j: Job)
    requires Forest(owners) && o < |owners|
    ensures multiset(JobsOf(owners, PostOrder(owners, o)))[j] + Total(OwnerParts(Cleaned(owners, PostOrder(owners, o))), j)
         == Total(OwnerParts(owners), j)
  {
    hide Total, JobsOf, Cleaned;
    var order := PostOrder(owners, o);
    OrderDistinct(owners, o);
    forall i | 0 <= i < |order| ensures order[i] < |owners| {
      assert order[i] in order;
      OrderMembers(owners, o, order[i]);
    }
    CleanedTotal(owners, order, j);
  }
}
