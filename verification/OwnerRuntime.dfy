/** The operations on owners (owner.rs), where cleanup functions do not use the owners themselves. */
module OwnerRuntime {
  import opened Basics
  import opened OwnerForest

  // ---- Cleaning

  function Emptied(o: Owner): Owner {
    o.(children := [], cleanups := [], nodes := [])
  }

  function Cleaned(owners: Owners, which: seq<OwnerId>): (r: Owners)
    ensures |r| == |owners| && forall i :: 0 <= i < |r| ==> r[i].alive == owners[i].alive
  {
    seq(|owners|, i requires 0 <= i < |owners| => if i in which then Emptied(owners[i]) else owners[i])
  }

  /** The cleanup functions and then the nodes of each owner, in order. */
  function JobsOf(owners: Owners, order: seq<OwnerId>): seq<Job> {
    if order == [] then []
    else (if order[0] < |owners| then Jobs(owners[order[0]]) else []) + JobsOf(owners, order[1..])
  }

  lemma {:induction false} JobsConcat(owners: Owners, a: seq<OwnerId>, b: seq<OwnerId>)
    ensures JobsOf(owners, a + b) == JobsOf(owners, a) + JobsOf(owners, b)
  {
    if a == [] {
      assert a + b == b;
    } else {
      assert (a + b)[1..] == a[1..] + b;
      JobsConcat(owners, a[1..], b);
    }
  }

  lemma JobsOne(owners: Owners, o: OwnerId)
    requires o < |owners|
    ensures JobsOf(owners, [o]) == Jobs(owners[o])
  {
    assert [o][1..] == [] && JobsOf(owners, []) == [];
  }

  lemma {:induction false} SameJobs(was: Owners, now: Owners, order: seq<OwnerId>)
    requires |now| == |was| && forall x :: x in order && x < |was| ==> now[x] == was[x]
    ensures JobsOf(now, order) == JobsOf(was, order)
  {
    if order != [] {
      SameJobs(was, now, order[1..]);
    }
  }

  lemma CleanedForest(owners: Owners, which: seq<OwnerId>)
    requires Forest(owners)
    ensures Forest(Cleaned(owners, which))
  {
    forall p | 0 <= p < |owners| ensures Family(Cleaned(owners, which), p) {
      assert Family(owners, p);
    }
  }

  lemma CleanedConcat(owners: Owners, a: seq<OwnerId>, b: seq<OwnerId>)
    ensures Cleaned(Cleaned(owners, a), b) == Cleaned(owners, a + b)
  {
  }

  /** The order under an owner rests on the owners under it alone. */
  lemma {:induction false} SameOrder(was: Owners, now: Owners, o: OwnerId)
    requires Forest(was) && Forest(now) && |now| == |was| && o < |was|
    requires forall x :: o <= x < |was| ==> now[x].alive == was[x].alive
    requires forall x: OwnerId :: LiveUnder(was, o, x) ==> now[x] == was[x]
    ensures PostOrder(now, o) == PostOrder(was, o)
    decreases |was| - o, |was[o].children| + 1
  {
    if was[o].alive {
      assert LiveUnder(was, o, o);
      SameChildOrder(was, now, o, |was[o].children|);
    }
  }

  lemma {:induction false} SameChildOrder(was: Owners, now: Owners, o: OwnerId, k: nat)
    requires Forest(was) && Forest(now) && |now| == |was| && LiveOwner(was, o) && now[o] == was[o]
    requires k <= |was[o].children|
    requires forall x :: o <= x < |was| ==> now[x].alive == was[x].alive
    requires forall x: OwnerId :: LiveUnder(was, o, x) ==> now[x] == was[x]
    ensures ChildOrder(now, o, k) == ChildOrder(was, o, k)
    decreases |was| - o, k
  {
    if k > 0 {
      assert Family(was, o);
      var c := was[o].children[k - 1];
      SameChildOrder(was, now, o, k - 1);
      forall x: OwnerId | LiveUnder(was, c, x) ensures now[x] == was[x] {
        UnderBounds(was, c, x);
        ChildUnder(was, o, k - 1);
        UnderTransitive(was, o, c, x);
      }
      SameOrder(was, now, c);
    }
  }

  /** Nothing under a child is the owner itself or under an earlier child. */
  lemma ChildrenApart(was: Owners, o: OwnerId, k: nat, x: OwnerId)
    requires Forest(was) && o < |was| && k < |was[o].children| && LiveUnder(was, was[o].children[k], x)
    ensures x !in [o] + ChildOrder(was, o, k)
  {
    assert Family(was, o);
    var c := was[o].children[k];
    UnderBounds(was, c, x);
    ChildMembers(was, o, k, x);
    if x in ChildOrder(was, o, k) {
      var i :| 0 <= i < k && LiveUnder(was, was[o].children[i], x);
      SiblingsApart(was, o, was[o].children[i], c, x);
    }
  }

  lemma {:induction false} UnderInside(owners: Owners, root: OwnerId, x: OwnerId)
    requires LiveUnder(owners, root, x)
    ensures x < |owners|
  {
  }

  /** Cleaning other owners leaves the order and the jobs under `c` as they were. */
  lemma OthersCleaned(was: Owners, which: seq<OwnerId>, c: OwnerId)
    requires Forest(was) && c < |was|
    requires forall x: OwnerId :: LiveUnder(was, c, x) ==> x !in which
    ensures Forest(Cleaned(was, which))
    ensures PostOrder(Cleaned(was, which), c) == PostOrder(was, c)
    ensures JobsOf(Cleaned(was, which), PostOrder(was, c)) == JobsOf(was, PostOrder(was, c))
  {
    hide Family, PostOrder, LiveUnder;
    var now := Cleaned(was, which);
    CleanedForest(was, which);
    forall x: OwnerId | LiveUnder(was, c, x) ensures x < |was| && now[x] == was[x] {
      UnderInside(was, c, x);
    }
    SameOrder(was, now, c);
    forall x | x in PostOrder(was, c) && x < |was| ensures now[x] == was[x] {
      OrderMembers(was, c, x);
    }
    SameJobs(was, now, PostOrder(was, c));
  }

  /** Cleaning an owner and the earlier children leaves what is under the next child as it was. */
  lemma NextChildUntouched(was: Owners, o: OwnerId, k: nat)
    requires Forest(was) && o < |was| && k < |was[o].children|
    ensures o < was[o].children[k] < |was|
    ensures var c, now := was[o].children[k], Cleaned(was, [o] + ChildOrder(was, o, k));
      && Forest(now)
      && PostOrder(now, c) == PostOrder(was, c)
      && JobsOf(now, PostOrder(was, c)) == JobsOf(was, PostOrder(was, c))
  {
    assert Family(was, o);
    hide LiveUnder, ChildOrder, PostOrder, Family, JobsOf, Cleaned;
    var c := was[o].children[k];
    forall x: OwnerId | LiveUnder(was, c, x) ensures x !in [o] + ChildOrder(was, o, k) {
      ChildrenApart(was, o, k, x);
    }
    OthersCleaned(was, [o] + ChildOrder(was, o, k), c);
  }

  lemma OneMoreChild(was: Owners, o: OwnerId, k: nat)
    requires Forest(was) && o < |was| && k < |was[o].children| && was[o].children[k] < |was|
    ensures ChildOrder(was, o, k + 1) == ChildOrder(was, o, k) + PostOrder(was, was[o].children[k])
  {
  }

  /** Cleaning some owners and then others is cleaning them all, and their jobs add up. */
  lemma CleanedAfter(was: Owners, o: OwnerId, a: seq<OwnerId>, b: seq<OwnerId>)
    ensures JobsOf(was, a + b) == JobsOf(was, a) + JobsOf(was, b)
    ensures Cleaned(Cleaned(was, [o] + a), b) == Cleaned(was, [o] + (a + b))
  {
    hide Cleaned, JobsOf;
    JobsConcat(was, a, b);
    CleanedConcat(was, [o] + a, b);
    assert [o] + a + b == [o] + (a + b);
  }

  // ---- What a trace of cleanup says

  /** The cleanup functions of the owner ran one after the other as they were registered, and then its nodes were removed. */
  ghost predicate Contributes(trace: seq<Job>, o: Owner) {
    exists before, after :: Around(trace, before, o, after)
  }

  predicate Around(trace: seq<Job>, before: seq<Job>, o: Owner, after: seq<Job>) {
    trace == before + o.cleanups + o.nodes + after
  }

  /** All of one owner was cleaned before all of another. */
  ghost predicate CleanedBefore(trace: seq<Job>, first: Owner, second: Owner) {
    exists cut :: 0 <= cut <= |trace| && Contributes(trace[..cut], first) && Contributes(trace[cut..], second)
  }

  lemma {:induction false} OrderContributes(owners: Owners, order: seq<OwnerId>, i: nat)
    requires i < |order| && order[i] < |owners|
    ensures Contributes(JobsOf(owners, order), owners[order[i]])
  {
    var a, o, b := order[..i], owners[order[i]], order[i + 1..];
    assert order == a + ([order[i]] + b);
    JobsConcat(owners, a, [order[i]] + b);
    JobsConcat(owners, [order[i]], b);
    JobsOne(owners, order[i]);
    hide JobsOf;
    var before, after := JobsOf(owners, a), JobsOf(owners, b);
    assert before + ((o.cleanups + o.nodes) + after) == before + o.cleanups + o.nodes + after;
    assert Around(JobsOf(owners, order), before, o, after);
  }

  lemma OrderCleanedBefore(owners: Owners, order: seq<OwnerId>, x: OwnerId, y: OwnerId)
    requires Before(order, x, y) && x < |owners| && y < |owners|
    ensures CleanedBefore(JobsOf(owners, order), owners[x], owners[y])
  {
    var i, j :| 0 <= i < j < |order| && order[i] == x && order[j] == y;
    var a, b := order[..j], order[j..];
    assert order == a + b;
    JobsConcat(owners, a, b);
    OrderContributes(owners, a, i);
    OrderContributes(owners, b, 0);
    hide JobsOf, Contributes;
    var all, cut := JobsOf(owners, order), |JobsOf(owners, a)|;
    assert all[..cut] == JobsOf(owners, a) && all[cut..] == JobsOf(owners, b);
  }

  /** What cleaning the live owners under `o` does, in their own terms. */
  ghost predicate CleansUnder(owners: Owners, o: OwnerId, trace: seq<Job>) {
    && (forall x: OwnerId :: x < |owners| && LiveUnder(owners, o, x) ==> Contributes(trace, owners[x]))
    && (forall a: OwnerId, x: OwnerId :: a < |owners| && x < |owners| && LiveUnder(owners, o, a) && LiveUnder(owners, a, x) && x != a ==>
          CleanedBefore(trace, owners[x], owners[a]))
  }

  lemma TraceCleansUnder(owners: Owners, o: OwnerId)
    requires Forest(owners) && o < |owners|
    ensures CleansUnder(owners, o, JobsOf(owners, PostOrder(owners, o)))
  {
    hide PostOrder, JobsOf, Contributes, CleanedBefore, Before, LiveUnder, Forest;
    var order := PostOrder(owners, o);
    forall x: OwnerId | x < |owners| && LiveUnder(owners, o, x) ensures Contributes(JobsOf(owners, order), owners[x]) {
      OrderMembers(owners, o, x);
      var i :| 0 <= i < |order| && order[i] == x;
      OrderContributes(owners, order, i);
    }
    forall a: OwnerId, x: OwnerId | a < |owners| && x < |owners| && LiveUnder(owners, o, a) && LiveUnder(owners, a, x) && x != a
      ensures CleanedBefore(JobsOf(owners, order), owners[x], owners[a])
    {
      DescendantsFirst(owners, o, a, x);
      OrderCleanedBefore(owners, order, x, a);
    }
  }

  /** All under one child is cleaned before all under a child made later. */
  lemma TraceSiblings(owners: Owners, o: OwnerId, p: OwnerId, i: nat, j: nat, x: OwnerId, y: OwnerId)
    requires Forest(owners) && o < |owners| && x < |owners| && y < |owners|
    requires LiveUnder(owners, o, p) && i < j < |owners[p].children|
    requires LiveUnder(owners, owners[p].children[i], x) && LiveUnder(owners, owners[p].children[j], y)
    ensures CleanedBefore(JobsOf(owners, PostOrder(owners, o)), owners[x], owners[y])
  {
    hide PostOrder, JobsOf, CleanedBefore;
    SiblingsInOrder(owners, o, p, i, j, x, y);
    OrderCleanedBefore(owners, PostOrder(owners, o), x, y);
  }

  // ---- Ancestors

  function Upgraded(owners: Owners, weak: Option<OwnerId>): Option<OwnerId> {
    if weak.Some? && LiveOwner(owners, weak.value) then weak else None
  }

  function Ancestors(owners: Owners, o: OwnerId): seq<OwnerId>
    requires Forest(owners) && o < |owners|
    decreases o
  {
    assert Family(owners, o);
    match Upgraded(owners, owners[o].parent)
    case None => []
    case Some(p) => [p] + Ancestors(owners, p)
  }

  /** Nearest first: each is the parent of the one before, from the owner itself up to a root or a dropped parent. */
  lemma {:induction false} NearestFirst(owners: Owners, o: OwnerId, i: nat)
    requires Forest(owners) && o < |owners| && i <= |Ancestors(owners, o)|
    ensures var chain := [o] + Ancestors(owners, o);
      && chain[i] < |owners|
      && (i + 1 < |chain| ==> owners[chain[i]].parent == Some(chain[i + 1]) && chain[i + 1] < chain[i] && LiveOwner(owners, chain[i + 1]))
      && (i + 1 == |chain| ==> owners[chain[i]].parent.None? || !LiveOwner(owners, owners[chain[i]].parent.value))
    decreases o
  {
    assert Family(owners, o);
    match Upgraded(owners, owners[o].parent)
    case None =>
    case Some(p) =>
      if i > 0 {
        NearestFirst(owners, p, i - 1);
        var chain, rest := [o] + Ancestors(owners, o), [p] + Ancestors(owners, p);
        assert chain == [o] + rest;
        assert chain[i] == rest[i - 1] && (i + 1 < |chain| ==> chain[i + 1] == rest[i]);
      }
  }

  /** Ancestors are alive and ever older, so there are finitely many, and those an owner is under are among them. */
  lemma {:induction false} AncestorsOlder(owners: Owners, o: OwnerId, a: OwnerId)
    requires Forest(owners) && o < |owners|
    ensures Distinct(Ancestors(owners, o))
    ensures a in Ancestors(owners, o) ==> a < o && LiveOwner(owners, a)
    ensures LiveUnder(owners, a, o) && a != o ==> a in Ancestors(owners, o)
    decreases o
  {
    assert Family(owners, o);
    match Upgraded(owners, owners[o].parent)
    case None =>
      if LiveUnder(owners, a, o) && a != o {
        UnderBounds(owners, a, owners[o].parent.value);
      }
    case Some(p) =>
      AncestorsOlder(owners, p, a);
      forall x | x in Ancestors(owners, p) ensures x != p {
        AncestorsOlder(owners, p, x);
      }
      DistinctConcat([p], Ancestors(owners, p));
      if LiveUnder(owners, a, o) && a != o && a != p {
        assert LiveUnder(owners, a, p);
      }
  }

  // ---- Pausing

  predicate Within(owners: Owners, ids: seq<OwnerId>) {
    forall i :: 0 <= i < |ids| ==> ids[i] < |owners|
  }

  /** The pops that an owner on the stack leads to. */
  function Weight(owners: Owners, o: OwnerId): nat
    requires Forest(owners) && o < |owners|
    decreases |owners| - o, |owners[o].children| + 1
  {
    1 + ChildWeight(owners, o, |owners[o].children|)
  }

  function ChildWeight(owners: Owners, o: OwnerId, k: nat): nat
    requires Forest(owners) && o < |owners| && k <= |owners[o].children|
    decreases |owners| - o, k
  {
    if k == 0 then 0
    else
      assert Family(owners, o);
      ChildWeight(owners, o, k - 1) + Weight(owners, owners[o].children[k - 1])
  }

  function StackWeight(owners: Owners, stack: seq<OwnerId>): nat
    requires Forest(owners) && Within(owners, stack)
  {
    if stack == [] then 0
    else
      assert stack[|stack| - 1] in stack && Within(owners, stack[..|stack| - 1]);
      StackWeight(owners, stack[..|stack| - 1]) + Weight(owners, stack[|stack| - 1])
  }

  lemma {:induction false} PushedWeight(owners: Owners, stack: seq<OwnerId>, o: OwnerId, k: nat)
    requires Forest(owners) && Within(owners, stack) && o < |owners| && k <= |owners[o].children|
    ensures Within(owners, stack + owners[o].children[..k])
    ensures StackWeight(owners, stack + owners[o].children[..k]) == StackWeight(owners, stack) + ChildWeight(owners, o, k)
  {
    assert Family(owners, o);
    var pushed := stack + owners[o].children[..k];
    if k == 0 {
      assert pushed == stack;
    } else {
      PushedWeight(owners, stack, o, k - 1);
      assert pushed[..|pushed| - 1] == stack + owners[o].children[..k - 1];
    }
  }

  /** The owners, with the flag of some of them set. */
  function Flagged(owners: Owners, which: set<OwnerId>, paused: bool): (r: Owners)
    ensures |r| == |owners|
    ensures forall i :: 0 <= i < |r| ==> r[i].alive == owners[i].alive && r[i].children == owners[i].children
  {
    seq(|owners|, i requires 0 <= i < |owners| => if i in which then owners[i].(paused := paused) else owners[i])
  }

  lemma FlagOne(was: Owners, done: set<OwnerId>, o: OwnerId, paused: bool)
    requires o < |was|
    ensures var owners := Flagged(was, done, paused);
      owners[o := owners[o].(paused := paused)] == Flagged(was, done + {o}, paused)
  {
  }

  lemma FlaggedForest(was: Owners, done: set<OwnerId>, paused: bool)
    requires Forest(was)
    ensures Forest(Flagged(was, done, paused))
  {
    forall x | 0 <= x < |was| ensures Family(Flagged(was, done, paused), x) {
      assert Family(was, x);
    }
  }

  ghost predicate Covered(owners: Owners, root: OwnerId, stack: seq<OwnerId>, done: set<OwnerId>) {
    && (forall x :: x in done ==> LiveUnder(owners, root, x))
    && (forall x :: x in stack && LiveOwner(owners, x) ==> LiveUnder(owners, root, x))
    && (forall x :: LiveUnder(owners, root, x) ==> x in done || ByStack(owners, stack, x))
  }

  predicate ByStack(owners: Owners, stack: seq<OwnerId>, x: OwnerId) {
    exists s :: s in stack && LiveUnder(owners, s, x)
  }

  /** One turn of the loop: what was to be reached from the popped owner still will be. */
  lemma PopCovers(owners: Owners, root: OwnerId, below: seq<OwnerId>, top: OwnerId, done: set<OwnerId>)
    requires Forest(owners) && top < |owners| && Covered(owners, root, below + [top], done)
    ensures !owners[top].alive ==> Covered(owners, root, below, done)
    ensures owners[top].alive ==> Covered(owners, root, below + owners[top].children, done + {top})
  {
    var stack := below + [top];
    if owners[top].alive {
      var next := below + owners[top].children;
      assert top in stack;
      forall x | x in next && LiveOwner(owners, x) ensures LiveUnder(owners, root, x) {
        if x in below {
          assert x in stack;
        } else {
          var k :| 0 <= k < |owners[top].children| && owners[top].children[k] == x;
          ChildUnder(owners, top, k);
          UnderTransitive(owners, root, top, x);
        }
      }
      forall x | LiveUnder(owners, root, x) && x !in done && x != top ensures ByStack(owners, next, x) {
        var s :| s in stack && LiveUnder(owners, s, x);
        if s in below {
          assert s in next;
        } else {
          var k := ThroughChild(owners, top, x);
          assert owners[top].children[k] in next;
        }
      }
    } else {
      forall x | LiveUnder(owners, root, x) && x !in done ensures ByStack(owners, below, x) {
        var s :| s in stack && LiveUnder(owners, s, x);
        UnderBounds(owners, s, x);
        assert s in below;
      }
    }
  }

  // ---- The owners of a thread

  class Runtime {
    var owners: Owners
    var current: Option<OwnerId>
    var trace: seq<Job>  // the cleanup functions run and the nodes removed

    constructor ()
      ensures owners == [] && current == None && trace == [] && Forest(owners)
    {
      owners, current, trace := [], None, [];
    }

    /** `Owner::new`: a child of the current owner, if that is alive. It starts unpaused. */
    method New() returns (o: OwnerId)
      requires Forest(owners)
      modifies this`owners
      ensures Forest(owners) && o == |old(owners)| && |owners| == o + 1
      ensures owners[o] == Owner(true, if current.Some? && LiveOwner(old(owners), current.value) then current else None, [], [], [], false)
      ensures forall x :: 0 <= x < o ==>
        owners[x] == (if owners[o].parent == Some(x) then old(owners)[x].(children := old(owners)[x].children + [o]) else old(owners)[x])
    {
      var parent := if current.Some? && LiveOwner(owners, current.value) then current else None;
      o := Insert(parent, false);
    }

    /** `child`: it inherits the flag. */
    method Child(p: OwnerId) returns (o: OwnerId)
      requires Forest(owners) && LiveOwner(owners, p)
      modifies this`owners
      ensures Forest(owners) && o == |old(owners)| && |owners| == o + 1
      ensures owners[o] == Owner(true, Some(p), [], [], [], old(owners)[p].paused)
      ensures forall x :: 0 <= x < o ==>
        owners[x] == (if x == p then old(owners)[x].(children := old(owners)[x].children + [o]) else old(owners)[x])
    {
      o := Insert(Some(p), owners[p].paused);
    }

    method Insert(parent: Option<OwnerId>, paused: bool) returns (o: OwnerId)
      requires Forest(owners) && (parent.Some? ==> LiveOwner(owners, parent.value))
      modifies this`owners
      ensures Forest(owners) && o == |old(owners)| && |owners| == o + 1
      ensures owners[o] == Owner(true, parent, [], [], [], paused)
      ensures forall x :: 0 <= x < o ==>
        owners[x] == (if parent == Some(x) then old(owners)[x].(children := old(owners)[x].children + [o]) else old(owners)[x])
    {
      o := |owners|;
      ghost var was := owners;
      owners := owners + [Owner(true, parent, [], [], [], paused)];
      if parent.Some? {
        var p := parent.value;
        owners := owners[p := owners[p].(children := owners[p].children + [o])];
      }
      forall x | 0 <= x < |owners| ensures Family(owners, x) {
        if x < o {
          assert Family(was, x);
        }
      }
    }

    /** `on_cleanup`: without a live current owner the function is forgotten. */
    method OnCleanup(job: Job)
      requires Forest(owners)
      modifies this`owners
      ensures Forest(owners)
      ensures owners ==
        if current.Some? && LiveOwner(old(owners), current.value)
        then var o := old(owners)[current.value]; old(owners)[current.value := o.(cleanups := o.cleanups + [job])]
        else old(owners)
    {
      if current.Some? && LiveOwner(owners, current.value) {
        var o := owners[current.value];
        SameFamilies(owners, current.value, o.(cleanups := o.cleanups + [job]));
        owners := owners[current.value := o.(cleanups := o.cleanups + [job])];
      }
    }

    method Register(o: OwnerId, node: Job)
      requires Forest(owners) && LiveOwner(owners, o)
      modifies this`owners
      ensures Forest(owners)
      ensures owners == old(owners)[o := old(owners)[o].(nodes := old(owners)[o].nodes + [node])]
    {
      SameFamilies(owners, o, owners[o].(nodes := owners[o].nodes + [node]));
      owners := owners[o := owners[o].(nodes := owners[o].nodes + [node])];
    }

    /** The live ancestors, nearest first, up to a root or a parent that was dropped. */
    method Ancestry(o: OwnerId) returns (ancestors: seq<OwnerId>)
      requires Forest(owners) && o < |owners|
      ensures ancestors == Ancestors(owners, o)
    {
      ancestors := [];
      var parent: Option<OwnerId> := Upgraded(owners, owners[o].parent);
      while parent.Some?
        invariant parent.Some? ==> parent.value < |owners|
        invariant Ancestors(owners, o) == ancestors + if parent.Some? then [parent.value] + Ancestors(owners, parent.value) else []
        decreases parent.Some?, if parent.Some? then parent.value else 0
      {
        var p := parent.value;
        assert Family(owners, p);
        ghost var rest := Ancestors(owners, p);
        assert ancestors + ([p] + rest) == ancestors + [p] + rest;
        ancestors := ancestors + [p];
        parent := Upgraded(owners, owners[p].parent);
      }
    }

    /** The flag is set on the live owners under `o`, and nothing else changes. */
    method Pause(o: OwnerId)
      requires Forest(owners) && LiveOwner(owners, o)
      modifies this`owners
      ensures Forest(owners) && |owners| == |old(owners)|
      ensures forall x :: 0 <= x < |owners| ==>
        owners[x] == (if LiveUnder(old(owners), o, x) then old(owners)[x].(paused := true) else old(owners)[x])
    {
      SetPaused(o, true);
    }

    method Resume(o: OwnerId)
      requires Forest(owners) && LiveOwner(owners, o)
      modifies this`owners
      ensures Forest(owners) && |owners| == |old(owners)|
      ensures forall x :: 0 <= x < |owners| ==>
        owners[x] == (if LiveUnder(old(owners), o, x) then old(owners)[x].(paused := false) else old(owners)[x])
    {
      SetPaused(o, false);
    }

    method SetPaused(o: OwnerId, paused: bool)
      requires Forest(owners) && LiveOwner(owners, o)
      modifies this`owners
      ensures Forest(owners) && |owners| == |old(owners)|
      ensures forall x :: 0 <= x < |owners| ==>
        owners[x] == (if LiveUnder(old(owners), o, x) then old(owners)[x].(paused := paused) else old(owners)[x])
    {
      hide Weight, LiveUnder, Family, StackWeight, ByStack;
      ghost var was := owners;
      ghost var done: set<OwnerId> := {};
      var stack := [o];
      assert owners == Flagged(was, {}, paused);
      StartCovered(was, o);
      while stack != []
        invariant owners == Flagged(was, done, paused)
        invariant Within(was, stack) && Covered(was, o, stack, done)
        decreases StackWeight(was, stack)
      {
        hide Covered, Flagged;
        var curr := stack[|stack| - 1];
        ghost var below := stack[..|stack| - 1];
        assert stack == below + [curr];
        PopCovers(was, o, below, curr, done);
        PopWeight(was, below, curr);
        stack := stack[..|stack| - 1];
        if owners[curr].alive {
          FlagOne(was, done, curr, paused);
          owners := owners[curr := owners[curr].(paused := paused)];
          done := done + {curr};
          stack := stack + owners[curr].children;
        }
      }
      FlaggedForest(was, done, paused);
      AllCovered(was, o, done);
    }

    /** Runs the given jobs. */
    method RunAll(jobs: seq<Job>)
      modifies this`trace
      ensures trace == old(trace) + jobs
    {
      for i := 0 to |jobs|
        invariant trace == old(trace) + jobs[..i]
      {
        trace := trace + [jobs[i]];
      }
      assert jobs[..|jobs|] == jobs;
    }

    /**
    `cleanup`: all that the live owners under `o` had is run or removed, in post-order, and they have
    nothing left; no other owner changes.
    */
    method Cleanup(o: OwnerId)
      requires Forest(owners) && LiveOwner(owners, o)
      modifies this`owners, this`trace
      ensures Forest(owners)
      ensures owners == Cleaned(old(owners), PostOrder(old(owners), o))
      ensures trace == old(trace) + JobsOf(old(owners), PostOrder(old(owners), o))
      ensures CleansUnder(old(owners), o, trace[|old(trace)|..])
      decreases |owners| - o
    {
      ghost var start := trace;
      TraceCleansUnder(owners, o);
      hide CleansUnder, Family, LiveUnder, PostOrder, ChildOrder, JobsOf, Cleaned, Forest;
      ghost var was := owners;
      var cleanups, nodes, children := owners[o].cleanups, owners[o].nodes, owners[o].children;
      owners := owners[o := Emptied(owners[o])];
      TakenFirst(was, o);
      CleanChildren(was, o, children);
      RunAll(cleanups);
      RunAll(nodes);
      CleanedOwner(was, o);
      OwnLast(start, JobsOf(was, ChildOrder(was, o, |children|)), cleanups, nodes);
    }

    /**
    The last strong reference is dropped: what is under `o` is cleaned as `cleanup` does. Nothing can
    reach a dropped owner, so it does not matter when its own lists are taken.
    */
    method Drop(o: OwnerId)
      requires Forest(owners) && LiveOwner(owners, o)
      modifies this`owners, this`trace
      ensures Forest(owners)
      ensures |owners| == |old(owners)| && owners[o] == Emptied(old(owners)[o]).(alive := false)
      ensures forall x :: 0 <= x < |owners| && x != o ==> owners[x] == Cleaned(old(owners), PostOrder(old(owners), o))[x]
      ensures trace == old(trace) + JobsOf(old(owners), PostOrder(old(owners), o))
      ensures CleansUnder(old(owners), o, trace[|old(trace)|..])
    {
      ghost var start := trace;
      TraceCleansUnder(owners, o);
      hide CleansUnder, Family, LiveUnder, PostOrder, ChildOrder, JobsOf, Forest;
      ghost var was := owners;
      var cleanups, nodes, children := owners[o].cleanups, owners[o].nodes, owners[o].children;
      ghost var dead := Killed(owners, o);
      SameFamilies(was, o, dead[o]);
      DeadOrder(was, o, |children|);
      CleanedOwner(was, o);
      TakenFirst(dead, o);
      owners := owners[o := Emptied(owners[o]).(alive := false)];
      assert owners == dead[o := Emptied(dead[o])];
      CleanChildren(dead, o, children);
      RunAll(cleanups);
      RunAll(nodes);
      OwnLast(start, JobsOf(was, ChildOrder(was, o, |children|)), cleanups, nodes);
    }

    /** The loop over the children that were taken from `o`. */
    method CleanChildren(ghost was: Owners, o: OwnerId, children: seq<OwnerId>)
      requires Forest(was) && o < |was| && children == was[o].children
      requires Forest(owners) && owners == Cleaned(was, [o] + ChildOrder(was, o, 0))
      modifies this`owners, this`trace
      ensures Forest(owners)
      ensures owners == Cleaned(was, [o] + ChildOrder(was, o, |children|))
      ensures trace == old(trace) + JobsOf(was, ChildOrder(was, o, |children|))
      decreases |owners| - o, 0
    {
      hide Family, LiveUnder, ChildOrder, PostOrder, JobsOf, Forest, Cleaned;
      NothingUnder(was, o, o);
      for i := 0 to |children|
        invariant Forest(owners) && owners == Cleaned(was, [o] + ChildOrder(was, o, i))
        invariant trace == old(trace) + JobsOf(was, ChildOrder(was, o, i))
      {
        NextChildUntouched(was, o, i);
        OneMoreChild(was, o, i);
        var c := children[i];
        CleanedAfter(was, o, ChildOrder(was, o, i), PostOrder(was, c));
        if LiveOwner(owners, c) {
          Cleanup(c);
          assert trace == old(trace) + (JobsOf(was, ChildOrder(was, o, i)) + JobsOf(was, PostOrder(was, c)));
        } else {
          NothingUnder(owners, o, c);
        }
      }
    }
  }

  lemma SameFamilies(owners: Owners, o: OwnerId, replacement: Owner)
    requires Forest(owners) && o < |owners|
    requires replacement.children == owners[o].children && replacement.parent == owners[o].parent
    ensures Forest(owners[o := replacement])
  {
    var after := owners[o := replacement];
    forall p | 0 <= p < |owners| ensures Family(after, p) {
      assert Family(owners, p);
    }
  }

  /** There is nothing under a dropped owner, nor before the first child. */
  lemma NothingUnder(owners: Owners, o: OwnerId, c: OwnerId)
    requires Forest(owners) && o < |owners| && c < |owners|
    ensures ChildOrder(owners, o, 0) == [] && JobsOf(owners, []) == [] && Cleaned(owners, []) == owners
    ensures !owners[c].alive ==> PostOrder(owners, c) == []
  {
  }

  lemma TakenFirst(was: Owners, o: OwnerId)
    requires Forest(was) && o < |was|
    ensures Forest(was[o := Emptied(was[o])])
    ensures was[o := Emptied(was[o])] == Cleaned(was, [o] + ChildOrder(was, o, 0))
  {
    CleanedForest(was, [o] + ChildOrder(was, o, 0));
    assert was[o := Emptied(was[o])] == Cleaned(was, [o] + ChildOrder(was, o, 0));
  }

  function Killed(owners: Owners, o: OwnerId): (r: Owners)
    requires o < |owners|
    ensures |r| == |owners| && r[o] == owners[o].(alive := false)
  {
    owners[o := owners[o].(alive := false)]
  }

  /** What is under the children of an owner does not change when that is dropped. */
  lemma {:induction false} DeadOrder(was: Owners, o: OwnerId, k: nat)
    requires Forest(was) && LiveOwner(was, o) && k <= |was[o].children| && Forest(Killed(was, o))
    ensures ChildOrder(Killed(was, o), o, k) == ChildOrder(was, o, k)
    ensures JobsOf(Killed(was, o), ChildOrder(was, o, k)) == JobsOf(was, ChildOrder(was, o, k))
  {
    hide PostOrder;
    if k == 0 {
      assert JobsOf(was, []) == JobsOf(Killed(was, o), []);
    } else {
      assert Family(was, o);
      var c, dead := was[o].children[k - 1], Killed(was, o);
      DeadOrder(was, o, k - 1);
      forall x: OwnerId | LiveUnder(was, c, x) ensures dead[x] == was[x] {
        UnderBounds(was, c, x);
      }
      SameOrder(was, dead, c);
      forall x | x in PostOrder(was, c) && x < |was| ensures dead[x] == was[x] {
        OrderMembers(was, c, x);
      }
      SameJobs(was, dead, PostOrder(was, c));
      JobsConcat(was, ChildOrder(was, o, k - 1), PostOrder(was, c));
      JobsConcat(dead, ChildOrder(was, o, k - 1), PostOrder(was, c));
    }
  }

  /** After what is under an owner comes its own. */
  lemma OwnLast(start: seq<Job>, under: seq<Job>, cleanups: seq<Job>, nodes: seq<Job>)
    ensures start + under + cleanups + nodes == start + (under + (cleanups + nodes))
    ensures (start + under + cleanups + nodes)[|start|..] == under + (cleanups + nodes)
  {
    assert start + under + cleanups + nodes == start + (under + (cleanups + nodes));
  }

  lemma AllCovered(owners: Owners, o: OwnerId, done: set<OwnerId>)
    requires Covered(owners, o, [], done)
    ensures forall x: OwnerId :: LiveUnder(owners, o, x) <==> x in done
  {
    hide LiveUnder;
  }

  lemma StartCovered(owners: Owners, o: OwnerId)
    requires LiveOwner(owners, o)
    ensures Covered(owners, o, [o], {})
  {
    assert LiveUnder(owners, o, o) && o in [o];
  }

  lemma PopWeight(owners: Owners, below: seq<OwnerId>, top: OwnerId)
    requires Forest(owners) && Within(owners, below) && top < |owners|
    ensures Within(owners, below + owners[top].children) && Within(owners, below + [top])
    ensures StackWeight(owners, below + owners[top].children) < StackWeight(owners, below + [top])
    ensures StackWeight(owners, below) < StackWeight(owners, below + [top])
  {
    PushedWeight(owners, below, top, |owners[top].children|);
    assert owners[top].children[..|owners[top].children|] == owners[top].children;
    assert (below + [top])[..|below|] == below;
  }

  lemma CleanedOwner(was: Owners, o: OwnerId)
    requires Forest(was) && LiveOwner(was, o)
    ensures var n := |was[o].children|;
      && PostOrder(was, o) == ChildOrder(was, o, n) + [o]
      && Cleaned(was, [o] + ChildOrder(was, o, n)) == Cleaned(was, PostOrder(was, o))
      && JobsOf(was, PostOrder(was, o)) == JobsOf(was, ChildOrder(was, o, n)) + Jobs(was[o])
  {
    JobsConcat(was, ChildOrder(was, o, |was[o].children|), [o]);
    JobsOne(was, o);
  }
}
