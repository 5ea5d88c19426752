/** The view of `<ErrorBoundary/>` among its siblings (error_boundary.rs:182-281). */
module BoundaryView {
  import opened Basics
  import opened ErrorBoundary

  type Node = nat

  type Nodes = seq<Node>

  // ---- The parent's list of nodes

  predicate Distinct(s: Nodes) {
    forall i, j :: 0 <= i < j < |s| ==> s[i] != s[j]
  }

  predicate Apart(a: Nodes, b: Nodes) {
    forall x :: x in a ==> x !in b
  }

  function IndexOf(dom: Nodes, node: Node): (i: nat)
    ensures i <= |dom| && (i < |dom| ==> dom[i] == node) && (i == |dom| ==> node !in dom)
    ensures forall j :: 0 <= j < i ==> dom[j] != node
  {
    if dom == [] || dom[0] == node then 0 else 1 + IndexOf(dom[1..], node)
  }

  /** `insert_before_this`: before the first node of `this`, if that is mounted. */
  function InsertBefore(dom: Nodes, this': Nodes, inserted: Nodes): Nodes {
    if this' == [] || this'[0] !in dom then dom
    else
      var i := IndexOf(dom, this'[0]);
      dom[..i] + inserted + dom[i..]
  }

  /** `unmount`: takes the nodes out. */
  function Unmount(dom: Nodes, nodes: Nodes): Nodes {
    if dom == [] then [] else (if dom[0] in nodes then [] else [dom[0]]) + Unmount(dom[1..], nodes)
  }

  lemma {:induction false} UnmountConcat(a: Nodes, b: Nodes, nodes: Nodes)
    ensures Unmount(a + b, nodes) == Unmount(a, nodes) + Unmount(b, nodes)
  {
    if a == [] {
      assert a + b == b;
    } else {
      assert (a + b)[1..] == a[1..] + b;
      UnmountConcat(a[1..], b, nodes);
    }
  }

  lemma {:induction false} UnmountOthers(a: Nodes, nodes: Nodes)
    requires Apart(a, nodes)
    ensures Unmount(a, nodes) == a
  {
    if a != [] {
      UnmountOthers(a[1..], nodes);
      assert a == [a[0]] + a[1..];
    }
  }

  lemma {:induction false} UnmountAll(a: Nodes, nodes: Nodes)
    requires forall x :: x in a ==> x in nodes
    ensures Unmount(a, nodes) == []
  {
    if a != [] {
      UnmountAll(a[1..], nodes);
    }
  }

  lemma InsertedBefore(before: Nodes, shown: Nodes, after: Nodes, inserted: Nodes)
    requires shown != [] && Apart(before, shown)
    ensures InsertBefore(before + shown + after, shown, inserted) == (before + inserted) + (shown + after)
  {
    var dom := before + shown + after;
    assert dom[|before|] == shown[0] && shown[0] in shown;
    var i := IndexOf(dom, shown[0]);
    assert i == |before| by {
      assert forall j :: 0 <= j < |before| ==> before[j] in before && dom[j] == before[j];
    }
    assert dom[..i] == before && dom[i..] == shown + after;
  }

  /** Inserting before a view and then unmounting it puts the new nodes in its place. */
  lemma SwapInPlace(before: Nodes, shown: Nodes, after: Nodes, inserted: Nodes)
    requires shown != [] && Apart(before, shown) && Apart(after, shown) && Apart(inserted, shown)
    ensures Unmount(InsertBefore(before + shown + after, shown, inserted), shown) == before + inserted + after
  {
    InsertedBefore(before, shown, after, inserted);
    hide InsertBefore, Unmount;
    UnmountConcat(before + inserted, shown + after, shown);
    UnmountConcat(before, inserted, shown);
    UnmountConcat(shown, after, shown);
    UnmountOthers(before, shown);
    UnmountOthers(inserted, shown);
    UnmountOthers(after, shown);
    UnmountAll(shown, shown);
    assert [] + after == after;
  }

  // ---- The boundary

  /** `seen`: what the effect saw of `errors_empty` the last time. */
  datatype Boundary = Boundary(hook: Hook, dom: Nodes, children: Nodes, fallback: Option<Nodes>, seen: bool)

  function Shown(b: Boundary): Nodes {
    if b.fallback.Some? then b.fallback.value else b.children
  }

  /** The first run, and mounting: the fallback is built only if there are errors. */
  function Build(hook: Hook, children: Nodes, built: Nodes, before: Nodes, after: Nodes): Boundary {
    var empty := hook.errors == map[];
    var fallback := if empty then None else Some(built);
    var b := Boundary(hook, [], children, fallback, empty);
    b.(dom := before + Shown(b) + after)
  }

  /** A later run; `built`: what the fallback builds, if it is called for. */
  function RunEffect(b: Boundary, built: Nodes): Boundary {
    var empty := b.hook.errors == map[];
    if empty && b.fallback.Some? then
      b.(dom := Unmount(InsertBefore(b.dom, b.fallback.value, b.children), b.fallback.value), fallback := None, seen := empty)
    else if !empty && b.fallback.None? then
      b.(dom := Unmount(InsertBefore(b.dom, b.children, built), b.children), fallback := Some(built), seen := empty)
    else
      b.(seen := empty)
  }

  lemma BuildPlaced(hook: Hook, children: Nodes, built: Nodes, before: Nodes, after: Nodes)
    requires children != [] && built != [] && Apart(children, built)
    requires Apart(before, children) && Apart(after, children) && Apart(before, built) && Apart(after, built)
    ensures Placed(Build(hook, children, built, before, after), before, after)
    ensures Settled(Build(hook, children, built, before, after))
  {
  }

  /** The value that the effect keeps from run to run, and the parent's list of nodes. */
  class ViewState {
    var dom: Nodes
    var children: Nodes
    var fallback: Option<Nodes>
    var seen: bool

    constructor (b: Boundary)
      ensures As(b.hook) == b
    {
      dom, children, fallback, seen := b.dom, b.children, b.fallback, b.seen;
    }

    function As(hook: Hook): Boundary
      reads this
    {
      Boundary(hook, dom, children, fallback, seen)
    }

    /** Shows the view that is called for, in the place of the other. */
    method Run(hook: Hook, built: Nodes, ghost before: Nodes, ghost after: Nodes)
      requires Placed(As(hook), before, after) && New(built, As(hook))
      modifies this
      ensures As(hook) == RunEffect(old(As(hook)), built)
      ensures Placed(As(hook), before, after) && Settled(As(hook))
      ensures fallback.Some? <==> hook.errors != map[]
    {
      hide InsertBefore, Unmount, Placed, New;
      EffectInPlace(As(hook), built, before, after);
      var empty := hook.errors == map[];
      if empty && fallback.Some? {
        dom := InsertBefore(dom, fallback.value, children);
        dom := Unmount(dom, fallback.value);
        fallback := None;
      } else if !empty && fallback.None? {
        fallback := Some(built);
        dom := InsertBefore(dom, children, built);
        dom := Unmount(dom, children);
      }
      seen := empty;
    }
  }

  /** The children rebuild themselves: in their place, or out of sight. */
  function Rebuild(b: Boundary, children: Nodes): Boundary {
    if b.fallback.Some? then b.(children := children)
    else b.(dom := Unmount(InsertBefore(b.dom, b.children, children), b.children), children := children)
  }

  /** The nodes around the boundary, what it shows and what it keeps out of sight are all different. */
  predicate Placed(b: Boundary, before: Nodes, after: Nodes) {
    && b.dom == before + Shown(b) + after
    && Shown(b) != [] && b.children != []
    && Apart(before, Shown(b)) && Apart(after, Shown(b))
    && Apart(before, b.children) && Apart(after, b.children)
    && (b.fallback.Some? ==> Apart(b.children, b.fallback.value))
    && (b.fallback.Some? <==> !b.seen)
  }

  /** Nodes that were just made. */
  predicate New(nodes: Nodes, b: Boundary) {
    nodes != [] && Apart(nodes, b.dom) && Apart(nodes, b.children) && Apart(nodes, Shown(b))
  }

  lemma ApartBack(a: Nodes, b: Nodes)
    requires Apart(a, b)
    ensures Apart(b, a)
  {
  }

  lemma NewAround(nodes: Nodes, b: Boundary, before: Nodes, after: Nodes)
    requires Placed(b, before, after) && New(nodes, b)
    ensures Apart(before, nodes) && Apart(after, nodes)
  {
    assert forall x :: x in before ==> x in b.dom;
    assert forall x :: x in after ==> x in b.dom;
  }

  /** A run of the effect leaves the siblings and the place alone, and shows one of the two views. */
  lemma EffectInPlace(b: Boundary, built: Nodes, before: Nodes, after: Nodes)
    requires Placed(b, before, after) && New(built, b)
    ensures Placed(RunEffect(b, built), before, after)
    ensures RunEffect(b, built).fallback.Some? <==> b.hook.errors != map[]
    ensures RunEffect(b, built).hook == b.hook && RunEffect(b, built).children == b.children
  {
    NewAround(built, b, before, after);
    if b.fallback.Some? {
      SwapInPlace(before, b.fallback.value, after, b.children);
    } else {
      SwapInPlace(before, b.children, after, built);
      ApartBack(built, b.children);
    }
  }

  lemma RebuildInPlace(b: Boundary, children: Nodes, before: Nodes, after: Nodes)
    requires Placed(b, before, after) && New(children, b)
    ensures Placed(Rebuild(b, children), before, after)
    ensures Rebuild(b, children).children == children && Rebuild(b, children).fallback == b.fallback
  {
    NewAround(children, b, before, after);
    if b.fallback.None? {
      SwapInPlace(before, b.children, after, children);
    }
  }

  // ---- Runs

  datatype Event = Result(op: ErrorOp) | Effect(built: Nodes) | Children(built: Nodes)

  predicate Allowed(b: Boundary, e: Event) {
    match e
    case Result(op) => CanDo(b.hook, op)
    case Effect(built) => New(built, b)
    case Children(built) => New(built, b)
  }

  function Next(b: Boundary, e: Event): Boundary
    requires Allowed(b, e)
  {
    match e
    case Result(op) => b.(hook := Do(b.hook, op))
    case Effect(built) => RunEffect(b, built)
    case Children(built) => Rebuild(b, built)
  }

  predicate Runs(b: Boundary, events: seq<Event>)
    decreases |events|
  {
    events == [] || (Allowed(b, events[0]) && Runs(Next(b, events[0]), events[1..]))
  }

  function Final(b: Boundary, events: seq<Event>): Boundary
    requires Runs(b, events)
    decreases |events|
  {
    if events == [] then b else Final(Next(b, events[0]), events[1..])
  }

  /** The memo has not changed since the effect ran, so the effect is not called for. */
  predicate Settled(b: Boundary) {
    b.seen == (b.hook.errors == map[])
  }

  lemma {:induction false} RunsInPlace(b: Boundary, events: seq<Event>, before: Nodes, after: Nodes)
    requires Runs(b, events) && Placed(b, before, after) && b.hook.shared && ErrorsExact(b.hook)
    ensures Placed(Final(b, events), before, after) && ErrorsExact(Final(b, events).hook)
    decreases |events|
  {
    hide Placed, New, ErrorsExact, RunEffect, Rebuild, Do;
    if events != [] {
      match events[0] {
      case Result(op) =>
        OpKeeps(b, op, before, after);
      case Effect(built) =>
        EffectInPlace(b, built, before, after);
      case Children(built) =>
        RebuildInPlace(b, built, before, after);
        RebuildKeepsHook(b, built);
      }
      RunsInPlace(Next(b, events[0]), events[1..], before, after);
    }
  }

  lemma OpKeeps(b: Boundary, op: ErrorOp, before: Nodes, after: Nodes)
    requires CanDo(b.hook, op) && Placed(b, before, after) && b.hook.shared && ErrorsExact(b.hook)
    ensures Placed(b.(hook := Do(b.hook, op)), before, after)
    ensures Do(b.hook, op).shared && ErrorsExact(Do(b.hook, op))
  {
  }

  lemma RebuildKeepsHook(b: Boundary, built: Nodes)
    ensures Rebuild(b, built).hook == b.hook
  {
  }

  /**
  After every run, the boundary has the place it had, between the siblings it had, showing exactly one
  of its views; and when the effect has caught up that is the fallback if and only if some thrown
  error is not yet cleared.
  */
  lemma FallbackExactly(b: Boundary, events: seq<Event>, before: Nodes, after: Nodes)
    requires Runs(b, events) && Placed(b, before, after) && b.hook.shared && ErrorsExact(b.hook)
    ensures Final(b, events).dom == before + Shown(Final(b, events)) + after
    ensures Apart(if Final(b, events).fallback.Some? then Final(b, events).children else [], Final(b, events).dom)
    ensures Settled(Final(b, events)) ==> (Final(b, events).fallback.Some? <==> Final(b, events).hook.held != multiset{})
  {
    hide Final, Runs;
    RunsInPlace(b, events, before, after);
    ExactShown(Final(b, events).hook);
  }
}
