/** The owners of a reactive system (owner.rs): a forest whose children are only weakly held. */
module OwnerForest {
  import opened Basics

  /** Owners are numbered as they are made. */
  type OwnerId = nat

  /** A registered cleanup function, or a node of the arena. */
  type Job = nat

  /** `OwnerInner`; `alive`: some strong reference is left, so that weak ones can be upgraded. */
  datatype Owner = Owner(
    alive: bool,
    parent: Option<OwnerId>,
    children: seq<OwnerId>,
    cleanups: seq<Job>,
    nodes: seq<Job>,
    paused: bool)

  type Owners = seq<Owner>

  function Jobs(o: Owner): seq<Job> {
    o.cleanups + o.nodes
  }

  predicate Distinct<T(==)>(s: seq<T>) {
    forall i, j :: 0 <= i < j < |s| ==> s[i] != s[j]
  }

  /** A child is younger than its parent, names it, and is listed once, in order of creation. */
  predicate Forest(owners: Owners) {
    forall p :: 0 <= p < |owners| ==> Family(owners, p)
  }

  predicate Family(owners: Owners, p: OwnerId)
    requires p < |owners|
  {
    && (forall k :: 0 <= k < |owners[p].children| ==>
         var c := owners[p].children[k]; p < c < |owners| && owners[c].parent == Some(p))
    && (forall i, j :: 0 <= i < j < |owners[p].children| ==> owners[p].children[i] < owners[p].children[j])
    && (owners[p].parent.Some? ==> owners[p].parent.value < p)
  }

  predicate LiveOwner(owners: Owners, o: OwnerId) {
    o < |owners| && owners[o].alive
  }

  /** `x` is reached from `root` through the child lists of live owners, and is alive. */
  predicate LiveUnder(owners: Owners, root: OwnerId, x: OwnerId)
    decreases x
  {
    LiveOwner(owners, x) &&
    (x == root ||
     (owners[x].parent.Some? &&
      var p := owners[x].parent.value;
      p < x && x in owners[p].children && LiveUnder(owners, root, p)))
  }

  lemma {:induction false} UnderBounds(owners: Owners, root: OwnerId, x: OwnerId)
    requires LiveUnder(owners, root, x)
    ensures LiveOwner(owners, root) && root <= x
    decreases x
  {
    if x != root {
      UnderBounds(owners, root, owners[x].parent.value);
    }
  }

  lemma {:induction false} UnderTransitive(owners: Owners, a: OwnerId, b: OwnerId, x: OwnerId)
    requires LiveUnder(owners, a, b) && LiveUnder(owners, b, x)
    ensures LiveUnder(owners, a, x)
    decreases x
  {
    if x != b {
      UnderTransitive(owners, a, b, owners[x].parent.value);
    }
  }

  lemma ChildUnder(owners: Owners, p: OwnerId, k: nat)
    requires Forest(owners) && LiveOwner(owners, p) && k < |owners[p].children|
    ensures var c := owners[p].children[k]; LiveOwner(owners, c) ==> LiveUnder(owners, p, c)
  {
    assert Family(owners, p);
    assert LiveUnder(owners, p, p);
  }

  /** What is reached is the root, or reached from one of its children. */
  lemma {:induction false} ThroughChild(owners: Owners, root: OwnerId, x: OwnerId) returns (k: nat)
    requires Forest(owners) && LiveUnder(owners, root, x) && x != root
    ensures root < |owners| && k < |owners[root].children| && LiveUnder(owners, owners[root].children[k], x)
    decreases x
  {
    var p := owners[x].parent.value;
    if p == root {
      k :| 0 <= k < |owners[root].children| && owners[root].children[k] == x;
    } else {
      k := ThroughChild(owners, root, p);
    }
  }

  /** Two siblings share no descendant. */
  lemma {:induction false} SiblingsApart(owners: Owners, p: OwnerId, c: OwnerId, d: OwnerId, x: OwnerId)
    requires Forest(owners) && p < |owners| && c in owners[p].children && d in owners[p].children
    requires LiveUnder(owners, c, x) && LiveUnder(owners, d, x)
    ensures c == d
    decreases x
  {
    assert Family(owners, p);
    if x != c && x != d {
      SiblingsApart(owners, p, c, d, owners[x].parent.value);
    } else if c != d {
      UnderBounds(owners, if x == c then d else c, p);
    }
  }

  // ---- Post-order

  /** The live owners under `o`, each after those under it, siblings in order. */
  function PostOrder(owners: Owners, o: OwnerId): seq<OwnerId>
    requires Forest(owners) && o < |owners|
    decreases |owners| - o, |owners[o].children| + 1
  {
    if !owners[o].alive then [] else ChildOrder(owners, o, |owners[o].children|) + [o]
  }

  /** The live owners under the first `k` children of `o`. */
  function ChildOrder(owners: Owners, o: OwnerId, k: nat): seq<OwnerId>
    requires Forest(owners) && o < |owners| && k <= |owners[o].children|
    decreases |owners| - o, k
  {
    if k == 0 then []
    else
      assert Family(owners, o);
      ChildOrder(owners, o, k - 1) + PostOrder(owners, owners[o].children[k - 1])
  }

  lemma {:induction false} OrderMembers(owners: Owners, o: OwnerId, x: OwnerId)
    requires Forest(owners) && o < |owners|
    ensures x in PostOrder(owners, o) <==> LiveUnder(owners, o, x)
    decreases |owners| - o, |owners[o].children| + 1
  {
    if owners[o].alive {
      var n := |owners[o].children|;
      ChildMembers(owners, o, n, x);
      if x != o && LiveUnder(owners, o, x) {
        var k := ThroughChild(owners, o, x);
      }
      if i: nat :| i < n && LiveUnder(owners, owners[o].children[i], x) {
        UnderBounds(owners, owners[o].children[i], x);
        ChildUnder(owners, o, i);
        UnderTransitive(owners, o, owners[o].children[i], x);
      }
    } else if LiveUnder(owners, o, x) {
      UnderBounds(owners, o, x);
    }
  }

  lemma {:induction false} ChildMembers(owners: Owners, o: OwnerId, k: nat, x: OwnerId)
    requires Forest(owners) && o < |owners| && k <= |owners[o].children|
    ensures x in ChildOrder(owners, o, k) <==> exists i :: 0 <= i < k && LiveUnder(owners, owners[o].children[i], x)
    decreases |owners| - o, k
  {
    if k > 0 {
      assert Family(owners, o);
      ChildMembers(owners, o, k - 1, x);
      OrderMembers(owners, owners[o].children[k - 1], x);
    }
  }

  // ---- Each owner once

  lemma DistinctConcat<T>(a: seq<T>, b: seq<T>)
    requires Distinct(a) && Distinct(b) && forall x :: x in a ==> x !in b
    ensures Distinct(a + b)
  {
    forall i, j | 0 <= i < j < |a + b| ensures (a + b)[i] != (a + b)[j] {
      if i < |a| <= j {
        assert a[i] in a && b[j - |a|] in b;
      }
    }
  }

  lemma {:induction false} OrderDistinct(owners: Owners, o: OwnerId)
    requires Forest(owners) && o < |owners|
    ensures Distinct(PostOrder(owners, o))
    decreases |owners| - o, |owners[o].children| + 1
  {
    if owners[o].alive {
      var n := |owners[o].children|;
      assert Family(owners, o);
      ChildDistinct(owners, o, n);
      ChildMembers(owners, o, n, o);
      if o in ChildOrder(owners, o, n) {
        var i :| 0 <= i < n && LiveUnder(owners, owners[o].children[i], o);
        UnderBounds(owners, owners[o].children[i], o);
      }
      DistinctConcat(ChildOrder(owners, o, n), [o]);
    }
  }

  lemma {:induction false} ChildDistinct(owners: Owners, o: OwnerId, k: nat)
    requires Forest(owners) && o < |owners| && k <= |owners[o].children|
    ensures Distinct(ChildOrder(owners, o, k))
    decreases |owners| - o, k
  {
    if k > 0 {
      assert Family(owners, o);
      var c := owners[o].children[k - 1];
      ChildDistinct(owners, o, k - 1);
      OrderDistinct(owners, c);
      forall x | x in ChildOrder(owners, o, k - 1) ensures x !in PostOrder(owners, c) {
        ChildMembers(owners, o, k - 1, x);
        OrderMembers(owners, c, x);
        if LiveUnder(owners, c, x) {
          var i :| 0 <= i < k - 1 && LiveUnder(owners, owners[o].children[i], x);
          SiblingsApart(owners, o, owners[o].children[i], c, x);
        }
      }
      DistinctConcat(ChildOrder(owners, o, k - 1), PostOrder(owners, c));
    }
  }

  // ---- The order

  predicate Before<T(==)>(s: seq<T>, x: T, y: T) {
    exists i, j :: 0 <= i < j < |s| && s[i] == x && s[j] == y
  }

  lemma BeforeWithin<T>(a: seq<T>, s: seq<T>, b: seq<T>, x: T, y: T)
    requires Before(s, x, y)
    ensures Before(a + s + b, x, y)
  {
    var i, j :| 0 <= i < j < |s| && s[i] == x && s[j] == y;
    var t := a + s + b;
    assert t[|a| + i] == x && t[|a| + j] == y;
  }

  lemma BeforeConcat<T>(a: seq<T>, b: seq<T>, x: T, y: T)
    requires x in a && y in b
    ensures Before(a + b, x, y)
  {
    var i :| 0 <= i < |a| && a[i] == x;
    var j :| 0 <= j < |b| && b[j] == y;
    assert (a + b)[i] == x && (a + b)[|a| + j] == y;
  }

  /** The order under the `k`th child is part of the order under its parent. */
  lemma {:induction false} OrderWithin(owners: Owners, o: OwnerId, k: nat, n: nat, x: OwnerId, y: OwnerId)
    requires Forest(owners) && LiveOwner(owners, o) && k < n <= |owners[o].children|
    requires owners[o].children[k] < |owners| && Before(PostOrder(owners, owners[o].children[k]), x, y)
    ensures Before(ChildOrder(owners, o, n), x, y)
    decreases n
  {
    assert Family(owners, o);
    var last := PostOrder(owners, owners[o].children[n - 1]);
    var init := ChildOrder(owners, o, n - 1);
    if k == n - 1 {
      BeforeWithin(init, last, [], x, y);
      assert init + last + [] == init + last;
    } else {
      OrderWithin(owners, o, k, n - 1, x, y);
      BeforeWithin([], init, last, x, y);
      assert [] + init + last == init + last;
    }
  }

  lemma OrderUp(owners: Owners, o: OwnerId, k: nat, x: OwnerId, y: OwnerId)
    requires Forest(owners) && LiveOwner(owners, o) && k < |owners[o].children|
    requires owners[o].children[k] < |owners| && Before(PostOrder(owners, owners[o].children[k]), x, y)
    ensures Before(PostOrder(owners, o), x, y)
  {
    var all := ChildOrder(owners, o, |owners[o].children|);
    OrderWithin(owners, o, k, |owners[o].children|, x, y);
    BeforeWithin([], all, [o], x, y);
    assert [] + all + [o] == all + [o];
  }

  /** An owner comes after every owner under it. */
  lemma {:induction false} DescendantsFirst(owners: Owners, root: OwnerId, a: OwnerId, x: OwnerId)
    requires Forest(owners) && root < |owners|
    requires LiveUnder(owners, root, a) && LiveUnder(owners, a, x) && x != a
    ensures Before(PostOrder(owners, root), x, a)
    decreases |owners| - root
  {
    UnderBounds(owners, root, a);
    if root == a {
      OrderMembers(owners, a, x);
      BeforeConcat(ChildOrder(owners, a, |owners[a].children|), [a], x, a);
    } else {
      var k := ThroughChild(owners, root, a);
      assert Family(owners, root);
      DescendantsFirst(owners, owners[root].children[k], a, x);
      OrderUp(owners, root, k, x, a);
    }
  }

  lemma {:induction false} ChildBlocks(owners: Owners, p: OwnerId, i: nat, j: nat, n: nat, x: OwnerId, y: OwnerId)
    requires Forest(owners) && LiveOwner(owners, p) && i < j < n <= |owners[p].children|
    requires LiveUnder(owners, owners[p].children[i], x) && LiveUnder(owners, owners[p].children[j], y)
    ensures Before(ChildOrder(owners, p, n), x, y)
    decreases n
  {
    assert Family(owners, p);
    var init, last := ChildOrder(owners, p, n - 1), PostOrder(owners, owners[p].children[n - 1]);
    if j == n - 1 {
      ChildMembers(owners, p, n - 1, x);
      OrderMembers(owners, owners[p].children[j], y);
      BeforeConcat(init, last, x, y);
    } else {
      ChildBlocks(owners, p, i, j, n - 1, x, y);
      BeforeWithin([], init, last, x, y);
      assert [] + init + last == init + last;
    }
  }

  /** All under one child come before all under a later one. */
  lemma {:induction false} SiblingsInOrder(owners: Owners, root: OwnerId, p: OwnerId, i: nat, j: nat, x: OwnerId, y: OwnerId)
    requires Forest(owners) && root < |owners|
    requires LiveUnder(owners, root, p) && i < j < |owners[p].children|
    requires LiveUnder(owners, owners[p].children[i], x) && LiveUnder(owners, owners[p].children[j], y)
    ensures Before(PostOrder(owners, root), x, y)
    decreases |owners| - root
  {
    UnderBounds(owners, root, p);
    if root == p {
      var all := ChildOrder(owners, p, |owners[p].children|);
      ChildBlocks(owners, p, i, j, |owners[p].children|, x, y);
      BeforeWithin([], all, [p], x, y);
      assert [] + all + [p] == all + [p];
    } else {
      var k := ThroughChild(owners, root, p);
      assert Family(owners, root);
      SiblingsInOrder(owners, owners[root].children[k], p, i, j, x, y);
      OrderUp(owners, root, k, x, y);
    }
  }
}
