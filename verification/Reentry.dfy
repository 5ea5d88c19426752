/**
The per-thread record of which reactive values a thread is using (reentry.rs).

The record is a vector of entries, searched linearly and shrunk with `swap_remove`. It is
modelled as the class `ThreadRecord`, whose methods are proved against functions on a map from
value ids to entries; `WriterTurn` runs any number of threads over the same functions.
*/
module Reentry {
  import opened Basics

  const USIZE_MAX: nat := 0xFFFF_FFFF_FFFF_FFFF

  /** What kind of access starts or ends. */
  datatype Kind = Read | WriteLock | Snapshot | Compute

  /** One thread's use of one value. `turn`: the entry holds the value's writer turn. */
  datatype Entry<W> = Entry(
    depth: nat,
    writeLocks: nat,
    snapshots: nat,
    computing: nat,
    turn: bool,
    pending: Option<seq<W>>)

  type Record<W> = map<nat, Entry<W>>

  function NewEntry<W>(): Entry<W> {
    Entry(0, 0, 0, 0, false, None)
  }

  /** `saturating_add(1)` or `saturating_sub(1)` on a `usize`. */
  function Stepped(n: nat, up: bool): nat {
    if up then (if n < USIZE_MAX then n + 1 else n)
    else if n > 0 then n - 1 else 0
  }

  function Counted<W>(e: Entry<W>, kind: Kind, up: bool): Entry<W> {
    Entry(
      Stepped(e.depth, up),
      if kind == WriteLock then Stepped(e.writeLocks, up) else e.writeLocks,
      if kind == Snapshot then Stepped(e.snapshots, up) else e.snapshots,
      if kind == Compute then Stepped(e.computing, up) else e.computing,
      e.turn,
      e.pending)
  }

  function Lookup<W>(m: Record<W>, id: nat): Entry<W> {
    if id in m then m[id] else NewEntry()
  }

  /** `enter`: an access of `kind` starts. */
  function Entered<W>(e: Entry<W>, kind: Kind): Entry<W> {
    Counted(e, kind, true)
  }

  /** The second half of `begin_write`: an access starts, holding the turn just taken. */
  function Began<W>(e: Entry<W>, kind: Kind): Entry<W> {
    Counted(e, kind, true).(turn := true)
  }

  /** `pending` put back ahead of the writes deferred since. */
  function PutAhead<W>(e: Entry<W>, pending: seq<W>): Entry<W> {
    e.(pending := Some(pending + if e.pending.Some? then e.pending.value else []))
  }

  /** `resume_write`: an access starts, holding a turn taken before, with `pending` in front. */
  function Resumed<W>(e: Entry<W>, pending: seq<W>): Entry<W> {
    PutAhead(Counted(e, Read, true).(turn := true), pending)
  }

  /** What `exit` hands over when the outermost access ends. */
  datatype Finished<W> = Finished(pending: Option<seq<W>>, turn: bool)

  /** What is left of an entry after an access ends, or what is handed over if nothing is. */
  function Exited<W>(e: Entry<W>, kind: Kind): Result<Entry<W>, Finished<W>> {
    var e := Counted(e, kind, false);
    if e.depth > 0 then Ok(e) else Err(Finished(e.pending, e.turn))
  }

  /** Whether `exit` flushes what was handed over (otherwise it drops it). */
  predicate Flushes<W>(finished: Finished<W>, panicking: bool) {
    finished.pending.Some? && finished.pending.value != [] && !panicking
  }

  /** What `state` shows of an entry. */
  datatype State = State(depth: nat, writeLocks: nat, snapshots: nat, computing: nat, hasTurn: bool)

  function StateOf<W>(e: Entry<W>): State {
    State(e.depth, e.writeLocks, e.snapshots, e.computing, e.turn)
  }

  // ---- Exactness: the record against the accesses that are alive

  /** The accesses alive on one thread: each `Held` is one member. */
  type Live = multiset<(nat, Kind)>

  ghost function LiveOn(live: Live, id: nat): nat {
    live[(id, Read)] + live[(id, WriteLock)] + live[(id, Snapshot)] + live[(id, Compute)]
  }

  /** The record counts exactly the live accesses, and has an entry only for values in use. */
  ghost predicate Exact<W>(m: Record<W>, live: Live) {
    && (forall id :: id in m <==> LiveOn(live, id) > 0)
    && (forall id :: id in m ==> ExactAt(m[id], live, id))
  }

  ghost predicate ExactAt<W>(e: Entry<W>, live: Live, id: nat) {
    && e.depth == LiveOn(live, id)
    && e.writeLocks == live[(id, WriteLock)]
    && e.snapshots == live[(id, Snapshot)]
    && e.computing == live[(id, Compute)]
  }

  /** Starting an access adds one to its value's count of its kind, and changes no other count. */
  lemma LiveAdded<W>(live: Live, id: nat, kind: Kind, other: nat, e: Entry<W>)
    ensures LiveOn(live + multiset{(id, kind)}, other)
         == LiveOn(live, other) + if other == id then 1 else 0
    ensures other != id && ExactAt(e, live, other) ==> ExactAt(e, live + multiset{(id, kind)}, other)
    ensures other == id && ExactAt(e, live, id) && LiveOn(live, id) < USIZE_MAX ==>
      ExactAt(Counted(e, kind, true), live + multiset{(id, kind)}, id)
  {
  }

  lemma LiveRemoved<W>(live: Live, id: nat, kind: Kind, other: nat, e: Entry<W>)
    requires (id, kind) in live
    ensures LiveOn(live - multiset{(id, kind)}, other)
         == LiveOn(live, other) - if other == id then 1 else 0
    ensures other != id && ExactAt(e, live, other) ==> ExactAt(e, live - multiset{(id, kind)}, other)
    ensures other == id && ExactAt(e, live, id) ==>
      ExactAt(Counted(e, kind, false), live - multiset{(id, kind)}, id)
  {
  }

  /** Starting an access keeps the record exact, whatever it does to the turn and the queue. */
  lemma EnterKeepsExact<W>(m: Record<W>, live: Live, id: nat, kind: Kind, e: Entry<W>)
    requires Exact(m, live) && LiveOn(live, id) < USIZE_MAX
    requires e == Entered(Lookup(m, id), kind).(turn := e.turn, pending := e.pending)
    ensures Exact(m[id := e], live + multiset{(id, kind)})
  {
    var m', more := m[id := e], live + multiset{(id, kind)};
    forall other
      ensures other in m' <==> LiveOn(more, other) > 0
      ensures other in m' ==> ExactAt(m'[other], more, other)
    {
      LiveAdded(live, id, kind, other, Lookup(m, other));
    }
  }

  /** Ending any live access, in any order, keeps the record exact. */
  lemma ExitKeepsExact<W>(m: Record<W>, live: Live, id: nat, kind: Kind)
    requires Exact(m, live) && (id, kind) in live
    ensures id in m && LiveOn(live - multiset{(id, kind)}, id) == LiveOn(live, id) - 1
    ensures var rest := live - multiset{(id, kind)};
      match Exited(m[id], kind)
      case Ok(e) => Exact(m[id := e], rest) && LiveOn(rest, id) > 0
      case Err(_) => Exact(m - {id}, rest) && LiveOn(rest, id) == 0
  {
    var rest := live - multiset{(id, kind)};
    assert LiveOn(live, id) > 0;
    LiveRemoved(live, id, kind, id, m[id]);
    var e := Counted(m[id], kind, false);
    var m' := if e.depth > 0 then m[id := e] else m - {id};
    forall other
      ensures other in m' <==> LiveOn(rest, other) > 0
      ensures other in m' ==> ExactAt(m'[other], rest, other)
    {
      LiveRemoved(live, id, kind, other, Lookup(m, other));
    }
  }

  // ---- The record as the source keeps it: a vector of entries

  datatype Slot<W> = Slot(id: nat, entry: Entry<W>)

  /** `es` lists the record `m`: one slot for each of its values, in any order. */
  ghost predicate Lists<W>(es: seq<Slot<W>>, m: Record<W>) {
    && (forall i, j :: 0 <= i < j < |es| ==> es[i].id != es[j].id)
    && (forall i :: 0 <= i < |es| ==> es[i].id in m && m[es[i].id] == es[i].entry)
    && (forall id :: id in m ==> exists i :: 0 <= i < |es| && es[i].id == id)
  }

  lemma UpdateAt<W>(es: seq<Slot<W>>, m: Record<W>, i: nat, e: Entry<W>)
    requires Lists(es, m) && i < |es|
    ensures Lists(es[i := Slot(es[i].id, e)], m[es[i].id := e])
  {
    var es' := es[i := Slot(es[i].id, e)];
    var m' := m[es[i].id := e];
    forall id | id in m' ensures exists j :: 0 <= j < |es'| && es'[j].id == id {
      var j :| 0 <= j < |es| && es[j].id == id;
      assert es'[j].id == id;
    }
  }

  lemma Push<W>(es: seq<Slot<W>>, m: Record<W>, id: nat, e: Entry<W>)
    requires Lists(es, m) && id !in m
    ensures Lists(es + [Slot(id, e)], m[id := e])
  {
    var es' := es + [Slot(id, e)];
    assert es'[|es|].id == id;
    var m' := m[id := e];
    forall x | x in m' ensures exists j :: 0 <= j < |es'| && es'[j].id == x {
      if x != id {
        var j :| 0 <= j < |es| && es[j].id == x;
        assert es'[j].id == x;
      }
    }
  }

  /** `Vec::swap_remove`: the last entry takes the removed one's place. */
  function SwapRemoved<T>(es: seq<T>, i: nat): seq<T>
    requires i < |es|
  {
    es[i := es[|es| - 1]][..|es| - 1]
  }

  lemma SwapRemove<W>(es: seq<Slot<W>>, m: Record<W>, i: nat)
    requires Lists(es, m) && i < |es|
    ensures Lists(SwapRemoved(es, i), m - {es[i].id})
  {
    var es' := SwapRemoved(es, i);
    forall x | x in m - {es[i].id} ensures exists j :: 0 <= j < |es'| && es'[j].id == x {
      var j :| 0 <= j < |es| && es[j].id == x;
      assert es'[if j == |es| - 1 then i else j].id == x;
    }
  }

  /**
  The thread-local `ACCESSES`. `available` is false once the thread is shutting down; `live` is
  the accesses alive on the thread, which the source does not keep.
  */
  class ThreadRecord<W> {
    var entries: seq<Slot<W>>
    var available: bool
    ghost var contents: Record<W>
    ghost var live: Live

    ghost predicate Valid()
      reads this
    {
      Lists(entries, contents) && (available ==> Exact(contents, live))
    }

    constructor ()
      ensures Valid() && available && contents == map[] && live == multiset{}
    {
      entries, available, contents, live := [], true, map[], multiset{};
    }

    /** `entries.iter().position(|entry| entry.id == id)`. */
    method Position(id: nat) returns (index: Option<nat>)
      requires Lists(entries, contents)
      ensures index.Some? <==> id in contents
      ensures index.Some? ==> index.value < |entries| && entries[index.value].id == id
                              && entries[index.value].entry == contents[id]
    {
      var i := 0;
      while i < |entries|
        invariant 0 <= i <= |entries|
        invariant forall j :: 0 <= j < i ==> entries[j].id != id
      {
        if entries[i].id == id {
          return Some(i);
        }
        i := i + 1;
      }
      return None;
    }

    /** `state`: `None` if the record cannot be reached. */
    method StateHere(id: nat) returns (state: Option<State>)
      requires Valid()
      ensures state.Some? <==> available
      ensures available ==>
        && state.value.depth == LiveOn(live, id)
        && state.value.writeLocks == live[(id, WriteLock)]
        && state.value.snapshots == live[(id, Snapshot)]
        && state.value.computing == live[(id, Compute)]
        && (state.value.hasTurn <==> id in contents && contents[id].turn)
    {
      if !available {
        return None;
      }
      var index := Position(id);
      var e := if index.Some? then entries[index.value].entry else NewEntry();
      state := Some(StateOf(e));
    }

    /** Stores `e` for `id`, in place or at the end. */
    method Store(id: nat, e: Entry<W>)
      requires Lists(entries, contents)
      modifies this`entries, this`contents
      ensures Lists(entries, contents) && contents == old(contents)[id := e]
    {
      hide Lists;
      var index := Position(id);
      if index.Some? {
        UpdateAt(entries, contents, index.value, e);
        entries, contents := entries[index.value := Slot(id, e)], contents[id := e];
      } else {
        Push(entries, contents, id, e);
        entries, contents := entries + [Slot(id, e)], contents[id := e];
      }
    }

    method Find(id: nat) returns (e: Entry<W>)
      requires Lists(entries, contents)
      ensures e == Lookup(contents, id)
    {
      var index := Position(id);
      e := if index.Some? then entries[index.value].entry else NewEntry();
    }

    /** `enter`, made by every `Held`. */
    method Enter(id: nat, kind: Kind) returns (recorded: bool)
      requires Valid() && LiveOn(live, id) < USIZE_MAX
      modifies this
      ensures Valid() && recorded == available == old(available)
      ensures live == old(live) + multiset{(id, kind)}
      ensures contents == if recorded
                            then old(contents)[id := Entered(Lookup(old(contents), id), kind)]
                            else old(contents)
    {
      hide Lists, Exact;
      recorded := available;
      if recorded {
        var e := Find(id);
        EnterKeepsExact(contents, live, id, kind, Entered(e, kind));
        Store(id, Entered(e, kind));
      }
      live := live + multiset{(id, kind)};
    }

    /**
    `exit` up to the point where the record is released: what it hands over when the access
    was the outermost one. The turn stays in the entry until then.
    */
    method Exit(id: nat, kind: Kind) returns (finished: Option<Finished<W>>)
      requires Valid() && (id, kind) in live
      modifies this
      ensures Valid() && available == old(available)
      ensures live == old(live) - multiset{(id, kind)}
      ensures !available ==> finished.None? && entries == old(entries) && contents == old(contents)
      ensures available ==> id in old(contents) && (finished.Some? <==> LiveOn(live, id) == 0)
      ensures available && finished.Some? ==>
        && contents == old(contents) - {id}
        && finished.value == Finished(old(contents)[id].pending, old(contents)[id].turn)
      ensures available && finished.None? ==>
        && id in contents
        && contents == old(contents)[id := Counted(old(contents)[id], kind, false)]
        && contents[id].turn == old(contents)[id].turn
        && contents[id].pending == old(contents)[id].pending
    {
      hide Lists, Exact, LiveOn;
      finished := None;
      if available {
        ExitKeepsExact(contents, live, id, kind);
        var index := Position(id);
        match Exited(entries[index.value].entry, kind)
        case Ok(e) =>
          UpdateAt(entries, contents, index.value, e);
          entries, contents := entries[index.value := Slot(id, e)], contents[id := e];
        case Err(f) =>
          SwapRemove(entries, contents, index.value);
          entries, contents := SwapRemoved(entries, index.value), contents - {id};
          finished := Some(f);
      }
      live := live - multiset{(id, kind)};
    }

    /** The second half of `begin_write`, once the turn is taken. */
    method RecordWrite(id: nat, snapshot: bool) returns (recorded: bool)
      requires Valid() && LiveOn(live, id) == 0
      modifies this
      ensures Valid() && recorded == available == old(available)
      ensures recorded ==>
        var kind := if snapshot then Snapshot else Read;
        && live == old(live) + multiset{(id, kind)}
        && contents == old(contents)[id := Began(NewEntry(), kind)]
      ensures !recorded ==> live == old(live) && entries == old(entries) && contents == old(contents)
    {
      hide Lists;
      recorded := available;
      if recorded {
        var kind := if snapshot then Snapshot else Read;
        var e := Find(id);
        EnterKeepsExact(contents, live, id, kind, Began(e, kind));
        Store(id, Began(e, kind));
        live := live + multiset{(id, kind)};
      }
    }

    /** `resume_write`. */
    method ResumeWrite(id: nat, pending: seq<W>) returns (recorded: bool)
      requires Valid() && LiveOn(live, id) < USIZE_MAX
      modifies this
      ensures Valid() && recorded == available == old(available)
      ensures recorded ==>
        && live == old(live) + multiset{(id, Read)}
        && contents == old(contents)[id := Resumed(Lookup(old(contents), id), pending)]
      ensures !recorded ==> live == old(live) && entries == old(entries) && contents == old(contents)
    {
      hide Lists, Exact;
      recorded := available;
      if recorded {
        var e := Find(id);
        EnterKeepsExact(contents, live, id, Read, Resumed(e, pending));
        Store(id, Resumed(e, pending));
        live := live + multiset{(id, Read)};
      }
    }

    /** `take_pending`. */
    method TakePending(id: nat) returns (taken: Option<seq<W>>)
      requires Valid()
      modifies this`entries, this`contents
      ensures Valid()
      ensures taken == if available then Lookup(old(contents), id).pending else None
      ensures contents == if taken.Some?
                            then old(contents)[id := old(contents)[id].(pending := None)]
                            else old(contents)
    {
      hide Lists;
      taken := None;
      if available {
        var index := Position(id);
        if index.Some? && entries[index.value].entry.pending.Some? {
          var e := entries[index.value].entry;
          taken := e.pending;
          UpdateAt(entries, contents, index.value, e.(pending := None));
          entries, contents := entries[index.value := Slot(id, e.(pending := None))], contents[id := e.(pending := None)];
        }
      }
    }

    /** `put_pending`: `refused` gives the writes back, when nothing here would apply them. */
    method PutPending(id: nat, pending: seq<W>) returns (refused: Option<seq<W>>)
      requires Valid()
      modifies this`entries, this`contents
      ensures Valid()
      ensures refused.None? <==> available && LiveOn(live, id) > 0
      ensures refused.Some? ==> refused.value == pending && entries == old(entries) && contents == old(contents)
      ensures refused.None? ==>
        && id in old(contents)
        && contents == old(contents)[id := PutAhead(old(contents)[id], pending)]
    {
      hide Lists;
      if available {
        var index := Position(id);
        if index.Some? && entries[index.value].entry.depth > 0 {
          var e := PutAhead(entries[index.value].entry, pending);
          UpdateAt(entries, contents, index.value, e);
          entries, contents := entries[index.value := Slot(id, e)], contents[id := e];
          return None;
        }
      }
      refused := Some(pending);
    }
  }
}
