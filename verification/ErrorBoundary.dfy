/** `<ErrorBoundary/>` (error_boundary.rs): how it streams, when it shows its fallback, and how it swaps views in place. */
module ErrorBoundary {
  import opened Basics
  import opened Streaming

  // ---- Streaming

  /** Out-of-order chunks are kept, in-order ones are waited for and put in their place. */
  method Collect(chunks: seq<Chunk>) returns (mine: seq<Chunk>)
    ensures PageOf(mine) == PageOf(chunks)
  {
    mine := [];
    for i := 0 to |chunks|
      invariant PageOf(mine) == PageOf(chunks[..i])
    {
      assert chunks[..i + 1] == chunks[..i] + [chunks[i]];
      PageConcat(chunks[..i], [chunks[i]]);
      PageOne(chunks[i]);
      match chunks[i]
      case Sync(text) =>
        PageConcat(mine, [Sync(text)]);
        mine := mine + [Sync(text)];
      case Async(inner) =>
        PageConcat(mine, inner);
        mine := mine + inner;
      case OutOfOrder(later) =>
        PageConcat(mine, [OutOfOrder(later)]);
        mine := mine + [OutOfOrder(later)];
    }
    assert chunks[..|chunks|] == chunks;
  }

  /**
  `to_html_async_with_buf`, after the children were written to `children`. `failed`: there are errors
  when they are looked at, at once or after the suspended children.
  */
  method StreamBoundary(buf: StreamBuilder, children: StreamBuilder, suspended: bool, failed: bool, fallback: string)
    requires buf != children
    modifies buf`syncBuf, buf`chunks, children`syncBuf, children`chunks
    ensures buf.Built() == old(buf.Built()) + if failed then Chars(fallback) else old(children.Built())
  {
    if !suspended {
      if !failed {
        buf.Append(children);
      } else {
        buf.PushSync(fallback);
      }
    } else {
      var view := new StreamBuilder();
      var taken := children.TakeChunks();
      var mine := Collect(taken);
      if failed {
        PageOne(Sync(fallback));
        mine := [Sync(fallback)];
      }
      view.PushAsync(mine);
      assert view.Built() == PageOf(mine);
      buf.Append(view);
    }
  }

  // ---- Errors

  type ErrorId = nat
  type Error = nat

  /** What a `Result` view does with its error; ids are given by the shared context if there is one. */
  datatype ErrorOp = Throw(error: Error) | Clear(id: ErrorId)

  /** `held`: the ids that rendered results own, each for an error thrown and not yet cleared. */
  datatype Hook = Hook(shared: bool, next: ErrorId, errors: map<ErrorId, Error>, held: multiset<ErrorId>)

  const DEFAULT_ID: ErrorId := 0

  function NewKey(h: Hook): ErrorId {
    if h.shared then h.next else DEFAULT_ID
  }

  predicate CanDo(h: Hook, op: ErrorOp) {
    op.Clear? ==> op.id in h.held
  }

  function Do(h: Hook, op: ErrorOp): Hook
    requires CanDo(h, op)
  {
    match op
    case Throw(error) =>
      var key := NewKey(h);
      h.(next := h.next + 1, errors := h.errors[key := error], held := h.held + multiset{key})
    case Clear(id) =>
      h.(errors := h.errors - {id}, held := h.held - multiset{id})
  }

  predicate CanDoAll(h: Hook, ops: seq<ErrorOp>)
    decreases |ops|
  {
    ops == [] || (CanDo(h, ops[0]) && CanDoAll(Do(h, ops[0]), ops[1..]))
  }

  function DoAll(h: Hook, ops: seq<ErrorOp>): Hook
    requires CanDoAll(h, ops)
    decreases |ops|
  {
    if ops == [] then h else DoAll(Do(h, ops[0]), ops[1..])
  }

  function Fresh(shared: bool): Hook {
    Hook(shared, 0, map[], multiset{})
  }

  /** Each id is held once, and the map has exactly the errors that were thrown and not cleared. */
  ghost predicate ErrorsExact(h: Hook) {
    forall id: ErrorId :: h.held[id] == (if id in h.errors then 1 else 0) && (id in h.errors ==> id < h.next)
  }

  lemma {:induction false} DoAllKeepsExact(h: Hook, ops: seq<ErrorOp>)
    requires h.shared && ErrorsExact(h) && CanDoAll(h, ops)
    ensures ErrorsExact(DoAll(h, ops))
    decreases |ops|
  {
    if ops != [] {
      assert ErrorsExact(Do(h, ops[0]));
      DoAllKeepsExact(Do(h, ops[0]), ops[1..]);
    }
  }

  /** Throwing puts the error at a new id, which its thrower holds, and changes no other error. */
  lemma ThrowAdds(h: Hook, error: Error)
    requires h.shared && ErrorsExact(h)
    ensures var after := Do(h, Throw(error));
      && h.next !in h.errors && after.errors.Keys == h.errors.Keys + {h.next} && after.errors[h.next] == error
      && (forall id :: id in h.errors ==> after.errors[id] == h.errors[id])
      && after.held[h.next] == 1 && (forall id: ErrorId :: id != h.next ==> after.held[id] == h.held[id])
  {
  }

  /** Clearing takes away the error of that id, and no other. */
  lemma ClearRemoves(h: Hook, id: ErrorId)
    requires ErrorsExact(h) && id in h.held
    ensures var after := Do(h, Clear(id));
      && id in h.errors && after.errors.Keys == h.errors.Keys - {id} && after.held[id] == 0
      && (forall k :: k in after.errors ==> after.errors[k] == h.errors[k])
      && (forall k: ErrorId :: k != id ==> after.held[k] == h.held[k])
  {
  }

  /** Without a shared context the new error takes the place of any other. */
  lemma ThrowReplaces(h: Hook, error: Error)
    requires !h.shared
    ensures Do(h, Throw(error)).errors == h.errors[DEFAULT_ID := error]
    ensures Do(h, Throw(error)).held == h.held + multiset{DEFAULT_ID}
  {
  }

  /** Some error is shown exactly while some thrown error is not cleared. */
  predicate ShownExactly(h: Hook) {
    h.errors == map[] <==> h.held == multiset{}
  }

  /**
  Errors are shown exactly while one is not cleared, in every run, if and only if there is a shared
  context: without one all errors have the same id, and the first to be cleared clears the others.
  */
  lemma ExactWithContext(shared: bool)
    ensures (forall ops :: CanDoAll(Fresh(shared), ops) ==> ShownExactly(DoAll(Fresh(shared), ops))) <==> shared
  {
    if shared {
      forall ops | CanDoAll(Fresh(shared), ops) ensures ShownExactly(DoAll(Fresh(shared), ops)) {
        DoAllKeepsExact(Fresh(shared), ops);
        ExactShown(DoAll(Fresh(shared), ops));
      }
    } else {
      var ops := OneClearsBoth();
      assert CanDoAll(Fresh(shared), ops);
    }
  }

  /** Two errors, the first of them cleared: none is left in the map. */
  lemma OneClearsBoth() returns (ops: seq<ErrorOp>)
    ensures CanDoAll(Fresh(false), ops)
    ensures DoAll(Fresh(false), ops).errors == map[] && DoAll(Fresh(false), ops).held == multiset{DEFAULT_ID}
  {
    var a, b, c := Throw(1), Throw(2), Clear(DEFAULT_ID);
    var start := Fresh(false);
    var one := Do(start, a);
    var two := Do(one, b);
    assert two.held == multiset{DEFAULT_ID, DEFAULT_ID} && two.errors == map[DEFAULT_ID := 2];
    var three := Do(two, c);
    assert three.held == multiset{DEFAULT_ID} && three.errors == map[];
    ops := [a, b, c];
    assert ops[1..] == [b, c] && [b, c][1..] == [c] && [c][1..] == [];
    assert CanDoAll(two, [c]) && DoAll(two, [c]) == three;
    assert CanDoAll(one, [b, c]) && DoAll(one, [b, c]) == three;
  }

  lemma ExactShown(h: Hook)
    requires ErrorsExact(h)
    ensures ShownExactly(h)
  {
    assert h.errors == map[] ==> forall id: ErrorId :: h.held[id] == 0;
    assert forall id: ErrorId :: id in h.errors ==> h.held[id] == 1;
  }
}
