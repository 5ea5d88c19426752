/**
The HTML stream (halyard_tachys/src/ssr/mod.rs): chunks that are ready, chunks that come in order
later, and chunks that come out of order. A future is modelled by the value it resolves to, and when
it resolves is left open.
*/
module Streaming {
  import opened Basics

  datatype Chunk =
    | Sync(text: string)
    | Async(inner: seq<Chunk>)
    | OutOfOrder(later: Later)

  datatype Later = Later(id: string, chunks: seq<Chunk>, replace: bool)

  // ---- What chunks mean

  /** A character of the page, or the place in it where an out-of-order chunk was met. */
  datatype Item = Char(c: char) | Hole(later: Later)

  type Page = seq<Item>

  function Chars(s: string): Page {
    seq(|s|, i requires 0 <= i < |s| => Char(s[i]))
  }

  function ChunkPage(chunk: Chunk): Page
    decreases chunk, 0
  {
    match chunk
    case Sync(text) => Chars(text)
    case Async(inner) => PageOf(inner)
    case OutOfOrder(later) => [Hole(later)]
  }

  /** The chunks in order, however deep they are. */
  function PageOf(chunks: seq<Chunk>): Page
    decreases chunks, 1
  {
    if chunks == [] then [] else ChunkPage(chunks[0]) + PageOf(chunks[1..])
  }

  lemma {:induction false} PageConcat(a: seq<Chunk>, b: seq<Chunk>)
    ensures PageOf(a + b) == PageOf(a) + PageOf(b)
  {
    if a == [] {
      assert a + b == b;
    } else {
      assert (a + b)[1..] == a[1..] + b;
      PageConcat(a[1..], b);
    }
  }

  lemma PageOne(chunk: Chunk)
    ensures PageOf([chunk]) == ChunkPage(chunk)
  {
    assert [chunk][1..] == [] && PageOf([]) == [];
  }

  lemma CharsConcat(a: string, b: string)
    ensures Chars(a + b) == Chars(a) + Chars(b)
  {
  }

  /** What is streamed in order. */
  function Text(page: Page): string {
    if page == [] then "" else (if page[0].Char? then [page[0].c] else "") + Text(page[1..])
  }

  /** What is left to stream out of order. */
  function Holes(page: Page): seq<Later> {
    if page == [] then [] else (if page[0].Hole? then [page[0].later] else []) + Holes(page[1..])
  }

  lemma Associative<T>(a: seq<T>, b: seq<T>, c: seq<T>)
    ensures (a + b) + c == a + (b + c)
  {
  }

  lemma {:induction false} TextConcat(a: Page, b: Page)
    ensures Text(a + b) == Text(a) + Text(b)
  {
    if a == [] {
      assert a + b == b;
    } else {
      var first := if a[0].Char? then [a[0].c] else "";
      assert (a + b)[1..] == a[1..] + b && (a + b)[0] == a[0];
      TextConcat(a[1..], b);
      assert Text(a) == first + Text(a[1..]);
      assert Text(a + b) == first + (Text(a[1..]) + Text(b));
      Associative(first, Text(a[1..]), Text(b));
    }
  }

  lemma {:induction false} HolesConcat(a: Page, b: Page)
    ensures Holes(a + b) == Holes(a) + Holes(b)
  {
    if a == [] {
      assert a + b == b;
    } else {
      var first := if a[0].Hole? then [a[0].later] else [];
      assert (a + b)[1..] == a[1..] + b && (a + b)[0] == a[0];
      HolesConcat(a[1..], b);
      assert Holes(a) == first + Holes(a[1..]);
      assert Holes(a + b) == first + (Holes(a[1..]) + Holes(b));
      Associative(first, Holes(a[1..]), Holes(b));
    }
  }

  lemma {:induction false} TextChars(s: string)
    ensures Text(Chars(s)) == s && Holes(Chars(s)) == []
  {
    if s != [] {
      TextChars(s[1..]);
      assert Chars(s)[1..] == Chars(s[1..]);
      assert s == [s[0]] + s[1..];
    }
  }

  /** Chunks still to be polled, those inside others counted too. */
  function ChunkSize(chunk: Chunk): nat
    decreases chunk, 0
  {
    if chunk.Async? then 1 + Size(chunk.inner) else 1
  }

  function Size(chunks: seq<Chunk>): nat
    decreases chunks, 1
  {
    if chunks == [] then 0 else ChunkSize(chunks[0]) + Size(chunks[1..])
  }

  lemma {:induction false} SizeConcat(a: seq<Chunk>, b: seq<Chunk>)
    ensures Size(a + b) == Size(a) + Size(b)
  {
    if a == [] {
      assert a + b == b;
    } else {
      assert (a + b)[1..] == a[1..] + b;
      SizeConcat(a[1..], b);
    }
  }

  // ---- Building and polling

  datatype Polled = Ready(text: string) | Pending | End | OnlyHoles

  class StreamBuilder {
    var syncBuf: string
    var chunks: seq<Chunk>
    var pending: Option<seq<Chunk>>
    var pendingLater: seq<Later>

    constructor ()
      ensures Built() == [] && pending == None && pendingLater == []
    {
      syncBuf, chunks, pending, pendingLater := "", [], None, [];
    }

    /** While it is built, the buffer comes after the chunks. */
    function Built(): Page
      reads this
    {
      PageOf(chunks) + Chars(syncBuf)
    }

    /** The buffer, if there is something in it, becomes a chunk. */
    method Flush()
      modifies this`syncBuf, this`chunks
      ensures syncBuf == "" && PageOf(chunks) == old(Built()) && Built() == old(Built())
    {
      if syncBuf != "" {
        PageConcat(chunks, [Sync(syncBuf)]);
        PageOne(Sync(syncBuf));
        chunks := chunks + [Sync(syncBuf)];
        syncBuf := "";
      }
      assert PageOf(chunks) + [] == PageOf(chunks);
    }

    method PushSync(text: string)
      modifies this`syncBuf
      ensures Built() == old(Built()) + Chars(text)
    {
      CharsConcat(syncBuf, text);
      syncBuf := syncBuf + text;
    }

    method PushAsync(resolved: seq<Chunk>)
      modifies this`syncBuf, this`chunks
      ensures Built() == old(Built()) + PageOf(resolved)
    {
      Flush();
      PageConcat(chunks, [Async(resolved)]);
      PageOne(Async(resolved));
      chunks := chunks + [Async(resolved)];
    }

    method TakeChunks() returns (taken: seq<Chunk>)
      modifies this`syncBuf, this`chunks
      ensures PageOf(taken) == old(Built()) && Built() == []
    {
      Flush();
      taken := chunks;
      chunks := [];
    }

    method Append(other: StreamBuilder)
      requires other != this
      modifies this`syncBuf, this`chunks
      ensures Built() == old(Built()) + other.Built()
    {
      Flush();
      PageConcat(chunks, other.chunks);
      chunks := chunks + other.chunks;
      syncBuf := syncBuf + other.syncBuf;
      assert syncBuf == other.syncBuf;
    }

    /** What is built is now to be streamed: the buffer is empty. */
    method Finish()
      modifies this`syncBuf, this`chunks
      ensures syncBuf == "" && PageOf(chunks) == old(Built())
    {
      if syncBuf != "" && chunks != [] && chunks[|chunks| - 1].Sync? {
        var init, last := chunks[..|chunks| - 1], chunks[|chunks| - 1];
        assert chunks == init + [last];
        PageConcat(init, [last]);
        PageConcat(init, [Sync(last.text + syncBuf)]);
        PageOne(last);
        PageOne(Sync(last.text + syncBuf));
        CharsConcat(last.text, syncBuf);
        chunks := init + [Sync(last.text + syncBuf)];
        syncBuf := "";
      } else {
        Flush();
      }
    }

    // ---- Streaming

    /** The chunks to come: those that are waited for, and then the others. */
    function Awaited(): seq<Chunk>
      reads this
    {
      (if pending.Some? then pending.value else []) + chunks
    }

    /** While it is streamed, the buffer comes before the chunks. */
    function Rest(): Page
      reads this
    {
      Chars(syncBuf) + PageOf(Awaited())
    }

    /** Text still to come, and out-of-order chunks met or still to be met. */
    function TextLeft(): string
      reads this
    {
      Text(Rest())
    }

    function LaterLeft(): seq<Later>
      reads this
    {
      pendingLater + Holes(Rest())
    }

    /** Text is never held back while a chunk is waited for. */
    predicate Flowing()
      reads this
    {
      pending.Some? ==> syncBuf == ""
    }

    /** Nothing is lost, doubled or moved: neither text nor out-of-order chunks. */
    twostate predicate Kept(sent: string)
      reads this
    {
      old(TextLeft()) == sent + TextLeft() && old(LaterLeft()) == LaterLeft()
    }

    /** The first chunk's text goes to the buffer. */
    method PopSync()
      requires chunks != [] && chunks[0].Sync? && pending.None?
      modifies this`syncBuf, this`chunks
      ensures Rest() == old(Rest()) && chunks == old(chunks)[1..] && Size(Awaited()) < old(Size(Awaited()))
    {
      SyncFirst(syncBuf, chunks);
      assert Awaited() == chunks;
      syncBuf := syncBuf + chunks[0].text;
      chunks := chunks[1..];
      assert Awaited() == chunks;
    }

    /** The first chunk is set aside, to be streamed when it is ready. */
    method PopLater()
      requires chunks != [] && chunks[0].OutOfOrder? && pending.None?
      modifies this`chunks, this`pendingLater
      ensures Kept("") && chunks == old(chunks)[1..] && Size(Awaited()) < old(Size(Awaited()))
    {
      hide Text, Holes;
      LaterFirst(syncBuf, chunks, pendingLater);
      assert Awaited() == chunks;
      pendingLater := pendingLater + [chunks[0].later];
      chunks := chunks[1..];
      assert Awaited() == chunks;
    }

    method PopAsync()
      requires chunks != [] && chunks[0].Async? && pending.None?
      modifies this`chunks, this`pending
      ensures Rest() == old(Rest()) && pending == Some(old(chunks)[0].inner) && Size(Awaited()) < old(Size(Awaited()))
    {
      assert Awaited() == chunks;
      PageConcat(chunks[0].inner, chunks[1..]);
      SizeConcat(chunks[0].inner, chunks[1..]);
      assert PageOf(chunks) == PageOf(chunks[0].inner) + PageOf(chunks[1..]);
      pending := Some(chunks[0].inner);
      chunks := chunks[1..];
    }

    /** The chunks that were waited for come first. */
    method Resolve()
      requires pending.Some?
      modifies this`chunks, this`pending
      ensures Rest() == old(Rest()) && pending.None? && Awaited() == old(Awaited())
    {
      chunks := pending.value + chunks;
      pending := None;
      assert Awaited() == chunks;
    }

    method Send() returns (text: string)
      modifies this`syncBuf
      ensures Kept(text) && syncBuf == "" && text == old(syncBuf)
    {
      hide Text, Holes, PageOf;
      BufferFirst(syncBuf, PageOf(Awaited()));
      text := syncBuf;
      syncBuf := "";
      assert Rest() == PageOf(Awaited());
    }

    /**
    One poll, up to the point where only out-of-order chunks are left. The text it gives is exactly
    the next part of the page, and out-of-order chunks are set aside in order.
    */
    method PollNext() returns (poll: Polled)
      requires Flowing()
      modifies this
      ensures Flowing()
      ensures Kept(if poll.Ready? then poll.text else "")
      ensures poll.Ready? ==> poll.text != "" && syncBuf == ""
      ensures poll.Pending? ==> pending.Some? && syncBuf == ""
      ensures poll.End? ==> TextLeft() == "" && LaterLeft() == []
      ensures poll.OnlyHoles? ==> pending.None? && chunks == [] && pendingLater == LaterLeft() != [] && TextLeft() == syncBuf
    {
      EmptyPage();
      hide Text, Holes, PageOf, Size;
      while true
        invariant Flowing() && Kept("")
        decreases Size(Awaited()), pending.Some?
      {
        if pending.Some? {
          var ready: bool := *;
          if !ready {
            return Pending;
          }
          Resolve();
        } else if chunks == [] {
          assert Awaited() == [] && Rest() == Chars(syncBuf);
          TextChars(syncBuf);
          if pendingLater != [] {
            return OnlyHoles;
          }
          if syncBuf == "" {
            return End;
          }
          var text := Send();
          return Ready(text);
        } else {
          match chunks[0]
          case Sync(_) =>
            PopSync();
            TakeReady();
          case Async(_) =>
            PopAsync();
            if syncBuf != "" {
              var text := Send();
              return Ready(text);
            }
          case OutOfOrder(_) =>
            PopLater();
            if syncBuf != "" {
              var text := Send();
              return Ready(text);
            }
        }
      }
    }

    /** Polled any number of times: all that was sent, and then what is left, is what was to be sent. */
    method PollMany(polls: nat) returns (sent: string, last: Polled)
      requires Flowing()
      modifies this
      ensures Flowing() && Kept(sent)
      ensures last.End? ==> sent == old(TextLeft()) && old(LaterLeft()) == []
      ensures last.OnlyHoles? ==> sent + syncBuf == old(TextLeft()) && pendingLater == old(LaterLeft())
    {
      hide Text, Holes, PageOf;
      sent, last := "", Pending;
      for i := 0 to polls
        invariant Flowing() && Kept(sent)
        invariant !last.End? && !last.OnlyHoles?
      {
        ghost var left := TextLeft();
        last := PollNext();
        if last.Ready? {
          Associative(sent, last.text, TextLeft());
          sent := sent + last.text;
        } else if last.End? || last.OnlyHoles? {
          return;
        }
      }
    }

    /** The chunks after one that was ready, until one is not. */
    method TakeReady()
      requires pending.None?
      modifies this`syncBuf, this`chunks, this`pendingLater
      ensures Kept("") && Size(Awaited()) <= old(Size(Awaited()))
    {
      hide Text, Holes, PageOf, Size;
      while true
        invariant Kept("") && pending.None? && Size(Awaited()) <= old(Size(Awaited()))
        decreases |chunks|
      {
        if chunks == [] || chunks[0].Async? {
          break;
        }
        if chunks[0].OutOfOrder? {
          PopLater();
          break;
        }
        PopSync();
      }
    }
  }

  lemma EmptyPage()
    ensures PageOf([]) == [] && Text([]) == "" && Holes([]) == []
  {
  }

  lemma SyncFirst(buffered: string, chunks: seq<Chunk>)
    requires chunks != [] && chunks[0].Sync?
    ensures Chars(buffered + chunks[0].text) + PageOf(chunks[1..]) == Chars(buffered) + PageOf(chunks)
  {
    CharsConcat(buffered, chunks[0].text);
  }

  lemma BufferFirst(buffered: string, after: Page)
    ensures Text(Chars(buffered) + after) == buffered + Text(after) && Holes(Chars(buffered) + after) == Holes(after)
  {
    TextChars(buffered);
    TextConcat(Chars(buffered), after);
    HolesConcat(Chars(buffered), after);
  }

  lemma LaterFirst(buffered: string, chunks: seq<Chunk>, aside: seq<Later>)
    requires chunks != [] && chunks[0].OutOfOrder?
    ensures Text(Chars(buffered) + PageOf(chunks)) == Text(Chars(buffered) + PageOf(chunks[1..]))
    ensures aside + Holes(Chars(buffered) + PageOf(chunks))
         == aside + [chunks[0].later] + Holes(Chars(buffered) + PageOf(chunks[1..]))
  {
    var later, after := chunks[0].later, PageOf(chunks[1..]);
    HoleFirst(later, after);
    assert PageOf(chunks) == [Hole(later)] + after;
    hide Text, Holes, PageOf;
    BufferFirst(buffered, PageOf(chunks));
    BufferFirst(buffered, after);
    Associative(aside, [later], Holes(after));
  }

  lemma HoleFirst(later: Later, after: Page)
    ensures Text([Hole(later)] + after) == Text(after) && Holes([Hole(later)] + after) == [later] + Holes(after)
  {
    assert ([Hole(later)] + after)[1..] == after;
  }

  // ---- Out-of-order chunks

  /** The texts of the chunks that are ready when an out-of-order chunk is written, which goes through them backwards. */
  function WrittenText(chunks: seq<Chunk>): string {
    if chunks == [] then ""
    else WrittenText(chunks[1..]) + if chunks[0].Sync? then chunks[0].text else ""
  }

  function ReadyText(chunks: seq<Chunk>): string {
    if chunks == [] then ""
    else (if chunks[0].Sync? then chunks[0].text else "") + ReadyText(chunks[1..])
  }

  function StillToCome(chunks: seq<Chunk>): seq<Chunk> {
    if chunks == [] then []
    else (if chunks[0].Sync? then [] else [chunks[0]]) + StillToCome(chunks[1..])
  }

  /** The loop that writes an out-of-order chunk whose placeholder was streamed already. */
  method WriteLater(chunks: seq<Chunk>) returns (text: string, held: seq<Chunk>)
    ensures text == WrittenText(chunks) && held == StillToCome(chunks)
  {
    text, held := "", [];
    var i := |chunks|;
    while i > 0
      invariant 0 <= i <= |chunks|
      invariant text == WrittenText(chunks[i..]) && held == StillToCome(chunks[i..])
    {
      i := i - 1;
      assert chunks[i..][1..] == chunks[i + 1..];
      if chunks[i].Sync? {
        text := text + chunks[i].text;
      } else {
        held := [chunks[i]] + held;
      }
    }
  }

  /** Of two lists of chunks one after the other, the text of the second is written first; what is to come keeps its order. */
  lemma {:induction false} LaterConcat(a: seq<Chunk>, b: seq<Chunk>)
    ensures WrittenText(a + b) == WrittenText(b) + WrittenText(a)
    ensures StillToCome(a + b) == StillToCome(a) + StillToCome(b)
  {
    if a == [] {
      assert a + b == b && WrittenText(b) + [] == WrittenText(b);
    } else {
      assert (a + b)[1..] == a[1..] + b && (a + b)[0] == a[0];
      LaterConcat(a[1..], b);
      Associative(WrittenText(b), WrittenText(a[1..]), if a[0].Sync? then a[0].text else "");
      Associative(if a[0].Sync? then [] else [a[0]], StillToCome(a[1..]), StillToCome(b));
    }
  }

  /** Chunks that differ in nothing but their ready texts. */
  predicate SameShape(a: seq<Chunk>, b: seq<Chunk>) {
    |a| == |b| && forall i :: 0 <= i < |a| ==> a[i].Sync? == b[i].Sync? && (!a[i].Sync? ==> a[i] == b[i])
  }

  predicate OneReadyAtMost(chunks: seq<Chunk>) {
    forall i, j :: 0 <= i < j < |chunks| ==> !(chunks[i].Sync? && chunks[j].Sync?)
  }

  /**
  The text of an out-of-order chunk is written in order, whatever it is, exactly if no more than one
  of its chunks is ready: two ready chunks around one that is not are written the wrong way round.
  */
  lemma WrittenInOrderExactly(chunks: seq<Chunk>)
    ensures (forall c :: SameShape(chunks, c) ==> WrittenText(c) == ReadyText(c)) <==> OneReadyAtMost(chunks)
  {
    if OneReadyAtMost(chunks) {
      forall c | SameShape(chunks, c) ensures WrittenText(c) == ReadyText(c) {
        OneReadyInOrder(c);
      }
    } else {
      var i, j :| 0 <= i < j < |chunks| && chunks[i].Sync? && chunks[j].Sync?;
      var c := Only(chunks, i, j);
      OnlyTexts(chunks, i, j, 0);
      assert c[0..] == c;
      assert SameShape(chunks, c) && WrittenText(c)[0] == 'b' && ReadyText(c)[0] == 'a';
    }
  }

  lemma {:induction false} NoneReady(chunks: seq<Chunk>)
    requires forall c :: c in chunks ==> !c.Sync?
    ensures WrittenText(chunks) == ReadyText(chunks) == ""
  {
    if chunks != [] {
      NoneReady(chunks[1..]);
    }
  }

  lemma {:induction false} OneReadyInOrder(chunks: seq<Chunk>)
    requires OneReadyAtMost(chunks)
    ensures WrittenText(chunks) == ReadyText(chunks)
  {
    if chunks != [] {
      var written, ready := WrittenText(chunks[1..]), ReadyText(chunks[1..]);
      if chunks[0].Sync? {
        NoneReady(chunks[1..]);
        assert written + chunks[0].text == chunks[0].text + ready;
      } else {
        OneReadyInOrder(chunks[1..]);
        assert written + "" == "" + ready;
      }
    }
  }

  /** The texts "a" and "b" for two of the ready chunks, and none for the others. */
  function Only(chunks: seq<Chunk>, i: nat, j: nat): seq<Chunk> {
    seq(|chunks|, k requires 0 <= k < |chunks| =>
      if chunks[k].Sync? then Sync(if k == i then "a" else if k == j then "b" else "") else chunks[k])
  }

  lemma {:induction false} OnlyTexts(chunks: seq<Chunk>, i: nat, j: nat, k: nat)
    requires i < j < |chunks| && chunks[i].Sync? && chunks[j].Sync? && k <= |chunks|
    ensures var after := Only(chunks, i, j)[k..];
      && WrittenText(after) == (if k <= j then "b" else "") + (if k <= i then "a" else "")
      && ReadyText(after) == (if k <= i then "a" else "") + (if k <= j then "b" else "")
    decreases |chunks| - k
  {
    if k < |chunks| {
      OnlyTexts(chunks, i, j, k + 1);
      var c := Only(chunks, i, j);
      assert c[k..][1..] == c[k + 1..];
    }
  }
}
