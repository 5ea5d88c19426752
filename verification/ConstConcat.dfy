/** Concatenation in a buffer of fixed size (const_str_slice_concat.rs). */
module ConstConcat {
  import opened Basics
  import opened RouteText

  const MAX_TEMPLATE_SIZE: nat := 4096

  /** A whole buffer that starts with `s` and is zero after it. */
  predicate Holds(buffer: Text, s: Text) {
    && |s| <= |buffer| == MAX_TEMPLATE_SIZE
    && buffer[..|s|] == s
    && forall k :: |s| <= k < MAX_TEMPLATE_SIZE ==> buffer[k] == 0
  }

  /** The index of the first zero, or the length. */
  function NulAt(s: Text): (i: nat)
    ensures i <= |s| && (i < |s| ==> s[i] == 0)
    ensures forall k :: 0 <= k < i ==> s[k] != 0
  {
    if s == [] || s[0] == 0 then 0 else 1 + NulAt(s[1..])
  }

  /** What comes before the first zero. */
  function Cut(s: Text): Text {
    s[..NulAt(s)]
  }

  lemma NulAtIs(s: Text, i: nat)
    requires i <= |s| && (i < |s| ==> s[i] == 0) && forall k :: 0 <= k < i ==> s[k] != 0
    ensures NulAt(s) == i
  {
  }

  lemma CutPlain(s: Text)
    ensures Cut(s) == s <==> 0 !in s
    ensures |Cut(s)| <= |s|
  {
    var i := NulAt(s);
    if i == |s| {
      assert s[..i] == s;
    } else {
      assert s[i] in s;
    }
  }

  lemma CutBuffer(buffer: Text, s: Text)
    requires Holds(buffer, s)
    ensures Cut(buffer) == Cut(s)
  {
    var i := NulAt(s);
    assert forall k :: 0 <= k < |s| ==> buffer[k] == buffer[..|s|][k] == s[k];
    NulAtIs(buffer, i);
    assert buffer[..i] == buffer[..|s|][..i];
  }

  // ---- The methods; a panic is an early return

  /** Writes `x` from `position` on; it panics at the end of the buffer. */
  method Write(buffer: array<Byte>, position: nat, x: Text) returns (after: nat, panic: bool)
    requires buffer.Length == MAX_TEMPLATE_SIZE && position <= MAX_TEMPLATE_SIZE
    modifies buffer
    ensures panic <==> position + |x| > MAX_TEMPLATE_SIZE
    ensures !panic ==> after == position + |x| && buffer[..after] == old(buffer[..position]) + x
    ensures !panic ==> forall k :: after <= k < MAX_TEMPLATE_SIZE ==> buffer[k] == old(buffer[k])
  {
    after := position;
    var i := 0;
    while i < |x|
      invariant 0 <= i <= |x| && after == position + i <= MAX_TEMPLATE_SIZE
      invariant buffer[..after] == old(buffer[..position]) + x[..i]
      invariant forall k :: after <= k < MAX_TEMPLATE_SIZE ==> buffer[k] == old(buffer[k])
    {
      if after >= buffer.Length {
        return after, true;
      }
      ghost var before := buffer[..after];
      buffer[after] := x[i];
      assert buffer[..after] == before;
      assert buffer[..after + 1] == buffer[..after] + [x[i]];
      after := after + 1;
      i := i + 1;
    }
    assert x[..|x|] == x;
    panic := false;
  }

  method ConstConcat(strs: seq<Text>) returns (buffer: array<Byte>, panic: bool)
    ensures fresh(buffer) && buffer.Length == MAX_TEMPLATE_SIZE
    ensures panic <==> |Flatten(strs)| > MAX_TEMPLATE_SIZE
    ensures !panic ==> Holds(buffer[..], Flatten(strs))
  {
    buffer := new Byte[MAX_TEMPLATE_SIZE](_ => 0);
    var position := 0;
    var remaining := strs;
    ghost var done: Text := [];
    while remaining != []
      invariant position == |done| <= MAX_TEMPLATE_SIZE && buffer[..position] == done
      invariant forall k :: position <= k < MAX_TEMPLATE_SIZE ==> buffer[k] == 0
      invariant done + Flatten(remaining) == Flatten(strs)
      decreases |remaining|
    {
      var current := remaining[0];
      assert done + (current + Flatten(remaining[1..])) == done + current + Flatten(remaining[1..]);
      position, panic := Write(buffer, position, current);
      if panic {
        return;
      }
      done := done + current;
      remaining := remaining[1..];
    }
    assert done == Flatten(strs);
    assert buffer[..][..position] == buffer[..position];
    panic := false;
  }

  /** Writes what `buffer` has before its first zero. */
  method WriteUntilNul(newBuf: array<Byte>, position: nat, buffer: array<Byte>) returns (after: nat, panic: bool)
    requires newBuf.Length == buffer.Length == MAX_TEMPLATE_SIZE && position <= MAX_TEMPLATE_SIZE && newBuf != buffer
    modifies newBuf
    ensures panic <==> position + |Cut(buffer[..])| > MAX_TEMPLATE_SIZE
    ensures !panic ==> after == position + |Cut(buffer[..])| && newBuf[..after] == old(newBuf[..position]) + Cut(buffer[..])
    ensures !panic ==> forall k :: after <= k < MAX_TEMPLATE_SIZE ==> newBuf[k] == old(newBuf[k])
  {
    ghost var whole := buffer[..];
    after := position;
    var i := 0;
    while i < buffer.Length
      invariant 0 <= i <= NulAt(whole) && after == position + i <= MAX_TEMPLATE_SIZE
      invariant newBuf[..after] == old(newBuf[..position]) + whole[..i]
      invariant forall k :: after <= k < MAX_TEMPLATE_SIZE ==> newBuf[k] == old(newBuf[k])
    {
      if buffer[i] == 0 {
        break;
      }
      if after >= newBuf.Length {
        return after, true;
      }
      ghost var before := newBuf[..after];
      newBuf[after] := buffer[i];
      assert newBuf[..after] == before;
      assert newBuf[..after + 1] == newBuf[..after] + [whole[i]];
      after := after + 1;
      i := i + 1;
    }
    assert i == NulAt(whole);
    panic := false;
  }

  /** What is written: nothing is put around an empty text. */
  function Wrapped(text: Text, prefix: Text, suffix: Text): Text {
    if Cut(text) == [] then text else prefix + Cut(text) + suffix
  }

  method ConstConcatWithPrefix(strs: seq<Text>, prefix: Text, suffix: Text) returns (buffer: array<Byte>, panic: bool)
    ensures buffer.Length == MAX_TEMPLATE_SIZE
    ensures panic <==> |Flatten(strs)| > MAX_TEMPLATE_SIZE || |Wrapped(Flatten(strs), prefix, suffix)| > MAX_TEMPLATE_SIZE
    ensures !panic ==> Holds(buffer[..], Wrapped(Flatten(strs), prefix, suffix))
  {
    hide Flatten, NulAt;
    buffer, panic := ConstConcat(strs);
    if panic {
      return;
    }
    ghost var text := Flatten(strs);
    CutBuffer(buffer[..], text);
    assert buffer[0] == buffer[..][0];
    if buffer[0] == 0 {
      return;
    }
    var newBuf := new Byte[MAX_TEMPLATE_SIZE](_ => 0);
    var position;
    position, panic := Write(newBuf, 0, prefix);
    if panic {
      return;
    }
    position, panic := WriteUntilNul(newBuf, position, buffer);
    if panic {
      return;
    }
    position, panic := Write(newBuf, position, suffix);
    if panic {
      return;
    }
    assert newBuf[..][..position] == newBuf[..position];
    buffer := newBuf;
  }

  /** The text before the first zero; it panics if there is none. */
  method StrFromBuffer(buf: array<Byte>) returns (s: Option<Text>)
    ensures s == if 0 in buf[..] then Some(Cut(buf[..])) else None
  {
    var bytes := buf[..];
    var i := NulAt(bytes);
    if i == |bytes| {
      return None;
    }
    assert bytes[i] in bytes;
    return Some(bytes[..i]);
  }

  // ---- The templates

  lemma HasZero(buffer: Text, s: Text)
    requires Holds(buffer, s)
    ensures 0 in buffer <==> 0 in s || |s| < MAX_TEMPLATE_SIZE
  {
    assert forall k :: 0 <= k < |s| ==> buffer[k] == buffer[..|s|][k] == s[k];
    if |s| < MAX_TEMPLATE_SIZE {
      assert buffer[|s|] in buffer;
    } else {
      assert buffer == s;
    }
  }

  /** The text that the buffer gives is the concatenation exactly if that is short enough and has no zero. */
  method Template(strs: seq<Text>) returns (s: Option<Text>)
    ensures s == Some(Flatten(strs)) <==> |Flatten(strs)| <= 4095 && 0 !in Flatten(strs)
    ensures s.None? <==> |Flatten(strs)| > 4096 || (|Flatten(strs)| == 4096 && 0 !in Flatten(strs))
  {
    hide Flatten;
    var buffer, panic := ConstConcat(strs);
    if panic {
      return None;
    }
    ghost var text := Flatten(strs);
    CutBuffer(buffer[..], text);
    CutPlain(text);
    HasZero(buffer[..], text);
    s := StrFromBuffer(buffer);
  }

  /** With a prefix and a suffix around it, and nothing if it is empty. */
  method TemplateWithPrefix(strs: seq<Text>, prefix: Text, suffix: Text) returns (s: Option<Text>)
    ensures 0 !in Flatten(strs) && 0 !in prefix && 0 !in suffix ==>
      var text := Flatten(strs);
      var whole := if text == [] then [] else prefix + text + suffix;
      s == if |whole| <= 4095 then Some(whole) else None
  {
    hide Flatten;
    var buffer, panic := ConstConcatWithPrefix(strs, prefix, suffix);
    ghost var text := Flatten(strs);
    CutPlain(text);
    if panic {
      return None;
    }
    ghost var whole := Wrapped(text, prefix, suffix);
    CutBuffer(buffer[..], whole);
    HasZero(buffer[..], whole);
    CutPlain(whole);
    s := StrFromBuffer(buffer);
  }
}
