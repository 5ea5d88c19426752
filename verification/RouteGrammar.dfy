/**
The paths that are accepted, as a grammar: which text is unescaped to what, which marks spell which
tokens, and that the reader accepts exactly the paths of the grammar, and reads them as it says.
*/
module RouteGrammar {
  import opened Basics
  import opened RouteText
  import opened RoutePath
  import opened AxumPath

  // ---- The syntax of axum 0.7

  /** The byte at `i` starts a piece with a colon or a star; `start`: the text is at the start of a piece. */
  predicate OldSyntax(s: Text, i: nat, start: bool) {
    i < |s| && (if i == 0 then start else s[i - 1] == SLASH) && (s[i] == COLON || s[i] == STAR)
  }

  lemma {:induction false} CleanExactly(s: Text, start: bool)
    ensures Clean(s, start) <==> forall i: nat :: !OldSyntax(s, i, start)
  {
    if s != [] {
      var tail, after := s[1..], s[0] == SLASH;
      CleanExactly(tail, after);
      forall i: nat ensures OldSyntax(tail, i, after) <==> OldSyntax(s, i + 1, start) {
      }
      if i: nat :| OldSyntax(s, i, start) {
        assert i > 0 ==> OldSyntax(tail, i - 1, after);
      }
      if i: nat :| OldSyntax(tail, i, after) {
        assert OldSyntax(s, i + 1, start);
      }
      assert OldSyntax(s, 0, start) <==> start && (s[0] == COLON || s[0] == STAR);
    }
  }

  function OldSyntaxError(b: Byte): PathError {
    if b == COLON then ColonSegment else StarSegment
  }

  lemma {:induction false} FirstPieceDecides(s: Text, i: nat, start: bool)
    requires OldSyntax(s, i, start) && forall j: nat :: j < i ==> !OldSyntax(s, j, start)
    ensures CheckPieces(if start then Split(s) else Split(s)[1..]) == Some(OldSyntaxError(s[i]))
    decreases |s|
  {
    var rest, first := Split(s[1..]), s[0];
    if i == 0 {
      assert start && first != SLASH;
      assert Split(s) == [[first] + rest[0]] + rest[1..];
    } else {
      var after := first == SLASH;
      forall j: nat | j < i - 1 ensures !OldSyntax(s[1..], j, after) {
        assert !OldSyntax(s, j + 1, start);
      }
      assert OldSyntax(s[1..], i - 1, after);
      FirstPieceDecides(s[1..], i - 1, after);
      assert !OldSyntax(s, 0, start);
      if after {
        assert Split(s) == [[]] + rest && ([[]] + rest)[1..] == rest;
      } else {
        var piece := [first] + rest[0];
        assert Split(s) == [piece] + rest[1..] && ([piece] + rest[1..])[1..] == rest[1..];
      }
    }
  }

  /** A path with the old syntax is refused, with the error of the first byte that shows it. */
  lemma OldSyntaxRefused(path: Text, i: nat)
    requires path != [] && path[0] == SLASH
    requires OldSyntax(path, i, true) && forall j: nat :: j < i ==> !OldSyntax(path, j, true)
    ensures Parse(path) == Err(if path[i] == COLON then ColonSegment else StarSegment)
  {
    FirstPieceDecides(path, i, true);
  }

  // ---- Unescaping

  /** The text that marks are read from: a doubled brace for an escaped one. */
  function Render(marks: seq<Mark>): Text {
    if marks == [] then []
    else (if marks[0].escaped then [marks[0].byte, marks[0].byte] else [marks[0].byte]) + Render(marks[1..])
  }

  /** Only braces are escaped, and none stands by itself before another. */
  predicate Greedy(marks: seq<Mark>) {
    forall i :: 0 <= i < |marks| ==>
      && (marks[i].escaped ==> IsBrace(marks[i].byte))
      && (IsBrace(marks[i].byte) && !marks[i].escaped && i + 1 < |marks| ==> marks[i + 1].byte != marks[i].byte)
  }

  lemma {:induction false} UnescapeRenders(path: Text)
    ensures Render(Unescape(path)) == path && Greedy(Unescape(path))
    ensures path == [] <==> Unescape(path) == []
    ensures path != [] ==> Unescape(path)[0].byte == path[0]
    decreases |path|
  {
    if path != [] {
      var doubled := IsBrace(path[0]) && |path| > 1 && path[1] == path[0];
      var rest := path[if doubled then 2 else 1..];
      UnescapeRenders(rest);
      var tail, first := Unescape(rest), Mark(path[0], doubled);
      assert Unescape(path) == [first] + tail;
      assert ([first] + tail)[1..] == tail;
      assert path == (if doubled then [path[0], path[0]] else [path[0]]) + rest;
      GreedyCons(first, tail);
    }
  }

  lemma GreedyCons(first: Mark, tail: seq<Mark>)
    requires Greedy(tail) && (first.escaped ==> IsBrace(first.byte))
    requires IsBrace(first.byte) && !first.escaped && tail != [] ==> tail[0].byte != first.byte
    ensures Greedy([first] + tail)
  {
    var marks := [first] + tail;
    forall i | 0 <= i < |marks|
      ensures marks[i].escaped ==> IsBrace(marks[i].byte)
      ensures IsBrace(marks[i].byte) && !marks[i].escaped && i + 1 < |marks| ==> marks[i + 1].byte != marks[i].byte
    {
      if i > 0 {
        assert marks[i] == tail[i - 1];
      }
    }
  }

  lemma {:induction false} RenderUnescapes(marks: seq<Mark>)
    requires Greedy(marks)
    ensures Unescape(Render(marks)) == marks
    ensures marks != [] ==> Render(marks) != [] && Render(marks)[0] == marks[0].byte
  {
    if marks != [] {
      var first, tail := marks[0], marks[1..];
      assert forall i :: 0 <= i < |tail| ==> tail[i] == marks[i + 1];
      RenderUnescapes(tail);
      var text, rest := Render(marks), Render(tail);
      if first.escaped {
        assert text[2..] == rest;
      } else {
        assert text[1..] == rest;
        assert rest != [] ==> tail != [] && rest[0] == tail[0].byte;
        assert tail != [] ==> marks[1] == tail[0];
      }
      assert marks == [first] + tail;
    }
  }

  /** Unescaping gives exactly the greedy marks that are written as the path. */
  lemma UnescapeExactly(path: Text, marks: seq<Mark>)
    ensures Unescape(path) == marks <==> Render(marks) == path && Greedy(marks)
  {
    UnescapeRenders(path);
    if Render(marks) == path && Greedy(marks) {
      RenderUnescapes(marks);
    }
  }

  // ---- Tokens

  /** A wildcard at the start of the marks, closed at `k`: a name of at least one byte, up to the end of its segment. */
  predicate WildAt(marks: seq<Mark>, k: nat) {
    && 2 <= k < |marks| && marks[0] == Mark(OPEN, false) && marks[k] == Mark(CLOSE, false)
    && marks[1].byte != CLOSE && marks[k - 1].byte != STAR
    && (forall i :: 2 <= i < k ==> marks[i].byte != STAR && marks[i].byte != SLASH && marks[i] != Mark(CLOSE, false))
    && (k + 1 < |marks| ==> marks[k + 1].byte == SLASH)
  }

  /** The marks spell the tokens. */
  predicate Spells(marks: seq<Mark>, ts: seq<Token>)
    decreases |ts|
  {
    if ts == [] then marks == []
    else
      match ts[0]
      case Literal(b) =>
        marks != [] && marks[0].byte == b && (marks[0].escaped || !IsBrace(b)) && Spells(marks[1..], ts[1..])
      case Param =>
        exists k :: 0 <= k < |marks| && WildAt(marks, k) && marks[1].byte != STAR && Spells(marks[k + 1..], ts[1..])
      case CatchAll(name) =>
        && ts[1..] == []
        && exists k :: 0 <= k < |marks| && WildAt(marks, k) && marks[1].byte == STAR && BytesOf(marks[2..k]) == name && k + 1 == |marks|
  }

  function ParamsIn(ts: seq<Token>): nat {
    if ts == [] then 0 else (if ts[0].Param? then 1 else 0) + ParamsIn(ts[1..])
  }

  lemma {:induction false} CloseAtFound(marks: seq<Mark>, i: nat, c: nat)
    requires i <= c < |marks| && marks[c] == Mark(CLOSE, false)
    requires forall j :: i <= j < c ==> marks[j].byte != STAR && marks[j].byte != SLASH && marks[j] != Mark(CLOSE, false)
    ensures CloseAt(marks, i) == Ok(c)
    decreases c - i
  {
    if i < c {
      CloseAtFound(marks, i + 1, c);
    }
  }

  lemma {:induction false} CloseAtOnly(marks: seq<Mark>, i: nat)
    requires CloseAt(marks, i).Ok?
    ensures forall j :: i <= j < CloseAt(marks, i).value ==>
      marks[j].byte != STAR && marks[j].byte != SLASH && marks[j] != Mark(CLOSE, false)
    decreases |marks| - i
  {
    if !(marks[i].byte == CLOSE && !marks[i].escaped) {
      CloseAtOnly(marks, i + 1);
    }
  }

  /** A wildcard is read exactly where there is one, and as what it says. */
  lemma WildcardExactly(marks: seq<Mark>, k: nat)
    requires marks != [] && marks[0] == Mark(OPEN, false)
    ensures WildAt(marks, k) ==>
      ReadWildcard(marks[1..]) == Ok(Wild(if marks[1].byte == STAR then CatchAll(BytesOf(marks[2..k])) else Param, marks[k + 1..]))
  {
    if WildAt(marks, k) {
      var after := marks[1..];
      CloseAtFound(after, 1, k - 1);
      assert after[..k - 1] == marks[1..k] && marks[1..k][1..] == marks[2..k];
      assert after[k..] == marks[k + 1..];
    }
  }

  lemma WildcardFound(marks: seq<Mark>) returns (k: nat)
    requires marks != [] && marks[0] == Mark(OPEN, false) && ReadWildcard(marks[1..]).Ok?
    ensures WildAt(marks, k)
  {
    var after := marks[1..];
    CloseAtOnly(after, 1);
    var c := CloseAt(after, 1).value;
    k := c + 1;
    assert forall i :: 2 <= i < k ==> marks[i] == after[i - 1];
    assert after[..c][c - 1] == marks[k - 1];
    assert k + 1 < |marks| ==> after[c + 1..][0] == marks[k + 1];
  }

  lemma {:induction false} TokensSpelled(marks: seq<Mark>, params: nat)
    requires Tokens(marks, params).Ok? && params <= MAX_PARAMS
    ensures Spells(marks, Tokens(marks, params).value) && params + ParamsIn(Tokens(marks, params).value) <= MAX_PARAMS
    decreases |marks|
  {
    if marks != [] {
      var ts := Tokens(marks, params).value;
      if marks[0].escaped || !IsBrace(marks[0].byte) {
        TokensSpelled(marks[1..], params);
        assert ts[1..] == Tokens(marks[1..], params).value;
      } else {
        var k := WildcardFound(marks);
        WildcardExactly(marks, k);
        var after := marks[k + 1..];
        var n := if marks[1].byte == STAR then params else params + 1;
        TokensSpelled(after, n);
        assert ts[1..] == Tokens(after, n).value;
      }
    }
  }

  /** One token after another, once the wildcard is found. */
  lemma WildcardToken(marks: seq<Mark>, k: nat, params: nat)
    requires WildAt(marks, k)
    ensures marks[1].byte != STAR && params < MAX_PARAMS ==>
      Tokens(marks, params) == Prepend(Param, Tokens(marks[k + 1..], params + 1))
    ensures marks[1].byte == STAR && k + 1 == |marks| ==> Tokens(marks, params) == Ok([CatchAll(BytesOf(marks[2..k]))])
  {
    hide ReadWildcard, BytesOf;
    WildcardExactly(marks, k);
    if k + 1 == |marks| {
      assert marks[k + 1..] == [] && Tokens([], params) == Ok([]);
      assert [CatchAll(BytesOf(marks[2..k]))] + [] == [CatchAll(BytesOf(marks[2..k]))];
    }
  }

  lemma LiteralToken(marks: seq<Mark>, params: nat)
    requires marks != [] && (marks[0].escaped || !IsBrace(marks[0].byte))
    ensures Tokens(marks, params) == Prepend(Literal(marks[0].byte), Tokens(marks[1..], params))
  {
  }

  lemma NoToken(params: nat)
    ensures Tokens([], params) == Ok([])
  {
  }

  lemma {:induction false} SpelledTokens(marks: seq<Mark>, ts: seq<Token>, params: nat)
    requires Spells(marks, ts) && params + ParamsIn(ts) <= MAX_PARAMS
    ensures Tokens(marks, params) == Ok(ts)
    decreases |ts|
  {
    hide Tokens, BytesOf;
    if ts == [] {
      NoToken(params);
    } else {
      assert ts == [ts[0]] + ts[1..];
      match ts[0]
      case Literal(b) =>
        LiteralToken(marks, params);
        SpelledTokens(marks[1..], ts[1..], params);
      case Param =>
        var k :| 0 <= k < |marks| && WildAt(marks, k) && marks[1].byte != STAR && Spells(marks[k + 1..], ts[1..]);
        WildcardToken(marks, k, params);
        SpelledTokens(marks[k + 1..], ts[1..], params + 1);
      case CatchAll(name) =>
        var k :| 0 <= k < |marks| && WildAt(marks, k) && marks[1].byte == STAR && BytesOf(marks[2..k]) == name && k + 1 == |marks|;
        WildcardToken(marks, k, params);
        assert ts == [CatchAll(name)];
    }
  }

  // ---- Errors

  /** A wildcard of a good shape is closed at `k`, whatever comes after it. */
  predicate ClosedAt(marks: seq<Mark>, k: nat) {
    && 2 <= k < |marks| && marks[0] == Mark(OPEN, false) && marks[k] == Mark(CLOSE, false)
    && marks[1].byte != CLOSE && marks[k - 1].byte != STAR
    && (forall i :: 2 <= i < k ==> marks[i].byte != STAR && marks[i].byte != SLASH && marks[i] != Mark(CLOSE, false))
  }

  /** What is wrong at the start of the marks: a brace that opens or closes nothing, or a wildcard out of place. */
  ghost predicate WrongHere(marks: seq<Mark>, params: nat, e: PathError) {
    marks != [] && IsBrace(marks[0].byte) && !marks[0].escaped &&
    match e
    case InvalidParam => forall k: nat :: !ClosedAt(marks, k)
    case InvalidParamSegment => exists k :: 0 <= k < |marks| - 1 && ClosedAt(marks, k) && marks[k + 1].byte != SLASH
    case CatchAllNotLast => exists k :: 0 <= k < |marks| - 1 && WildAt(marks, k) && marks[1].byte == STAR
    case TooManyParams => params >= MAX_PARAMS && exists k :: 0 <= k < |marks| && WildAt(marks, k) && marks[1].byte != STAR
    case _ => false
  }

  /** After some tokens, the marks go wrong. */
  ghost predicate GoesWrong(marks: seq<Mark>, params: nat, e: PathError)
    decreases |marks|
  {
    || WrongHere(marks, params, e)
    || (marks != [] && (marks[0].escaped || !IsBrace(marks[0].byte)) && GoesWrong(marks[1..], params, e))
    || (exists k :: 0 <= k < |marks| && WildAt(marks, k) && marks[1].byte != STAR && params < MAX_PARAMS && GoesWrong(marks[k + 1..], params + 1, e))
  }

  lemma ClosedFound(marks: seq<Mark>, k: nat)
    requires ClosedAt(marks, k)
    ensures CloseAt(marks[1..], 1) == Ok(k - 1)
    ensures forall j: nat :: ClosedAt(marks, j) ==> j == k
  {
    CloseAtFound(marks[1..], 1, k - 1);
    forall j: nat | ClosedAt(marks, j) ensures j == k {
      CloseAtFound(marks[1..], 1, j - 1);
    }
  }

  lemma ReadFails(marks: seq<Mark>, params: nat)
    requires marks != [] && marks[0] == Mark(OPEN, false) && ReadWildcard(marks[1..]).Err?
    ensures WrongHere(marks, params, ReadWildcard(marks[1..]).error)
  {
    var after := marks[1..];
    if k: nat :| ClosedAt(marks, k) {
      ClosedFound(marks, k);
      assert after[..k - 1][k - 2] == marks[k - 1];
      assert after[k..] == marks[k + 1..];
    } else {
      NeverClosed(marks);
    }
  }

  lemma {:induction false} TokensGoWrong(marks: seq<Mark>, params: nat)
    requires Tokens(marks, params).Err? && params <= MAX_PARAMS
    ensures GoesWrong(marks, params, Tokens(marks, params).error)
    decreases |marks|
  {
    hide ReadWildcard, BytesOf, WrongHere;
    var e := Tokens(marks, params).error;
    if marks[0].escaped || !IsBrace(marks[0].byte) {
      TokensGoWrong(marks[1..], params);
    } else if marks[0].byte == CLOSE {
      LoneClose(marks, params);
    } else if ReadWildcard(marks[1..]).Err? {
      ReadFails(marks, params);
    } else {
      var k := WildcardFound(marks);
      WildcardExactly(marks, k);
      assert k + 1 == |marks| ==> marks[k + 1..] == [];
      if marks[1].byte != STAR && params < MAX_PARAMS {
        TokensGoWrong(marks[k + 1..], params + 1);
      } else {
        WildcardMisplaced(marks, k, params);
      }
    }
  }

  lemma LoneClose(marks: seq<Mark>, params: nat)
    requires marks != [] && marks[0] == Mark(CLOSE, false)
    ensures WrongHere(marks, params, InvalidParam)
  {
  }

  lemma WildcardMisplaced(marks: seq<Mark>, k: nat, params: nat)
    requires WildAt(marks, k)
    ensures marks[1].byte == STAR && k + 1 < |marks| ==> WrongHere(marks, params, CatchAllNotLast)
    ensures marks[1].byte != STAR && params >= MAX_PARAMS ==> WrongHere(marks, params, TooManyParams)
  {
  }

  lemma {:induction false} WrongIsRefused(marks: seq<Mark>, params: nat, e: PathError)
    requires WrongHere(marks, params, e)
    ensures Tokens(marks, params) == Err(e)
  {
    if marks[0].byte == OPEN && exists k: nat :: ClosedAt(marks, k) {
      var k: nat :| ClosedAt(marks, k);
      ClosedFound(marks, k);
      var after := marks[1..];
      assert after[..k - 1][k - 2] == marks[k - 1] && after[..k - 1][0] == marks[1];
      assert after[k..] == marks[k + 1..];
      assert forall j: nat :: WildAt(marks, j) ==> ClosedAt(marks, j);
      assert k + 1 < |marks| ==> after[k..][0] == marks[k + 1];
    } else if marks[0].byte == OPEN {
      assert forall j: nat :: WildAt(marks, j) ==> ClosedAt(marks, j);
      NeverClosed(marks);
    }
  }

  lemma NeverClosed(marks: seq<Mark>)
    requires marks != [] && marks[0] == Mark(OPEN, false) && forall k: nat :: !ClosedAt(marks, k)
    ensures ReadWildcard(marks[1..]) == Err(InvalidParam)
  {
    var after := marks[1..];
    if after != [] && after[0].byte != CLOSE && CloseAt(after, 1).Ok? {
      CloseAtOnly(after, 1);
      var c := CloseAt(after, 1).value;
      assert forall i :: 2 <= i < c + 1 ==> marks[i] == after[i - 1];
      assert !ClosedAt(marks, c + 1);
      assert after[..c][c - 1] == marks[c];
    }
  }

  lemma {:induction false} GoneWrongIsRefused(marks: seq<Mark>, params: nat, e: PathError)
    requires GoesWrong(marks, params, e)
    ensures Tokens(marks, params) == Err(e)
    decreases |marks|
  {
    hide ReadWildcard, BytesOf, WrongHere;
    if WrongHere(marks, params, e) {
      WrongIsRefused(marks, params, e);
    } else if marks[0].escaped || !IsBrace(marks[0].byte) {
      GoneWrongIsRefused(marks[1..], params, e);
    } else {
      var k :| 0 <= k < |marks| && WildAt(marks, k) && marks[1].byte != STAR && params < MAX_PARAMS && GoesWrong(marks[k + 1..], params + 1, e);
      WildcardExactly(marks, k);
      GoneWrongIsRefused(marks[k + 1..], params + 1, e);
    }
  }

  /** A path without the old syntax is refused exactly where it goes wrong, with the error of that place. */
  lemma RefusedExactly(path: Text, e: PathError)
    requires path != [] && path[0] == SLASH && forall i: nat :: !OldSyntax(path, i, true)
    ensures Parse(path) == Err(e) <==> GoesWrong(Unescape(path), 0, e)
  {
    CleanExactly(path, true);
    PiecesClean(path);
    hide Clean, OldSyntax, Split, CheckPieces, GoesWrong;
    if Tokens(Unescape(path), 0).Err? {
      TokensGoWrong(Unescape(path), 0);
    }
    if GoesWrong(Unescape(path), 0, e) {
      GoneWrongIsRefused(Unescape(path), 0, e);
    }
  }

  /**
  A path is accepted, and read as `ts`, exactly if it starts with a slash, has none of the old syntax,
  spells `ts` once it is unescaped, and has no more than 25 parameters.
  */
  lemma ParseExactly(path: Text, ts: seq<Token>)
    ensures Parse(path) == Ok(ts) <==>
      && path != [] && path[0] == SLASH
      && (forall i: nat :: !OldSyntax(path, i, true))
      && Spells(Unescape(path), ts) && ParamsIn(ts) <= 25
    ensures Parse(path) == Err(NoLeadingSlash) <== path == [] || path[0] != SLASH
  {
    CleanExactly(path, true);
    PiecesClean(path);
    hide Clean, OldSyntax, Split, CheckPieces;
    if Tokens(Unescape(path), 0).Ok? {
      TokensSpelled(Unescape(path), 0);
    }
    if Spells(Unescape(path), ts) && ParamsIn(ts) <= MAX_PARAMS {
      SpelledTokens(Unescape(path), ts, 0);
    }
  }
}
