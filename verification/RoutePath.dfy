/**
Which paths axum routes, and which pairs of paths it cannot hold together (route_path.rs).

The reader of a path is modelled twice: as functions, which the properties are about, and as the
methods with the source's loops, each proved to compute its function.
*/
module RoutePath {
  import opened Basics
  import opened RouteText

  datatype PathError =
    | NoLeadingSlash
    | ColonSegment
    | StarSegment
    | InvalidParam
    | InvalidParamSegment
    | CatchAllNotLast
    | TooManyParams

  const MAX_PARAMS: nat := 25

  /** One element of a route path. Parameters are the same whatever their names; catch-alls are not. */
  datatype Token = Literal(byte: Byte) | Param | CatchAll(name: Text) {
    predicate IsWildcard() { !Literal? }
  }

  // ---- axum's checks

  /** The checks for the 0.7 syntax, on the pieces between slashes. */
  function CheckPieces(pieces: seq<Text>): Option<PathError> {
    if pieces == [] then None
    else if pieces[0] != [] && pieces[0][0] == COLON then Some(ColonSegment)
    else if pieces[0] != [] && pieces[0][0] == STAR then Some(StarSegment)
    else CheckPieces(pieces[1..])
  }

  method CheckSegments(path: Text) returns (error: Option<PathError>)
    ensures error == CheckPieces(Split(path))
  {
    var pieces := Split(path);
    var i := 0;
    while i < |pieces|
      invariant 0 <= i <= |pieces|
      invariant CheckPieces(Split(path)) == CheckPieces(pieces[i..])
    {
      if pieces[i] != [] && pieces[i][0] == COLON {
        return Some(ColonSegment);
      }
      if pieces[i] != [] && pieces[i][0] == STAR {
        return Some(StarSegment);
      }
      assert pieces[i..][1..] == pieces[i + 1..];
      i := i + 1;
    }
    return None;
  }

  // ---- Unescaping

  /** A byte of a path, and whether it was a doubled brace. */
  datatype Mark = Mark(byte: Byte, escaped: bool)

  function Unescape(path: Text): seq<Mark> {
    if path == [] then []
    else if IsBrace(path[0]) && |path| > 1 && path[1] == path[0] then [Mark(path[0], true)] + Unescape(path[2..])
    else [Mark(path[0], false)] + Unescape(path[1..])
  }

  method UnescapePath(path: Text) returns (out: seq<Mark>)
    ensures out == Unescape(path)
  {
    out := [];
    var i := 0;
    while i < |path|
      invariant 0 <= i <= |path|
      invariant Unescape(path) == out + Unescape(path[i..])
    {
      var byte := path[i];
      var doubled := IsBrace(byte) && i + 1 < |path| && path[i + 1] == byte;
      assert path[i..][1..] == path[i + 1..];
      assert doubled ==> path[i..][2..] == path[i + 2..];
      i := if doubled then i + 2 else i + 1;
      out := out + [Mark(byte, doubled)];
    }
  }

  // ---- Wildcards

  /** The index of the brace that closes a wildcard, looked for from `i` on. */
  function CloseAt(marks: seq<Mark>, i: nat): (r: Result<nat, PathError>)
    ensures r.Ok? ==> i <= r.value < |marks| && marks[r.value] == Mark(CLOSE, false)
    ensures r.Err? ==> r.error == InvalidParam
    decreases |marks| - i
  {
    if i >= |marks| then Err(InvalidParam)
    else if marks[i].byte == CLOSE && !marks[i].escaped then Ok(i)
    else if marks[i].byte == STAR || marks[i].byte == SLASH then Err(InvalidParam)
    else CloseAt(marks, i + 1)
  }

  function BytesOf(marks: seq<Mark>): Text {
    seq(|marks|, i requires 0 <= i < |marks| => marks[i].byte)
  }

  datatype Wild = Wild(token: Token, rest: seq<Mark>)

  /** Reads the wildcard after an opening brace. */
  function ReadWildcard(after: seq<Mark>): (r: Result<Wild, PathError>)
    ensures r.Ok? ==> |r.value.rest| < |after| && r.value.token.IsWildcard()
    ensures r.Ok? ==> r.value.rest == [] || r.value.rest[0].byte == SLASH
  {
    if after == [] || after[0].byte == CLOSE then Err(InvalidParam)
    else
      match CloseAt(after, 1)
      case Err(e) => Err(e)
      case Ok(close) =>
        var name, rest := after[..close], after[close + 1..];
        if name[close - 1].byte == STAR then Err(InvalidParam)
        else if rest != [] && rest[0].byte != SLASH then Err(InvalidParamSegment)
        else Ok(Wild(if name[0].byte == STAR then CatchAll(BytesOf(name[1..])) else Param, rest))
  }

  // ---- Parsing

  function Prepend(token: Token, r: Result<seq<Token>, PathError>): Result<seq<Token>, PathError> {
    match r
    case Ok(ts) => Ok([token] + ts)
    case Err(e) => Err(e)
  }

  /** The tokens of what is left of a path, after `params` parameters. */
  function Tokens(rest: seq<Mark>, params: nat): Result<seq<Token>, PathError>
    decreases |rest|
  {
    if rest == [] then Ok([])
    else if rest[0].escaped || !IsBrace(rest[0].byte) then Prepend(Literal(rest[0].byte), Tokens(rest[1..], params))
    else if rest[0].byte == CLOSE then Err(InvalidParam)
    else
      match ReadWildcard(rest[1..])
      case Err(e) => Err(e)
      case Ok(Wild(token, after)) =>
        if token.CatchAll? && after != [] then Err(CatchAllNotLast)
        else if token.Param? && params + 1 > MAX_PARAMS then Err(TooManyParams)
        else Prepend(token, Tokens(after, if token.Param? then params + 1 else params))
  }

  /** `RoutePath::parse`. */
  function Parse(path: Text): Result<seq<Token>, PathError> {
    if path == [] || path[0] != SLASH then Err(NoLeadingSlash)
    else
      var error := CheckPieces(Split(path));
      if error.Some? then Err(error.value) else Tokens(Unescape(path), 0)
  }

  function After(tokens: seq<Token>, r: Result<seq<Token>, PathError>): Result<seq<Token>, PathError> {
    match r
    case Ok(ts) => Ok(tokens + ts)
    case Err(e) => Err(e)
  }

  lemma AfterPrepend(tokens: seq<Token>, token: Token, r: Result<seq<Token>, PathError>)
    ensures After(tokens, Prepend(token, r)) == After(tokens + [token], r)
    ensures After([], r) == r
  {
    if r.Ok? {
      assert tokens + ([token] + r.value) == tokens + [token] + r.value;
      assert [] + r.value == r.value;
    }
  }

  method ParsePath(path: Text) returns (r: Result<seq<Token>, PathError>)
    ensures r == Parse(path)
  {
    if path == [] || path[0] != SLASH {
      return Err(NoLeadingSlash);
    }
    var error := CheckSegments(path);
    if error.Some? {
      return Err(error.value);
    }
    var bytes := UnescapePath(path);
    var tokens: seq<Token> := [];
    var params: nat := 0;
    var rest := bytes;
    AfterPrepend([], Param, Tokens(bytes, 0));
    while rest != []
      invariant Tokens(bytes, 0) == After(tokens, Tokens(rest, params))
      decreases |rest|
    {
      var Mark(byte, escaped) := rest[0];
      if escaped || !IsBrace(byte) {
        AfterPrepend(tokens, Literal(byte), Tokens(rest[1..], params));
        tokens, rest := tokens + [Literal(byte)], rest[1..];
        continue;
      }
      if byte == CLOSE {
        return Err(InvalidParam);
      }
      match ReadWildcard(rest[1..])
      case Err(e) => return Err(e);
      case Ok(Wild(token, after)) =>
        if token.CatchAll? && after != [] {
          return Err(CatchAllNotLast);
        }
        if token.Param? {
          params := params + 1;
          if params > MAX_PARAMS {
            return Err(TooManyParams);
          }
        }
        AfterPrepend(tokens, token, Tokens(after, params));
        tokens, rest := tokens + [token], after;
    }
    assert tokens + [] == tokens;
    r := Ok(tokens);
  }

  // ---- Conflicts

  /** Whether the router refuses to hold both paths. */
  predicate Conflicts(a: seq<Token>, b: seq<Token>) {
    if a == [] || b == [] then a == b
    else if a[0] == b[0] then Conflicts(a[1..], b[1..])
    else a[0].IsWildcard() && b[0].IsWildcard()
  }

  method ConflictsWith(ours: seq<Token>, theirs: seq<Token>) returns (conflict: bool)
    ensures conflict == Conflicts(ours, theirs)
  {
    var i := 0;
    while true
      invariant 0 <= i <= |ours| && i <= |theirs|
      invariant Conflicts(ours, theirs) == Conflicts(ours[i..], theirs[i..])
      decreases |ours| - i
    {
      if i == |ours| && i == |theirs| {
        return true;
      }
      if i == |ours| || i == |theirs| {
        return false;
      }
      if ours[i] != theirs[i] {
        return ours[i].IsWildcard() && theirs[i].IsWildcard();
      }
      assert ours[i..][1..] == ours[i + 1..] && theirs[i..][1..] == theirs[i + 1..];
      i := i + 1;
    }
  }

  lemma ConflictsSymmetric(a: seq<Token>, b: seq<Token>)
    ensures Conflicts(a, b) == Conflicts(b, a)
  {
  }
}
