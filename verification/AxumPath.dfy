/**
How the segments of a route become an axum path (`to_axum_path` and `into_route_listing` in
axum/mod.rs, `expand_optionals` in path_segment.rs), and that the path is read back as the same
segments.
*/
module AxumPath {
  import opened Basics
  import opened RouteText
  import opened RoutePath

  datatype PathSegment =
    | Unit
    | Static(text: Text)
    | ParamSegment(name: Text)
    | OptionalParam(name: Text)
    | Splat(name: Text)

  function RawText(s: PathSegment): Text {
    match s
    case Unit => []
    case Static(text) => text
    case ParamSegment(name) => name
    case OptionalParam(name) => name
    case Splat(name) => name
  }

  /** `s.replace('{', "{{").replace('}', "}}")`. */
  function Doubled(s: Text): Text {
    if s == [] then [] else (if IsBrace(s[0]) then [s[0], s[0]] else [s[0]]) + Doubled(s[1..])
  }

  /** The slash before a segment, unless it has one of its own. */
  function Slash(raw: Text): Text {
    if raw != [] && raw[0] != SLASH then [SLASH] else []
  }

  function Printed(s: PathSegment): Text {
    Slash(RawText(s)) +
    match s
    case Unit => []
    case Static(text) => Doubled(text)
    case ParamSegment(name) => Braced(name)
    case Splat(name) => Braced([STAR] + name)
    case OptionalParam(_) => []
  }

  function Braced(inner: Text): Text {
    [OPEN] + (inner + [CLOSE])
  }

  function AxumText(segments: seq<PathSegment>): Text {
    if segments == [] then [] else Printed(segments[0]) + AxumText(segments[1..])
  }

  lemma PushBraced(path: Text, name: Text)
    ensures path + [OPEN] + name + [CLOSE] == path + Braced(name)
    ensures path + [OPEN] + [STAR] + name + [CLOSE] == path + Braced([STAR] + name)
  {
    assert path + [OPEN] + [STAR] + name + [CLOSE] == path + [OPEN] + ([STAR] + name) + [CLOSE];
  }

  lemma Onto(path: Text, slash: Text, body: Text)
    ensures path + slash + body == path + (slash + body) && path + [] == path
  {
  }

  /** One round of the loop of `to_axum_path`. */
  method PushSegment(path: Text, s: PathSegment) returns (out: Text)
    ensures out == path + Printed(s)
  {
    hide Braced, Doubled, Slash;
    var raw := RawText(s);
    out := PushSlash(path, raw);
    ghost var slash := Slash(raw);
    match s {
      case Unit =>
        Onto(path, slash, []);
        Onto(out, [], []);
      case Static(text) =>
        Onto(path, slash, Doubled(text));
        out := out + Doubled(text);
      case ParamSegment(name) =>
        PushBraced(out, name);
        Onto(path, slash, Braced(name));
        out := out + [OPEN] + name + [CLOSE];
      case Splat(name) =>
        PushBraced(out, name);
        Onto(path, slash, Braced([STAR] + name));
        out := out + [OPEN] + [STAR] + name + [CLOSE];
      case OptionalParam(_) =>
        Onto(path, slash, []);
        Onto(out, [], []);
    }
  }

  method PushSlash(path: Text, raw: Text) returns (out: Text)
    ensures out == path + Slash(raw)
  {
    out := path;
    if raw != [] && raw[0] != SLASH {
      out := out + [SLASH];
    }
  }

  method ToAxumPath(segments: seq<PathSegment>) returns (path: Text)
    ensures path == AxumText(segments)
  {
    hide Printed;
    path := [];
    for i := 0 to |segments|
      invariant AxumText(segments) == path + AxumText(segments[i..])
    {
      assert segments[i..][1..] == segments[i + 1..];
      path := PushSegment(path, segments[i]);
    }
    assert segments[|segments|..] == [];
  }

  /** Static text is printed with its braces doubled, after a slash unless it is empty or starts with one. */
  lemma StaticPrinted(text: Text)
    ensures text == [] || text[0] == SLASH ==> Printed(Static(text)) == Doubled(text)
    ensures text != [] && text[0] != SLASH ==> Printed(Static(text)) == [SLASH] + Doubled(text)
  {
    hide Doubled;
    assert [] + Doubled(text) == Doubled(text);
  }

  /** A parameter is printed as its name in braces after a slash, and a catch-all with a star before the name. */
  lemma WildcardPrinted(name: Text)
    requires GoodName(name)
    ensures Printed(ParamSegment(name)) == [SLASH, OPEN] + name + [CLOSE]
    ensures Printed(Splat(name)) == [SLASH, OPEN, STAR] + name + [CLOSE]
  {
    assert name[0] in name;
    InBraces([], name);
    InBraces([STAR], name);
    assert [] + name == name && [SLASH, OPEN] + [] == [SLASH, OPEN] && [SLASH, OPEN] + [STAR] == [SLASH, OPEN, STAR];
  }

  lemma InBraces(star: Text, name: Text)
    ensures [SLASH] + Braced(star + name) == [SLASH, OPEN] + star + name + [CLOSE]
  {
  }

  /** The path of one listing: an empty one is the root. */
  function ListingPath(segments: seq<PathSegment>): Text {
    if AxumText(segments) == [] then [SLASH] else AxumText(segments)
  }

  // ---- What is expected to be read back

  function Literals(text: Text): seq<Token> {
    seq(|text|, i requires 0 <= i < |text| => Literal(text[i]))
  }

  function SegmentTokens(s: PathSegment): seq<Token> {
    match s
    case Static(text) => (if text != [] && text[0] != SLASH then [Literal(SLASH)] else []) + Literals(text)
    case ParamSegment(_) => [Literal(SLASH), Param]
    case Splat(name) => [Literal(SLASH), CatchAll(name)]
    case Unit => []
    case OptionalParam(_) => []
  }

  function RouteTokens(segments: seq<PathSegment>): seq<Token> {
    if segments == [] then [] else SegmentTokens(segments[0]) + RouteTokens(segments[1..])
  }

  predicate GoodName(name: Text) {
    name != [] && forall b :: b in name ==> b != OPEN && b != CLOSE && b != STAR && b != SLASH
  }

  /** No piece of the text starts with `:` or `*`; `start`: the text is at the start of a piece. */
  predicate Clean(text: Text, start: bool) {
    text == [] || ((start ==> text[0] != COLON && text[0] != STAR) && Clean(text[1..], text[0] == SLASH))
  }

  predicate GoodSegment(s: PathSegment) {
    match s
    case Unit => true
    case Static(text) => Clean(text, true)
    case ParamSegment(name) => GoodName(name)
    case Splat(name) => GoodName(name)
    case OptionalParam(_) => false
  }

  function ParamCount(segments: seq<PathSegment>): nat {
    if segments == [] then 0 else (if segments[0].ParamSegment? then 1 else 0) + ParamCount(segments[1..])
  }

  /** Names without special characters, static text without 0.7 syntax, and nothing after a catch-all. */
  predicate Printable(segments: seq<PathSegment>) {
    segments == [] ||
    (GoodSegment(segments[0]) && Printable(segments[1..]) && (segments[0].Splat? ==> AxumText(segments[1..]) == []))
  }

  // ---- axum's checks pass

  lemma {:induction false} PiecesClean(s: Text)
    ensures CheckPieces(Split(s)).None? <==> Clean(s, true)
    ensures CheckPieces(Split(s)[1..]).None? <==> Clean(s, false)
  {
    if s == [] {
      assert Split(s)[1..] == [];
    } else {
      PiecesClean(s[1..]);
      var rest := Split(s[1..]);
      if s[0] == SLASH {
        assert Split(s) == [[]] + rest && ([[]] + rest)[1..] == rest;
      } else {
        var first := [s[0]] + rest[0];
        assert Split(s) == [first] + rest[1..] && ([first] + rest[1..])[1..] == rest[1..];
      }
    }
  }

  lemma {:induction false} CleanConcat(a: Text, b: Text, start: bool)
    requires b == [] || b[0] == SLASH
    ensures Clean(a + b, start) <==> Clean(a, start) && Clean(b, false)
  {
    if a == [] {
      assert a + b == b;
    } else {
      assert (a + b)[1..] == a[1..] + b;
      CleanConcat(a[1..], b, a[0] == SLASH);
    }
  }

  lemma {:induction false} CleanDoubled(s: Text, start: bool)
    ensures Clean(Doubled(s), start) <==> Clean(s, start)
  {
    if s != [] {
      CleanDoubled(s[1..], s[0] == SLASH);
      var rest := Doubled(s[1..]);
      if IsBrace(s[0]) {
        assert ([s[0], s[0]] + rest)[1..] == [s[0]] + rest;
      }
      assert ([s[0]] + rest)[1..] == rest;
    }
  }

  /** Text without slashes is clean past its first byte. */
  lemma {:induction false} CleanInside(s: Text)
    requires SLASH !in s
    ensures Clean(s, false)
  {
    if s != [] {
      CleanInside(s[1..]);
    }
  }

  lemma CleanSlash(s: Text, start: bool)
    ensures Clean([SLASH] + s, start) <==> Clean(s, true)
  {
    assert ([SLASH] + s)[1..] == s;
  }

  lemma CleanWildcard(inner: Text)
    requires SLASH !in inner
    ensures Clean([SLASH] + ([OPEN] + inner), true)
  {
    assert ([OPEN] + inner)[1..] == inner;
    CleanInside(inner);
    CleanSlash([OPEN] + inner, true);
  }

  lemma PrintedClean(s: PathSegment)
    requires GoodSegment(s)
    ensures Clean(Printed(s), true)
    ensures Printed(s) == [] || Printed(s)[0] == SLASH
  {
    match s
    case Unit =>
    case Static(text) =>
      CleanDoubled(text, true);
      CleanSlash(Doubled(text), true);
      assert Slash(text) == [] ==> Slash(text) + Doubled(text) == Doubled(text);
    case ParamSegment(name) =>
      CleanWildcard(name + [CLOSE]);
      assert name[0] in name;
    case Splat(name) =>
      CleanWildcard([STAR] + name + [CLOSE]);
      assert name[0] in name;
  }

  lemma {:induction false} AxumTextClean(segments: seq<PathSegment>)
    requires Printable(segments)
    ensures Clean(AxumText(segments), true)
    ensures AxumText(segments) == [] || AxumText(segments)[0] == SLASH
  {
    hide Printed, GoodSegment;
    if segments != [] {
      AxumTextClean(segments[1..]);
      PrintedClean(segments[0]);
      var rest := AxumText(segments[1..]);
      CleanConcat(Printed(segments[0]), rest, true);
      CleanStart(rest);
    }
  }

  lemma CleanStart(s: Text)
    requires s == [] || s[0] == SLASH
    ensures Clean(s, true) == Clean(s, false)
  {
  }

  // ---- Unescaping undoes the doubling

  /** Text is unescaped in two parts, unless they part a doubled brace. */
  lemma {:induction false} UnescapeConcat(a: Text, b: Text)
    requires a == [] || b == [] || !IsBrace(b[0]) || a[|a| - 1] != b[0]
    ensures Unescape(a + b) == Unescape(a) + Unescape(b)
    decreases |a|
  {
    if a == [] {
      assert a + b == b;
    } else {
      assert (a + b)[1..] == a[1..] + b;
      if IsBrace(a[0]) && |a| > 1 && a[1] == a[0] {
        assert (a + b)[2..] == a[2..] + b;
        UnescapeConcat(a[2..], b);
      } else {
        UnescapeConcat(a[1..], b);
      }
    }
  }

  /** The bytes of a text, none of them escaped but the braces if `escaped`. */
  function Marks(text: Text, escaped: bool): seq<Mark> {
    seq(|text|, i requires 0 <= i < |text| => Mark(text[i], escaped && IsBrace(text[i])))
  }

  lemma {:induction false} UnescapeDoubled(s: Text)
    ensures Unescape(Doubled(s)) == Marks(s, true)
  {
    if s != [] {
      UnescapeDoubled(s[1..]);
      var rest := Doubled(s[1..]);
      if IsBrace(s[0]) {
        assert ([s[0], s[0]] + rest)[2..] == rest;
      } else {
        assert ([s[0]] + rest)[1..] == rest;
      }
      assert Marks(s, true) == [Mark(s[0], IsBrace(s[0]))] + Marks(s[1..], true);
    }
  }

  lemma {:induction false} UnescapePlain(s: Text, close: Text)
    requires close == [] || close == [CLOSE]
    requires forall b :: b in s ==> !IsBrace(b)
    ensures Unescape(s + close) == Marks(s + close, false)
  {
    if s == [] {
      assert s + close == close;
      assert close != [] ==> close[1..] == [];
    } else {
      var t := s + close;
      assert t[1..] == s[1..] + close;
      UnescapePlain(s[1..], close);
      assert Marks(t, false) == [Mark(t[0], false)] + Marks(t[1..], false);
    }
  }

  lemma UnescapeCons(b: Byte, s: Text)
    requires !IsBrace(b) || s == [] || s[0] != b
    ensures Unescape([b] + s) == [Mark(b, false)] + Unescape(s)
  {
    assert ([b] + s)[1..] == s;
  }

  /** The marks of a printed wildcard: a slash, an opening brace, what is inside and a closing brace. */
  function WildMarks(inner: Text): seq<Mark> {
    [Mark(SLASH, false), Mark(OPEN, false)] + Marks(inner, false) + [Mark(CLOSE, false)]
  }

  lemma UnescapeWildcard(inner: Text)
    requires inner != [] && forall b :: b in inner ==> !IsBrace(b)
    ensures Unescape([SLASH] + ([OPEN] + (inner + [CLOSE]))) == WildMarks(inner)
  {
    UnescapePlain(inner, [CLOSE]);
    assert Marks(inner + [CLOSE], false) == Marks(inner, false) + [Mark(CLOSE, false)];
    UnescapeCons(OPEN, inner + [CLOSE]);
    UnescapeCons(SLASH, [OPEN] + (inner + [CLOSE]));
  }

  /** What a segment's print unescapes to. */
  function SegmentMarks(s: PathSegment): seq<Mark> {
    match s
    case Static(text) => Marks(Slash(text) + text, true)
    case ParamSegment(name) => WildMarks(name)
    case Splat(name) => WildMarks([STAR] + name)
    case Unit => []
    case OptionalParam(_) => []
  }

  lemma UnescapePrinted(s: PathSegment)
    requires GoodSegment(s)
    ensures Unescape(Printed(s)) == SegmentMarks(s)
  {
    match s
    case Unit =>
    case Static(text) =>
      UnescapeDoubled(Slash(text) + text);
      assert Doubled(Slash(text) + text) == Slash(text) + Doubled(text) by {
        if Slash(text) == [] {
          assert Slash(text) + text == text && Slash(text) + Doubled(text) == Doubled(text);
        } else {
          assert ([SLASH] + text)[1..] == text;
        }
      }
    case ParamSegment(name) =>
      UnescapeWildcard(name);
      assert name[0] in name;
    case Splat(name) =>
      UnescapeWildcard([STAR] + name);
      assert name[0] in name;
  }

  // ---- Reading the tokens

  lemma {:induction false} LiteralTokens(marks: seq<Mark>, rest: seq<Mark>, params: nat)
    requires forall i :: 0 <= i < |marks| ==> marks[i].escaped || !IsBrace(marks[i].byte)
    ensures Tokens(marks + rest, params) == After(Literals(BytesOf(marks)), Tokens(rest, params))
  {
    if marks == [] {
      assert marks + rest == rest;
      assert Literals(BytesOf(marks)) == [];
      AfterPrepend([], Param, Tokens(rest, params));
    } else {
      assert (marks + rest)[1..] == marks[1..] + rest;
      LiteralTokens(marks[1..], rest, params);
      var later := Literals(BytesOf(marks[1..]));
      assert Literals(BytesOf(marks)) == [Literal(marks[0].byte)] + later;
      AfterConcat([Literal(marks[0].byte)], later, Tokens(rest, params));
      assert Prepend(Literal(marks[0].byte), After(later, Tokens(rest, params)))
          == After([Literal(marks[0].byte)], After(later, Tokens(rest, params)));
    }
  }

  lemma AfterConcat(a: seq<Token>, b: seq<Token>, r: Result<seq<Token>, PathError>)
    ensures After(a, After(b, r)) == After(a + b, r)
  {
    if r.Ok? {
      assert a + (b + r.value) == a + b + r.value;
    }
  }

  lemma {:induction false} CloseFound(name: seq<Mark>, rest: seq<Mark>, i: nat)
    requires i <= |name|
    requires forall j :: i <= j < |name| ==> name[j].byte != CLOSE && name[j].byte != STAR && name[j].byte != SLASH
    ensures CloseAt(name + [Mark(CLOSE, false)] + rest, i) == Ok(|name|)
    decreases |name| - i
  {
    if i < |name| {
      CloseFound(name, rest, i + 1);
    }
  }

  lemma WildcardRead(inner: Text, rest: seq<Mark>)
    requires inner != [] && inner[|inner| - 1] != STAR && inner[0] != CLOSE
    requires forall i :: 1 <= i < |inner| ==> inner[i] != CLOSE && inner[i] != STAR && inner[i] != SLASH
    requires rest == [] || rest[0].byte == SLASH
    ensures ReadWildcard(Marks(inner, false) + [Mark(CLOSE, false)] + rest)
         == Ok(Wild(if inner[0] == STAR then CatchAll(inner[1..]) else Param, rest))
  {
    var name := Marks(inner, false);
    var after := name + [Mark(CLOSE, false)] + rest;
    CloseFound(name, rest, 1);
    assert after[..|name|] == name && after[|name| + 1..] == rest;
    assert BytesOf(name[1..]) == inner[1..];
  }

  lemma WildcardTokens(inner: Text, rest: seq<Mark>, params: nat)
    requires inner != [] && inner[|inner| - 1] != STAR && inner[0] != CLOSE
    requires forall i :: 1 <= i < |inner| ==> inner[i] != CLOSE && inner[i] != STAR && inner[i] != SLASH
    requires rest == [] || rest[0].byte == SLASH
    requires inner[0] == STAR ==> rest == []
    requires inner[0] != STAR ==> params < MAX_PARAMS
    ensures Tokens(WildMarks(inner) + rest, params)
         == if inner[0] == STAR then Ok([Literal(SLASH), CatchAll(inner[1..])])
            else After([Literal(SLASH), Param], Tokens(rest, params + 1))
  {
    var after := Marks(inner, false) + [Mark(CLOSE, false)] + rest;
    var whole := WildMarks(inner) + rest;
    assert whole == [Mark(SLASH, false)] + ([Mark(OPEN, false)] + after);
    assert whole[1..] == [Mark(OPEN, false)] + after && whole[1..][1..] == after;
    WildcardRead(inner, rest);
    var token := if inner[0] == STAR then CatchAll(inner[1..]) else Param;
    var later := Tokens(rest, if token.Param? then params + 1 else params);
    assert Tokens(whole[1..], params) == Prepend(token, later);
    assert Tokens(whole, params) == Prepend(Literal(SLASH), Prepend(token, later));
    if later.Ok? {
      assert [Literal(SLASH)] + ([token] + later.value) == [Literal(SLASH), token] + later.value;
    }
    assert inner[0] == STAR ==> later == Ok([]) && [Literal(SLASH), token] + [] == [Literal(SLASH), token];
  }

  lemma SegmentRead(s: PathSegment, rest: seq<Mark>, params: nat)
    requires GoodSegment(s) && (rest == [] || rest[0].byte == SLASH)
    requires s.Splat? ==> rest == []
    requires s.ParamSegment? ==> params < MAX_PARAMS
    ensures Tokens(SegmentMarks(s) + rest, params)
         == After(SegmentTokens(s), Tokens(rest, if s.ParamSegment? then params + 1 else params))
  {
    match s
    case Unit => LiteralTokens([], rest, params);
    case Static(text) =>
      LiteralTokens(SegmentMarks(s), rest, params);
      assert BytesOf(SegmentMarks(s)) == Slash(text) + text;
      assert Literals(Slash(text) + text) == SegmentTokens(s);
    case ParamSegment(name) =>
      assert forall i :: 0 <= i < |name| ==> name[i] in name;
      WildcardTokens(name, rest, params);
    case Splat(name) =>
      var inner := [STAR] + name;
      assert inner[1..] == name && forall i :: 1 <= i < |inner| ==> inner[i] in name;
      WildcardTokens(inner, rest, params);
      assert [Literal(SLASH), CatchAll(name)] + [] == [Literal(SLASH), CatchAll(name)];
  }

  /** Printed segments are read back one after the other. */
  lemma {:induction false} SegmentsRead(segments: seq<PathSegment>, params: nat)
    requires Printable(segments) && params + ParamCount(segments) <= MAX_PARAMS
    ensures Tokens(Unescape(AxumText(segments)), params) == Ok(RouteTokens(segments))
    ensures var marks := Unescape(AxumText(segments)); marks == [] || marks[0].byte == SLASH
  {
    hide GoodSegment, SegmentTokens, Printed;
    if segments != [] {
      var s, rest := segments[0], AxumText(segments[1..]);
      var n := if s.ParamSegment? then params + 1 else params;
      SegmentsRead(segments[1..], n);
      AxumTextClean(segments[1..]);
      AxumTextClean(segments);
      UnescapeConcat(Printed(s), rest);
      UnescapePrinted(s);
      SegmentRead(s, Unescape(rest), params);
    }
  }

  /**
  The printer and the parser agree: the path of well-formed segments is accepted, and read back as
  exactly their literal bytes, parameters and catch-all.
  */
  lemma ListingReadBack(segments: seq<PathSegment>)
    requires Printable(segments) && ParamCount(segments) <= MAX_PARAMS
    ensures Parse(ListingPath(segments)) == Ok(if AxumText(segments) == [] then [Literal(SLASH)] else RouteTokens(segments))
  {
    hide Printable, Tokens, Unescape;
    AxumTextClean(segments);
    SegmentsRead(segments, 0);
    PiecesClean(ListingPath(segments));
    if AxumText(segments) == [] {
      RootReadBack();
    }
  }

  lemma RootReadBack()
    ensures Parse([SLASH]) == Ok([Literal(SLASH)])
  {
    assert [SLASH][1..] == [];
    assert Unescape([SLASH]) == [Mark(SLASH, false)];
    var root := [Mark(SLASH, false)];
    assert root[1..] == [] && [Literal(SLASH)] + [] == [Literal(SLASH)];
    assert Tokens(root, 0) == Ok([Literal(SLASH)]);
    assert Clean([SLASH], true);
    PiecesClean([SLASH]);
  }
}
