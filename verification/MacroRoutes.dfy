/** From `path!` to the router: exactly which routes of the macro are accepted, and as what. */
module MacroRoutes {
  import opened Basics
  import opened RouteText
  import opened RoutePath
  import opened AxumPath
  import opened RouteListing
  import Macro = PathMacro

  // ---- What the macro lets through

  /** The segment that each of the macro's segment types puts in a route. */
  function Built(s: Macro.Segment): PathSegment {
    match s
    case Static(text) => Static(text)
    case Param(name) => ParamSegment(name)
    case OptionalParam(name) => OptionalParam(name)
    case Wildcard(name) => Splat(name)
  }

  function BuiltAll(segments: seq<Macro.Segment>): seq<PathSegment> {
    if segments == [] then [] else [Built(segments[0])] + BuiltAll(segments[1..])
  }

  predicate Plain(text: Text) {
    forall b :: b in text ==> Macro.PathChar(b)
  }

  /** Plain text has none of the characters with a meaning. */
  lemma PlainBytes(text: Text)
    requires Plain(text)
    ensures forall b :: b in text ==> !IsBrace(b) && b != SLASH && b != STAR && b != COLON
  {
  }

  predicate PlainSegment(s: PathSegment) {
    match s
    case Unit => true
    case Static(text) => text == [SLASH] || Plain(text)
    case ParamSegment(name) => Plain(name)
    case OptionalParam(name) => Plain(name)
    case Splat(name) => Plain(name)
  }

  predicate PlainRoute(segments: Segments) {
    segments == [] ||
    (PlainSegment(segments[0]) && PlainRoute(segments[1..]) && (segments[0].Splat? ==> segments[1..] == []))
  }

  /** The macro does not check the names of optional parameters. */
  predicate OptionalsPlain(segments: seq<Macro.Segment>) {
    forall s :: s in segments && s.OptionalParam? ==> Plain(s.name)
  }

  /** Segments come from between slashes, but for the slash at the end of a literal. */
  predicate Apart(s: Macro.Segment) {
    match s
    case Static(text) => text == [SLASH] || SLASH !in text
    case Param(name) => SLASH !in name
    case OptionalParam(name) => SLASH !in name
    case Wildcard(name) => SLASH !in name
  }

  lemma PieceApart(piece: Text)
    requires SLASH !in piece
    ensures Apart(Macro.ReadPiece(piece))
  {
  }

  lemma LiteralApart(lit: Text)
    ensures forall s :: s in Macro.ReadLiteral(lit) ==> Apart(s)
  {
    hide Split, Macro.ReadPiece;
    var pieces := Split(Macro.TrimEnd(Macro.TrimStart(lit)));
    SplitPieces(Macro.TrimEnd(Macro.TrimStart(lit)));
    forall i | 0 <= i < |pieces| ensures Apart(Macro.ReadPiece(pieces[i])) {
      assert pieces[i] in pieces;
      PieceApart(pieces[i]);
    }
  }

  lemma {:induction false} ReadApart(input: seq<Macro.TokenTree>)
    requires Macro.ReadAll(input).Ok?
    ensures forall s :: s in Macro.ReadAll(input).value ==> Apart(s)
  {
    hide Apart, Macro.ReadLiteral, Macro.DoubleSlash;
    if input != [] {
      ReadApart(input[1..]);
      LiteralApart(input[0].text);
    }
  }

  lemma ValidPlainSegment(s: Macro.Segment)
    requires Apart(s) && Macro.SegmentError(s).None?
    requires s.OptionalParam? ==> Plain(s.name)
    ensures PlainSegment(Built(s))
  {
    assert SLASH in [SLASH];
  }

  lemma {:induction false} ValidPlain(segments: seq<Macro.Segment>)
    requires Macro.Valid(segments) && OptionalsPlain(segments) && forall s :: s in segments ==> Apart(s)
    ensures PlainRoute(BuiltAll(segments))
  {
    hide Apart, Macro.SegmentError, PlainSegment, Plain;
    if segments != [] {
      var s, rest := segments[0], segments[1..];
      assert s in segments;
      assert Macro.Valid(rest);
      ValidPlain(rest);
      ValidPlainSegment(s);
      assert BuiltAll(segments)[1..] == BuiltAll(rest);
      assert s.Wildcard? ==> rest == [];
    }
  }

  // ---- Listings without optional parameters

  predicate Settled(segments: Segments) {
    forall s :: s in segments ==> !s.OptionalParam?
  }

  lemma {:induction false} ExpandedPlain(segments: Segments, e: Segments)
    requires PlainRoute(segments) && e in Expanded(segments)
    ensures PlainRoute(e) && Settled(e)
  {
    if segments != [] {
      var rest := Expanded(segments[1..]);
      forall x | x in rest ensures PlainRoute(x) && Settled(x) {
        ExpandedPlain(segments[1..], x);
      }
      if e !in rest || !segments[0].OptionalParam? {
        var s := if segments[0].OptionalParam? then ParamSegment(segments[0].name) else segments[0];
        var i :| 0 <= i < |rest| && e == [s] + rest[i];
        assert e[1..] == rest[i] && rest[i] in rest;
      }
    }
  }

  predicate NamesGiven(segments: Segments) {
    forall s :: s in segments && (s.ParamSegment? || s.Splat?) ==> s.name != []
  }

  lemma PlainClean(text: Text, start: bool)
    requires Plain(text)
    ensures Clean(text, start)
  {
    if text != [] {
      assert text[0] in text;
      PlainClean(text[1..], text[0] == SLASH);
    }
  }

  lemma PlainGood(s: PathSegment)
    requires PlainSegment(s) && !s.OptionalParam? && (s.ParamSegment? || s.Splat? ==> s.name != [])
    ensures GoodSegment(s)
  {
    if s.Static? && s.text != [SLASH] {
      PlainClean(s.text, true);
    }
  }

  lemma {:induction false} PlainPrintable(e: Segments)
    requires PlainRoute(e) && Settled(e) && NamesGiven(e)
    ensures Printable(e)
  {
    hide PlainSegment, GoodSegment, Printed;
    if e != [] {
      assert e[0] in e;
      PlainGood(e[0]);
      PlainPrintable(e[1..]);
    }
  }

  // ---- The others are refused

  predicate NoName(s: PathSegment) {
    (s.ParamSegment? || s.Splat?) && s.name == []
  }

  /** A printed wildcard, with its slash only if it has a name. */
  lemma WildcardPlain(slash: Text, inner: Text)
    requires slash == [] || slash == [SLASH]
    requires forall b :: b in inner ==> !IsBrace(b)
    ensures var text := slash + Braced(inner);
      && Unescape(text) == Marks(text, false)
      && text != [] && text[0] == (if slash == [] then OPEN else SLASH) && text[|text| - 1] == CLOSE
  {
    hide Braced;
    UnescapeBraced(inner);
    BracedEnds(inner);
    if slash == [] {
      assert slash + Braced(inner) == Braced(inner);
    } else {
      UnescapeCons(SLASH, Braced(inner));
      assert Marks([SLASH] + Braced(inner), false) == [Mark(SLASH, false)] + Marks(Braced(inner), false);
    }
  }

  lemma BracedEnds(inner: Text)
    ensures |Braced(inner)| >= 2 && Braced(inner)[0] == OPEN && Braced(inner)[|Braced(inner)| - 1] == CLOSE
  {
  }

  lemma StaticPlain(text: Text)
    requires text == [SLASH] || Plain(text)
    ensures Printed(Static(text)) == Slash(text) + text
    ensures forall b :: b in Slash(text) + text ==> !IsBrace(b)
    ensures Unescape(Printed(Static(text))) == Marks(Printed(Static(text)), false)
    ensures text != [] ==> text[|text| - 1] != OPEN
  {
    if text != [SLASH] {
      PlainBytes(text);
    }
    hide Plain;
    assert text != [] ==> text[|text| - 1] in text;
    NothingDoubled(text);
    UnescapePlain(Slash(text) + text, []);
    assert Slash(text) + text + [] == Slash(text) + text;
  }

  /** What plain segments print unescapes to itself. */
  lemma PrintedPlain(s: PathSegment)
    requires PlainSegment(s) && !s.OptionalParam?
    ensures Unescape(Printed(s)) == Marks(Printed(s), false)
    ensures Printed(s) != [] ==> Printed(s)[0] == if NoName(s) then OPEN else SLASH
    ensures Printed(s) != [] ==> Printed(s)[|Printed(s)| - 1] != OPEN
  {
    NothingRead(0);
    hide Braced, Doubled, Unescape, Plain;
    match s
    case Unit => assert Printed(s) == [];
    case Static(text) =>
      StaticPlain(text);
    case ParamSegment(name) =>
      PlainBytes(name);
      assert name != [] ==> name[0] in name;
      WildcardPlain(Slash(name), name);
    case Splat(name) =>
      PlainBytes(name);
      assert name != [] ==> name[0] in name;
      WildcardPlain(Slash(name), [STAR] + name);
  }

  lemma {:induction false} NothingDoubled(text: Text)
    requires forall b :: b in text ==> !IsBrace(b)
    ensures Doubled(text) == text
  {
    if text != [] {
      NothingDoubled(text[1..]);
      assert text == [text[0]] + text[1..];
    }
  }

  lemma UnescapeBraced(inner: Text)
    requires forall b :: b in inner ==> !IsBrace(b)
    ensures Unescape(Braced(inner)) == Marks(Braced(inner), false)
  {
    UnescapePlain(inner, [CLOSE]);
    UnescapeCons(OPEN, inner + [CLOSE]);
    assert Marks(Braced(inner), false) == [Mark(OPEN, false)] + Marks(inner + [CLOSE], false);
  }

  /** What a route prints after a segment: nothing, a slash, or the brace of a wildcard without a name. */
  predicate Follows(rest: seq<Mark>) {
    rest == [] || rest[0].byte == SLASH || rest[0] == Mark(OPEN, false)
  }

  lemma NoNameRefused(s: PathSegment, rest: seq<Mark>, params: nat)
    requires NoName(s)
    ensures Tokens(Marks(Printed(s), false) + rest, params).Err?
  {
    var marks := Marks(Printed(s), false);
    if s.ParamSegment? {
      assert marks == [Mark(OPEN, false), Mark(CLOSE, false)];
      assert (marks + rest)[1..] == [Mark(CLOSE, false)] + rest;
    } else {
      assert marks == [Mark(OPEN, false), Mark(STAR, false), Mark(CLOSE, false)];
      var after := [Mark(STAR, false), Mark(CLOSE, false)] + rest;
      assert (marks + rest)[1..] == after;
      assert CloseAt(after, 1) == Ok(1);
      assert ReadWildcard(after).Err?;
    }
  }

  /** A parameter right before another wildcard, or one too many. */
  lemma ParamRefused(name: Text, rest: seq<Mark>, params: nat)
    requires GoodName(name) && Follows(rest)
    requires (rest != [] && rest[0].byte == OPEN) || params >= MAX_PARAMS
    ensures Tokens(WildMarks(name) + rest, params).Err?
  {
    var after := Marks(name, false) + [Mark(CLOSE, false)] + rest;
    var whole := WildMarks(name) + rest;
    assert whole[1..] == [Mark(OPEN, false)] + after && whole[1..][1..] == after;
    assert forall i :: 0 <= i < |name| ==> name[i] in name;
    CloseFound(Marks(name, false), rest, 1);
    assert after[..|name|] == Marks(name, false) && after[|name| + 1..] == rest;
    assert Tokens(whole[1..], params).Err?;
  }

  lemma StaticRefused(text: Text, rest: seq<Mark>, params: nat)
    requires (text == [SLASH] || Plain(text)) && Tokens(rest, params).Err?
    ensures Tokens(Marks(Printed(Static(text)), false) + rest, params).Err?
  {
    hide Tokens, Unescape, Printed, Plain;
    StaticPlain(text);
    var marks := Marks(Slash(text) + text, false);
    assert forall m :: m in marks ==> m.byte in Slash(text) + text;
    LiteralTokens(marks, rest, params);
  }

  lemma PrintedParam(name: Text)
    requires GoodName(name)
    ensures Marks(Printed(ParamSegment(name)), false) == WildMarks(name) == SegmentMarks(ParamSegment(name))
  {
    assert name[0] in name;
    assert Printed(ParamSegment(name)) == [SLASH] + ([OPEN] + (name + [CLOSE]));
  }

  lemma StepRefused(s: PathSegment, rest: seq<Mark>, params: nat)
    requires PlainSegment(s) && !s.OptionalParam? && Follows(rest)
    requires s.Splat? ==> rest == []
    requires NoName(s) || (s.ParamSegment? && params >= MAX_PARAMS) ||
             Tokens(rest, if s.ParamSegment? then params + 1 else params).Err?
    ensures Tokens(Marks(Printed(s), false) + rest, params).Err?
  {
    NothingRead(params);
    hide Tokens, Unescape, Plain;
    if NoName(s) {
      NoNameRefused(s, rest, params);
    } else if s.ParamSegment? {
      PlainBytes(s.name);
      PrintedParam(s.name);
      hide Printed;
      if (rest != [] && rest[0].byte == OPEN) || params >= MAX_PARAMS {
        ParamRefused(s.name, rest, params);
      } else {
        SegmentRead(s, rest, params);
      }
    } else if s.Static? {
      StaticRefused(s.text, rest, params);
    } else if s.Unit? {
      assert Marks(Printed(s), false) + rest == rest;
    }
  }

  lemma NothingRead(params: nat)
    ensures Unescape([]) == [] && Tokens([], params) == Ok([])
  {
  }

  lemma {:induction false} RouteRefused(e: Segments, params: nat)
    requires PlainRoute(e) && Settled(e)
    requires params <= MAX_PARAMS
    ensures Follows(Unescape(AxumText(e))) && (AxumText(e) == [] || AxumText(e)[0] == SLASH || AxumText(e)[0] == OPEN)
    ensures !NamesGiven(e) || params + ParamCount(e) > MAX_PARAMS ==> Tokens(Unescape(AxumText(e)), params).Err?
  {
    hide PlainSegment, Printed;
    if e != [] {
      var s, rest := e[0], AxumText(e[1..]);
      assert s in e;
      PrintedPlain(s);
      if s.ParamSegment? && params == MAX_PARAMS {
        RouteRefused(e[1..], params);
      } else {
        RouteRefused(e[1..], if s.ParamSegment? then params + 1 else params);
      }
      UnescapeConcat(Printed(s), rest);
      if !NamesGiven(e) || params + ParamCount(e) > MAX_PARAMS {
        StepRefused(s, Unescape(rest), params);
      }
    }
  }

  /**
  A route that `path!` accepts, with plain names for its optional parameters, is accepted by the
  router, each listing as its own segments, exactly when no name is empty and no more than 25
  parameters are present.
  */
  lemma MacroRouteExactly(input: seq<Macro.TokenTree>, e: Segments)
    requires Macro.ReadAll(input).Ok? && Macro.Valid(Macro.ReadAll(input).value)
    requires OptionalsPlain(Macro.ReadAll(input).value)
    requires e in Expanded(BuiltAll(Macro.ReadAll(input).value))
    ensures Parse(ListingPath(e)).Ok? <==> NamesGiven(e) && ParamCount(e) <= MAX_PARAMS
    ensures NamesGiven(e) && ParamCount(e) <= MAX_PARAMS ==>
      Parse(ListingPath(e)) == Ok(if AxumText(e) == [] then [Literal(SLASH)] else RouteTokens(e))
  {
    NothingRead(0);
    hide Expanded, Tokens, AxumText, Unescape;
    var segments := Macro.ReadAll(input).value;
    ReadApart(input);
    ValidPlain(segments);
    ExpandedPlain(BuiltAll(segments), e);
    if NamesGiven(e) && ParamCount(e) <= MAX_PARAMS {
      PlainPrintable(e);
      ListingReadBack(e);
    } else {
      RouteRefused(e, 0);
    }
  }
}
