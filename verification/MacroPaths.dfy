/**
The routes of `path!` in the macro's own terms: which literals it reads and which it refuses, what
tokens a route becomes, and when a route is printed with two slashes in a row.
*/
module MacroPaths {
  import opened Basics
  import opened RouteText
  import opened RoutePath
  import opened AxumPath
  import opened RouteListing
  import opened MacroRoutes
  import Macro = PathMacro

  // ---- What is read

  /** Two slashes next to each other. */
  predicate SlashesAt(s: Text, i: nat) {
    i + 1 < |s| && s[i] == SLASH && s[i + 1] == SLASH
  }

  /** Whether the token makes the macro fail, and how. */
  ghost predicate Refuses(token: Macro.TokenTree, e: Macro.MacroError) {
    || (token.OtherToken? && e == Macro.NotALiteral)
    || (token.LiteralToken? && e == Macro.ConsecutiveSlashes && exists i: nat :: SlashesAt(token.text, i))
  }

  ghost predicate Fine(token: Macro.TokenTree) {
    token.LiteralToken? && forall i: nat :: !SlashesAt(token.text, i)
  }

  lemma TokenDecides(token: Macro.TokenTree)
    ensures token.LiteralToken? ==> (Macro.DoubleSlash(token.text) <==> exists i: nat :: SlashesAt(token.text, i))
  {
    if token.LiteralToken? {
      var s := token.text;
      if i :| 0 <= i < |s| - 1 && s[i] == SLASH && s[i + 1] == SLASH {
        assert SlashesAt(s, i);
      }
    }
  }

  /** The tokens are read exactly if all are literals without two slashes in a row; the first that is not decides the error. */
  lemma {:induction false} ReadExactly(input: seq<Macro.TokenTree>)
    ensures Macro.ReadAll(input).Ok? <==> forall k :: 0 <= k < |input| ==> Fine(input[k])
    ensures Macro.ReadAll(input).Err? ==> exists k :: 0 <= k < |input| && FirstRefused(input, k, Macro.ReadAll(input).error)
  {
    hide Macro.DoubleSlash, Macro.ReadLiteral, SlashesAt;
    if input != [] {
      var tail := input[1..];
      TokenDecides(input[0]);
      ReadExactly(tail);
      assert forall k :: 0 <= k < |tail| ==> tail[k] == input[k + 1];
      if !Fine(input[0]) {
        assert FirstRefused(input, 0, Macro.ReadAll(input).error);
      } else if Macro.ReadAll(tail).Err? {
        var e := Macro.ReadAll(tail).error;
        var k :| 0 <= k < |tail| && FirstRefused(tail, k, e);
        assert !Fine(input[k + 1]);
        assert FirstRefused(input, k + 1, e) by {
          assert forall j :: 0 < j < k + 1 ==> input[j] == tail[j - 1];
        }
      }
    }
  }

  ghost predicate FirstRefused(input: seq<Macro.TokenTree>, k: nat, e: Macro.MacroError) {
    k < |input| && !Fine(input[k]) && Refuses(input[k], e) && forall j :: 0 <= j < k ==> Fine(input[j])
  }

  /** The root, the empty literal and a lone star are read as no segment at all. */
  lemma RootLiterals()
    ensures Macro.ReadLiteral([QUOTE, QUOTE]) == []
    ensures Macro.ReadLiteral([QUOTE, SLASH, QUOTE]) == []
    ensures Macro.ReadLiteral([QUOTE, STAR, QUOTE]) == []
    ensures Macro.ReadLiteral([QUOTE, SLASH, STAR, QUOTE]) == []
  {
    assert [QUOTE, QUOTE][1..] == [QUOTE] && [QUOTE][1..] == [];
    assert Macro.TrimStart([QUOTE]) == [];
    assert [QUOTE, SLASH, QUOTE][1..] == [SLASH, QUOTE] && [SLASH, QUOTE][1..] == [QUOTE];
    assert Macro.TrimStart([SLASH, QUOTE]) == [];
    assert [QUOTE, STAR, QUOTE][1..] == [STAR, QUOTE] && [STAR, QUOTE][..1] == [STAR];
    assert Macro.TrimEnd([STAR, QUOTE]) == Macro.TrimEnd([STAR]) == [STAR];
    assert [QUOTE, SLASH, STAR, QUOTE][1..] == [SLASH, STAR, QUOTE] && [SLASH, STAR, QUOTE][1..] == [STAR, QUOTE];
    assert Macro.TrimStart([SLASH, STAR, QUOTE]) == [STAR, QUOTE];
  }

  // ---- What is let through

  /** Letters, digits, and the five other characters that the macro knows. */
  predicate LetThrough(c: char) {
    || 'a' <= c <= 'z' || 'A' <= c <= 'Z' || '0' <= c <= '9'
    || c == '-' || c == '.' || c == '_' || c == '~' || c == '@'
  }

  lemma PathCharsExactly(b: Byte)
    ensures Macro.PathChar(b) <==> LetThrough(b as char)
  {
  }

  /** Text of those characters only. */
  predicate Spelled(text: Text) {
    forall i :: 0 <= i < |text| ==> LetThrough(text[i] as char)
  }

  predicate SegmentOk(s: Macro.Segment) {
    match s
    case Static(text) => text == [SLASH] || Spelled(text)
    case Param(name) => Spelled(name)
    case Wildcard(name) => Spelled(name)
    case OptionalParam(_) => true
  }

  lemma SpelledExactly(text: Text)
    ensures Spelled(text) <==> forall b :: b in text ==> Macro.PathChar(b)
  {
    forall i | 0 <= i < |text| ensures Macro.PathChar(text[i]) <==> LetThrough(text[i] as char) {
      PathCharsExactly(text[i]);
    }
    assert forall i :: 0 <= i < |text| ==> text[i] in text;
  }

  /** Segments that were read pass the check exactly if their text and names are spelled so, and only the last is a wildcard. */
  lemma ValidExactly(segments: seq<Macro.Segment>)
    requires forall s :: s in segments ==> Apart(s)
    ensures Macro.Valid(segments) <==>
      && (forall i :: 0 <= i < |segments| ==> SegmentOk(segments[i]))
      && (forall i :: 0 <= i < |segments| - 1 ==> !segments[i].Wildcard?)
  {
    hide LetThrough, Macro.PathChar, Spelled;
    forall i | 0 <= i < |segments| ensures Macro.SegmentError(segments[i]).None? <==> SegmentOk(segments[i]) {
      var s := segments[i];
      assert s in segments && SLASH in [SLASH];
      SpelledExactly(if s.Static? then s.text else s.name);
    }
  }

  /** The error of a segment names what it is and holds its text. */
  lemma ErrorExactly(s: Macro.Segment)
    requires Apart(s) && !SegmentOk(s)
    ensures s.Static? ==> Macro.SegmentError(s) == Some(Macro.InvalidStatic(s.text))
    ensures s.Param? ==> Macro.SegmentError(s) == Some(Macro.InvalidParam(s.name))
    ensures s.Wildcard? ==> Macro.SegmentError(s) == Some(Macro.InvalidWildcard(s.name))
  {
    hide LetThrough, Macro.PathChar, Spelled;
    assert SLASH in [SLASH];
    SpelledExactly(if s.Static? then s.text else s.name);
  }

  // ---- What tokens a route becomes

  /** The tokens of the macro's segments: each on its own segment of the path, a final slash by itself. */
  function MacroTokens(segments: seq<Macro.Segment>): seq<Token> {
    if segments == [] then []
    else
      (match segments[0]
       case Static(text) => if text == [] then [] else if text == [SLASH] then [Literal(SLASH)] else [Literal(SLASH)] + Literals(text)
       case Param(_) => [Literal(SLASH), Param]
       case Wildcard(name) => [Literal(SLASH), CatchAll(name)]
       case OptionalParam(_) => [])
      + MacroTokens(segments[1..])
  }

  /** The choices of a route: each optional parameter is a parameter or absent. */
  function Choices(segments: seq<Macro.Segment>): seq<seq<Macro.Segment>> {
    if segments == [] then [[]]
    else
      var rest := Choices(segments[1..]);
      if segments[0].OptionalParam? then Ahead(Macro.Param(segments[0].name), rest) + rest else Ahead(segments[0], rest)
  }

  function Ahead(s: Macro.Segment, lists: seq<seq<Macro.Segment>>): seq<seq<Macro.Segment>> {
    seq(|lists|, i requires 0 <= i < |lists| => [s] + lists[i])
  }

  /** The choices are those that the listings are made of, in the same order. */
  lemma {:induction false} ChoicesBuilt(segments: seq<Macro.Segment>)
    ensures |Choices(segments)| == |Expanded(BuiltAll(segments))|
    ensures forall i :: 0 <= i < |Choices(segments)| ==> Expanded(BuiltAll(segments))[i] == BuiltAll(Choices(segments)[i])
  {
    if segments != [] {
      var tail, rest := segments[1..], Choices(segments[1..]);
      ChoicesBuilt(tail);
      var built := Expanded(BuiltAll(tail));
      assert BuiltAll(segments)[1..] == BuiltAll(tail);
      var first := if segments[0].OptionalParam? then Macro.Param(segments[0].name) else segments[0];
      forall i | 0 <= i < |rest| ensures BuiltAll(Ahead(first, rest)[i]) == Each(Built(first), built)[i] {
        assert ([first] + rest[i])[1..] == rest[i];
      }
    }
  }

  lemma {:induction false} TokensBuilt(choice: seq<Macro.Segment>)
    requires forall s :: s in choice ==> Apart(s)
    ensures RouteTokens(BuiltAll(choice)) == MacroTokens(choice)
  {
    hide Apart;
    if choice != [] {
      var s := choice[0];
      TokensBuilt(choice[1..]);
      assert BuiltAll(choice)[1..] == BuiltAll(choice[1..]);
      assert s in choice;
      OneBuilt(s);
    }
  }

  lemma OneBuilt(s: Macro.Segment)
    requires Apart(s)
    ensures MacroTokens([s]) == SegmentTokens(Built(s))
    ensures MacroTokens([s]) == (match s
      case Static(text) => if text == [] then [] else if text == [SLASH] then [Literal(SLASH)] else [Literal(SLASH)] + Literals(text)
      case Param(_) => [Literal(SLASH), Param]
      case Wildcard(name) => [Literal(SLASH), CatchAll(name)]
      case OptionalParam(_) => [])
  {
    assert [s][1..] == [] && MacroTokens([]) == [];
    if s.Static? && s.text != [] && s.text != [SLASH] {
      assert s.text[0] in s.text;
    } else if s.Static? {
      assert Literals([]) == [] && Literals([SLASH]) == [Literal(SLASH)];
    }
  }

  lemma {:induction false} ChoiceApart(segments: seq<Macro.Segment>, i: nat)
    requires (forall s :: s in segments ==> Apart(s)) && i < |Choices(segments)|
    ensures forall s :: s in Choices(segments)[i] ==> Apart(s)
  {
    if segments != [] {
      var rest := Choices(segments[1..]);
      var k := if i < |rest| then i else i - |rest|;
      assert segments[0] in segments;
      ChoiceApart(segments[1..], k);
    }
  }

  /** The macro reads the tokens as these segments, and lets them through; optional names are plain. */
  ghost predicate Accepted(input: seq<Macro.TokenTree>, segments: seq<Macro.Segment>) {
    Macro.ReadAll(input) == Ok(segments) && Macro.Valid(segments) && OptionalsPlain(segments)
  }

  lemma ChoiceListed(segments: seq<Macro.Segment>, i: nat)
    requires i < |Choices(segments)|
    ensures BuiltAll(Choices(segments)[i]) in Expanded(BuiltAll(segments))
  {
    hide Choices, Expanded, BuiltAll;
    ChoicesBuilt(segments);
    assert Expanded(BuiltAll(segments))[i] in Expanded(BuiltAll(segments));
  }

  lemma ChoiceSettled(input: seq<Macro.TokenTree>, segments: seq<Macro.Segment>, e: Segments)
    requires Accepted(input, segments) && e in Expanded(BuiltAll(segments))
    ensures PlainRoute(e) && Settled(e) && forall s :: s in segments ==> Apart(s)
  {
    hide Expanded, BuiltAll, PlainRoute, Macro.ReadAll;
    ReadApart(input);
    ValidPlain(segments);
    ExpandedPlain(BuiltAll(segments), e);
  }

  /** Each choice of a route of the macro is read by the router as the tokens of its segments; nothing is the root. */
  lemma MacroRouteTokens(input: seq<Macro.TokenTree>, segments: seq<Macro.Segment>, i: nat)
    requires Accepted(input, segments) && i < |Choices(segments)|
    requires NamesGiven(BuiltAll(Choices(segments)[i])) && ParamCount(BuiltAll(Choices(segments)[i])) <= MAX_PARAMS
    ensures Parse(ListingPath(BuiltAll(Choices(segments)[i]))) ==
      Ok(if MacroTokens(Choices(segments)[i]) == [] then [Literal(SLASH)] else MacroTokens(Choices(segments)[i]))
  {
    var choice := Choices(segments)[i];
    var e := BuiltAll(choice);
    hide Choices, Expanded, MacroTokens, BuiltAll, RouteTokens, AxumText, ParamCount, OptionalsPlain, Apart, Parse, PlainRoute;
    ChoiceListed(segments, i);
    ChoiceSettled(input, segments, e);
    ChoiceApart(segments, i);
    TokensBuilt(choice);
    NothingPrinted(e);
    PlainPrintable(e);
    ListingReadBack(e);
  }

  lemma {:induction false} NothingPrinted(e: Segments)
    requires Settled(e) && NamesGiven(e)
    ensures AxumText(e) == [] <==> RouteTokens(e) == []
  {
    if e != [] {
      assert e[0] in e;
      OnePrinted(e[0]);
      NothingPrinted(e[1..]);
    }
  }

  lemma OnePrinted(s: PathSegment)
    requires !s.OptionalParam? && (s.ParamSegment? || s.Splat? ==> s.name != [])
    ensures Printed(s) == [] <==> SegmentTokens(s) == []
  {
    if s.Static? && s.text != [] {
      assert Doubled(s.text) != [];
    }
  }

  // ---- Two slashes in a row

  predicate Prints(s: PathSegment) {
    match s
    case Unit => false
    case Static(text) => text != []
    case OptionalParam(_) => false
    case _ => true
  }

  /** A segment that is only a slash has a segment after it that is printed. */
  predicate SlashInside(e: Segments, i: nat, j: nat) {
    i < j < |e| && e[i] == Static([SLASH]) && Prints(e[j])
  }

  ghost predicate HasSlashes(text: Text) {
    exists i: nat :: SlashesAt(text, i)
  }

  lemma {:induction false} SlashesConcat(a: Text, b: Text)
    requires b == [] || b[0] == SLASH
    ensures HasSlashes(a + b) <==> HasSlashes(a) || HasSlashes(b) || (a != [] && b != [] && a[|a| - 1] == SLASH)
  {
    var ab := a + b;
    if i: nat :| SlashesAt(ab, i) {
      if i + 1 < |a| {
        assert SlashesAt(a, i);
      } else if i >= |a| {
        assert SlashesAt(b, i - |a|);
      }
    }
    if i: nat :| SlashesAt(a, i) {
      assert SlashesAt(ab, i);
    }
    if i: nat :| SlashesAt(b, i) {
      assert SlashesAt(ab, |a| + i);
    }
    if a != [] && b != [] && a[|a| - 1] == SLASH {
      assert SlashesAt(ab, |a| - 1);
    }
  }

  /** Text in which only the first byte can be a slash. */
  lemma OneSlash(text: Text, s: PathSegment)
    requires Printed(s) == text && (forall i :: 1 <= i < |text| ==> text[i] != SLASH)
    ensures !HasSlashes(Printed(s))
    ensures |text| > 1 ==> Printed(s)[|text| - 1] != SLASH
  {
    NoSlashAfterFirst(text);
  }

  lemma StaticSlashes(text: Text)
    requires text == [SLASH] || Plain(text)
    ensures !HasSlashes(Printed(Static(text))) && (Printed(Static(text)) != [] <==> text != [])
    ensures text != [] ==> (Printed(Static(text))[|Printed(Static(text))| - 1] == SLASH <==> text == [SLASH])
  {
    StaticPlain(text);
    if text != [SLASH] {
      PlainBytes(text);
      assert forall i :: 0 <= i < |text| ==> text[i] in text;
    }
    hide Printed, Plain;
    OneSlash(Slash(text) + text, Static(text));
  }

  lemma WildcardSlashes(name: Text, star: Text, s: PathSegment)
    requires GoodName(name) && Printed(s) == [SLASH, OPEN] + star + name + [CLOSE] && (star == [] || star == [STAR])
    ensures !HasSlashes(Printed(s)) && Printed(s) != [] && Printed(s)[|Printed(s)| - 1] != SLASH
  {
    hide Printed;
    assert forall i :: 0 <= i < |name| ==> name[i] in name;
    OneSlash([SLASH, OPEN] + star + name + [CLOSE], s);
  }

  /** What is printed for one segment has no two slashes in a row, and ends in one only if it is one. */
  lemma PrintedSlashes(s: PathSegment)
    requires PlainSegment(s) && GoodSegment(s)
    ensures !HasSlashes(Printed(s)) && (Printed(s) != [] <==> Prints(s)) && (s == Static([SLASH]) ==> Prints(s))
    ensures Printed(s) != [] ==> (Printed(s)[|Printed(s)| - 1] == SLASH <==> s == Static([SLASH]))
  {
    UnitPrinted();
    hide Printed, HasSlashes, Plain, Clean;
    match s
    case Unit =>
    case Static(text) => StaticSlashes(text);
    case ParamSegment(name) => ParamSlashes(name);
    case Splat(name) => ParamSlashes(name);
  }

  lemma UnitPrinted()
    ensures Printed(Unit) == [] && !HasSlashes(Printed(Unit))
  {
    assert Printed(Unit) == [];
    NoSlashAfterFirst([]);
  }

  lemma ParamSlashes(name: Text)
    requires GoodName(name)
    ensures forall s :: s == ParamSegment(name) || s == Splat(name) ==>
      !HasSlashes(Printed(s)) && Printed(s) != [] && Printed(s)[|Printed(s)| - 1] != SLASH
  {
    hide Printed, HasSlashes;
    WildcardPrinted(name);
    assert [SLASH, OPEN] + [] == [SLASH, OPEN] && [SLASH, OPEN] + [STAR] == [SLASH, OPEN, STAR];
    WildcardSlashes(name, [], ParamSegment(name));
    WildcardSlashes(name, [STAR], Splat(name));
  }

  lemma NoSlashAfterFirst(text: Text)
    requires forall i :: 1 <= i < |text| ==> text[i] != SLASH
    ensures !HasSlashes(text)
  {
    forall i: nat ensures !SlashesAt(text, i) {
    }
  }

  lemma {:induction false} PrintedSome(e: Segments)
    requires PlainRoute(e) && Printable(e)
    ensures AxumText(e) != [] <==> exists j :: 0 <= j < |e| && Prints(e[j])
  {
    hide PlainSegment, GoodSegment, Printed, Prints;
    if e != [] {
      PrintedSlashes(e[0]);
      PrintedSome(e[1..]);
      assert forall j :: 1 <= j < |e| ==> e[j] == e[1..][j - 1];
      if j :| 0 <= j < |e[1..]| && Prints(e[1..][j]) {
        assert Prints(e[j + 1]);
      }
    }
  }

  /** A route of good segments is printed with two slashes in a row exactly if a lone slash has something printed after it. */
  lemma {:induction false} SlashesExactly(e: Segments)
    requires PlainRoute(e) && Printable(e)
    ensures HasSlashes(AxumText(e)) <==> exists i: nat, j: nat :: SlashInside(e, i, j)
  {
    hide PlainSegment, GoodSegment, Printed, Prints, HasSlashes;
    if e == [] {
      NoSlashAfterFirst([]);
    } else {
      var rest := e[1..];
      PrintedSlashes(e[0]);
      SlashesExactly(rest);
      PrintedSome(rest);
      AxumTextClean(rest);
      SlashesConcat(Printed(e[0]), AxumText(rest));
      InsideCons(e);
    }
  }

  lemma InsideCons(e: Segments)
    requires e != []
    ensures (exists i: nat, j: nat :: SlashInside(e, i, j)) <==>
      || (exists i: nat, j: nat :: SlashInside(e[1..], i, j))
      || (e[0] == Static([SLASH]) && exists j :: 0 <= j < |e[1..]| && Prints(e[1..][j]))
  {
    var rest := e[1..];
    if i: nat, j: nat :| SlashInside(e, i, j) {
      assert rest[j - 1] == e[j];
      assert i > 0 ==> rest[i - 1] == e[i] && SlashInside(rest, i - 1, j - 1);
    }
    if i: nat, j: nat :| SlashInside(rest, i, j) {
      assert SlashInside(e, i + 1, j + 1);
    }
    if e[0] == Static([SLASH]) && exists j :: 0 <= j < |rest| && Prints(rest[j]) {
      var j :| 0 <= j < |rest| && Prints(rest[j]);
      assert SlashInside(e, 0, j + 1);
    }
  }

  /** A lone slash is the last segment, if it is one at all. */
  predicate SlashLast(e: Segments) {
    e == [] || ((e[0] == Static([SLASH]) ==> e[1..] == []) && SlashLast(e[1..]))
  }

  lemma {:induction false} ExpandedSlashLast(segments: Segments, e: Segments)
    requires SlashLast(segments) && e in Expanded(segments)
    ensures SlashLast(e)
  {
    if segments != [] {
      var rest := Expanded(segments[1..]);
      forall x | x in rest ensures SlashLast(x) {
        ExpandedSlashLast(segments[1..], x);
      }
      if e !in rest || !segments[0].OptionalParam? {
        var s := if segments[0].OptionalParam? then ParamSegment(segments[0].name) else segments[0];
        var i :| 0 <= i < |rest| && e == [s] + rest[i];
        assert e[1..] == rest[i] && rest[i] in rest;
        if s == Static([SLASH]) {
          assert segments[1..] == [] && rest == [[]];
        }
      }
    }
  }

  lemma {:induction false} SlashLastInside(e: Segments)
    requires SlashLast(e)
    ensures forall i: nat, j: nat :: !SlashInside(e, i, j)
  {
    if e != [] {
      SlashLastInside(e[1..]);
      InsideCons(e);
    }
  }

  lemma {:induction false} BuiltSlashLast(segments: seq<Macro.Segment>)
    requires forall i :: 0 <= i < |segments| - 1 ==> segments[i] != Macro.Static([SLASH])
    ensures SlashLast(BuiltAll(segments))
  {
    if segments != [] {
      BuiltSlashLast(segments[1..]);
      assert BuiltAll(segments)[1..] == BuiltAll(segments[1..]);
      assert |segments| > 1 ==> segments[0] != Macro.Static([SLASH]);
      assert |segments| == 1 ==> segments[1..] == [];
    }
  }

  lemma LiteralSlashLast(lit: Text)
    ensures forall i :: 0 <= i < |Macro.ReadLiteral(lit)| - 1 ==> Macro.ReadLiteral(lit)[i] != Macro.Static([SLASH])
  {
    hide Split, Macro.ReadPiece;
    var pieces := Split(Macro.TrimEnd(Macro.TrimStart(lit)));
    SplitPieces(Macro.TrimEnd(Macro.TrimStart(lit)));
    forall i | 0 <= i < |pieces| ensures Macro.ReadPiece(pieces[i]) != Macro.Static([SLASH]) {
      assert pieces[i] in pieces;
      PieceNotSlash(pieces[i]);
    }
  }

  lemma PieceNotSlash(piece: Text)
    requires SLASH !in piece
    ensures Macro.ReadPiece(piece) != Macro.Static([SLASH])
  {
    assert SLASH in [SLASH];
  }

  /** A route of one literal is never printed with two slashes in a row. */
  lemma OneLiteralOneSlash(lit: Text, segments: seq<Macro.Segment>, e: Segments)
    requires Accepted([Macro.LiteralToken(lit)], segments) && e in Expanded(BuiltAll(segments)) && NamesGiven(e)
    ensures !HasSlashes(AxumText(e))
  {
    OneLiteralRead(lit);
    LiteralSlashLast(lit);
    ChoiceSettled([Macro.LiteralToken(lit)], segments, e);
    hide Accepted, Expanded, BuiltAll, HasSlashes, AxumText, PlainRoute, NamesGiven, SlashLast;
    BuiltSlashLast(segments);
    ExpandedSlashLast(BuiltAll(segments), e);
    SlashLastInside(e);
    PlainPrintable(e);
    SlashesExactly(e);
  }

  lemma OneLiteralRead(lit: Text)
    ensures Macro.ReadAll([Macro.LiteralToken(lit)]).Ok? ==>
      Macro.ReadAll([Macro.LiteralToken(lit)]).value == Macro.ReadLiteral(lit)
  {
    assert [Macro.LiteralToken(lit)][1..] == [] && Macro.ReadAll([]) == Ok([]);
    assert Macro.ReadLiteral(lit) + [] == Macro.ReadLiteral(lit);
  }

  const LETTER: Byte := 97

  /** But one of two literals can be: `"/a/" "/a"` is printed with the slash of both. */
  lemma TwoLiteralsTwoSlashes() returns (input: seq<Macro.TokenTree>, segments: seq<Macro.Segment>)
    ensures Accepted(input, segments) && |input| == 2 && |segments| == 3
    ensures HasSlashes(AxumText(BuiltAll(segments)))
  {
    hide AxumText, HasSlashes, BuiltAll, Macro.ReadAll, Macro.LiteralOf;
    var a := Macro.Static([LETTER]);
    input := [Macro.LiteralToken(Macro.LiteralOf([a], true)), Macro.LiteralToken(Macro.LiteralOf([a], false))];
    segments := [a, Macro.Static([SLASH]), a];
    ReadLetters(a);
    ThreePrinted([LETTER]);
  }

  lemma ReadLetters(a: Macro.Segment)
    requires a == Macro.Static([LETTER])
    ensures Macro.ReadAll([Macro.LiteralToken(Macro.LiteralOf([a], true)), Macro.LiteralToken(Macro.LiteralOf([a], false))])
         == Ok([a, Macro.Static([SLASH]), a])
  {
    hide Macro.ReadAll, Macro.LiteralOf;
    assert Macro.Legible(a);
    Macro.LiteralReadBack([a], true);
    Macro.LiteralReadBack([a], false);
    ReadTwo(Macro.LiteralToken(Macro.LiteralOf([a], true)), Macro.LiteralToken(Macro.LiteralOf([a], false)));
    assert ([a] + [Macro.Static([SLASH])]) + ([a] + []) == [a, Macro.Static([SLASH]), a];
  }

  lemma BuiltCons(s: Macro.Segment, rest: seq<Macro.Segment>)
    ensures BuiltAll([s] + rest) == [Built(s)] + BuiltAll(rest)
  {
    assert ([s] + rest)[1..] == rest;
  }

  lemma PlainCons(s: PathSegment, rest: Segments)
    requires PlainSegment(s) && !s.Splat? && PlainRoute(rest)
    ensures PlainRoute([s] + rest)
  {
    assert ([s] + rest)[1..] == rest;
  }

  lemma ThreePrinted(text: Text)
    requires text != [] && Plain(text)
    ensures HasSlashes(AxumText(BuiltAll([Macro.Static(text), Macro.Static([SLASH]), Macro.Static(text)])))
  {
    var s, slash := Macro.Static(text), Macro.Static([SLASH]);
    var segments := [s, slash, s];
    var e: Segments := [Static(text), Static([SLASH]), Static(text)];
    BuiltCons(s, []);
    BuiltCons(slash, [s]);
    BuiltCons(s, [slash, s]);
    assert [s] + [] == [s] && [slash] + [s] == [slash, s] && [s] + [slash, s] == segments && BuiltAll([]) == [];
    assert BuiltAll(segments) == [Static(text)] + ([Static([SLASH])] + ([Static(text)] + [])) == e;
    PlainCons(Static(text), []);
    PlainCons(Static([SLASH]), [Static(text)] + []);
    PlainCons(Static(text), [Static([SLASH])] + ([Static(text)] + []));
    assert Settled(e) && NamesGiven(e);
    hide AxumText, HasSlashes, PlainRoute;
    PlainPrintable(e);
    assert SlashInside(e, 1, 2);
    SlashesExactly(e);
  }

  lemma ReadTwo(first: Macro.TokenTree, second: Macro.TokenTree)
    requires Macro.ReadAll([first]).Ok? && Macro.ReadAll([second]).Ok?
    ensures Macro.ReadAll([first, second]) == Ok(Macro.ReadAll([first]).value + Macro.ReadAll([second]).value)
  {
    assert [first, second][1..] == [second] && [first][1..] == [] && Macro.ReadAll([]) == Ok([]);
    assert Macro.ReadLiteral(first.text) + [] == Macro.ReadLiteral(first.text);
  }
}
