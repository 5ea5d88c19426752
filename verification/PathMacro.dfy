/** The `path!` macro: from string literals to the segments of a route (halyard_macro/src/route.rs). */
module PathMacro {
  import opened Basics
  import opened RouteText

  datatype Segment =
    | Static(text: Text)
    | Param(name: Text)
    | OptionalParam(name: Text)
    | Wildcard(name: Text)

  /** What the macro is given: the text of a literal, quotes included, or anything else. */
  datatype TokenTree = LiteralToken(text: Text) | OtherToken

  datatype MacroError =
    | ConsecutiveSlashes
    | NotALiteral
    | InvalidStatic(text: Text)
    | InvalidParam(text: Text)
    | InvalidWildcard(text: Text)
    | WildcardNotLast(text: Text)

  // ---- Reading

  predicate Trimmed(b: Byte) {
    b == QUOTE || b == SLASH
  }

  function TrimStart(s: Text): Text {
    if s != [] && Trimmed(s[0]) then TrimStart(s[1..]) else s
  }

  function TrimEnd(s: Text): Text {
    if s != [] && Trimmed(s[|s| - 1]) then TrimEnd(s[..|s| - 1]) else s
  }

  predicate DoubleSlash(s: Text) {
    exists i :: 0 <= i < |s| - 1 && s[i] == SLASH && s[i + 1] == SLASH
  }

  predicate TrailingSlash(lit: Text) {
    |lit| >= 2 && lit[|lit| - 2..] == [SLASH, QUOTE] && lit != [QUOTE, SLASH, QUOTE]
  }

  function ReadPiece(piece: Text): Segment {
    if piece != [] && piece[0] == COLON then
      var name := piece[1..];
      if name != [] && name[|name| - 1] == QUESTION then OptionalParam(name[..|name| - 1]) else Param(name)
    else if piece != [] && piece[0] == STAR then Wildcard(piece[1..])
    else Static(piece)
  }

  function ReadPieces(pieces: seq<Text>): (r: seq<Segment>)
    ensures |r| == |pieces|
    ensures forall i :: 0 <= i < |r| ==> r[i] == ReadPiece(pieces[i])
  {
    if pieces == [] then [] else [ReadPiece(pieces[0])] + ReadPieces(pieces[1..])
  }

  function ReadText(s: Text): seq<Segment> {
    if s == [] || s == [STAR] then [] else ReadPieces(Split(s))
  }

  function ReadLiteral(lit: Text): seq<Segment> {
    ReadText(TrimEnd(TrimStart(lit))) + if TrailingSlash(lit) then [Static([SLASH])] else []
  }

  function ReadAll(input: seq<TokenTree>): Result<seq<Segment>, MacroError> {
    if input == [] then Ok([])
    else if input[0].OtherToken? then Err(NotALiteral)
    else if DoubleSlash(input[0].text) then Err(ConsecutiveSlashes)
    else
      match ReadAll(input[1..])
      case Err(e) => Err(e)
      case Ok(rest) => Ok(ReadLiteral(input[0].text) + rest)
  }

  class SegmentParser {
    var input: seq<TokenTree>
    var segments: seq<Segment>

    constructor (input: seq<TokenTree>)
      ensures this.input == input && segments == []
    {
      this.input := input;
      segments := [];
    }

    method ParseStr(current: Text)
      modifies this`segments
      ensures segments == old(segments) + ReadText(current)
    {
      hide Split, ReadPiece;
      if current == [] || current == [STAR] {
        assert segments + [] == segments;
        return;
      }
      var pieces := Split(current);
      ghost var before, all := segments, ReadPieces(pieces);
      for i := 0 to |pieces|
        invariant segments == before + all[..i]
      {
        assert all[..i + 1] == all[..i] + [ReadPiece(pieces[i])];
        segments := segments + [ReadPiece(pieces[i])];
      }
      assert all[..|pieces|] == all;
    }

    method ParseAll() returns (r: Result<(), MacroError>)
      modifies this
      ensures r.Ok? <==> ReadAll(old(input)).Ok?
      ensures r.Ok? ==> segments == old(segments) + ReadAll(old(input)).value
      ensures r.Err? ==> r.error == ReadAll(old(input)).error
    {
      hide ReadText, Split, DoubleSlash, TrailingSlash, TrimStart, TrimEnd;
      ghost var was, before := input, segments;
      assert before + [] == before;
      while input != []
        invariant ReadAll(was).Ok? <==> ReadAll(input).Ok?
        invariant ReadAll(was).Err? ==> ReadAll(was).error == ReadAll(input).error
        invariant ReadAll(was).Ok? ==> before + ReadAll(was).value == segments + ReadAll(input).value
        decreases |input|
      {
        match input[0]
        case OtherToken =>
          return Err(NotALiteral);
        case LiteralToken(lit) =>
          if DoubleSlash(lit) {
            return Err(ConsecutiveSlashes);
          }
          ghost var start, rest := segments, ReadAll(input[1..]);
          input := input[1..];
          ParseStr(TrimEnd(TrimStart(lit)));
          if TrailingSlash(lit) {
            segments := segments + [Static([SLASH])];
          }
          assert segments == start + ReadLiteral(lit);
          if rest.Ok? {
            assert start + (ReadLiteral(lit) + rest.value) == segments + rest.value;
          }
      }
      assert segments + [] == segments;
      return Ok(());
    }
  }

  // ---- Checking

  /** Unreserved characters (section 2.3 of RFC 3986) and `@`, the only other one of section 3.3 let in. */
  predicate PathChar(b: Byte) {
    (48 <= b <= 57) || (97 <= b <= 122) || (65 <= b <= 90) || b in [45, 46, 95, 126] || b == 64
  }

  predicate IsValid(text: Text) {
    text == [SLASH] || forall b :: b in text ==> PathChar(b)
  }

  function SegmentError(s: Segment): Option<MacroError> {
    match s
    case Wildcard(n) => if IsValid(n) then None else Some(InvalidWildcard(n))
    case Static(t) => if IsValid(t) then None else Some(InvalidStatic(t))
    case Param(n) => if IsValid(n) then None else Some(InvalidParam(n))
    case OptionalParam(_) => None
  }

  /** Every segment is valid, and only the last may be a wildcard. */
  predicate Valid(segments: seq<Segment>) {
    && (forall i :: 0 <= i < |segments| ==> SegmentError(segments[i]).None?)
    && (forall i :: 0 <= i < |segments| - 1 ==> !segments[i].Wildcard?)
  }

  /** `error` is the one of segment `i`, and there is none before it. */
  predicate FirstError(segments: seq<Segment>, i: nat, error: Option<MacroError>) {
    && i < |segments| && error == SegmentError(segments[i])
    && (forall j :: 0 <= j < i ==> SegmentError(segments[j]).None?)
  }

  /** Only a wildcard is wrong, and `i` is the first that is not last. */
  predicate FirstEarlyWildcard(segments: seq<Segment>, i: nat) {
    && i < |segments| - 1 && segments[i].Wildcard?
    && (forall j :: 0 <= j < |segments| ==> SegmentError(segments[j]).None?)
    && (forall j :: 0 <= j < i ==> !segments[j].Wildcard?)
  }

  method EnsureValid(segments: seq<Segment>) returns (error: Option<MacroError>)
    ensures error.None? <==> Valid(segments)
    ensures error.Some? ==>
      exists i: nat :: || FirstError(segments, i, error)
                       || (FirstEarlyWildcard(segments, i) && error == Some(WildcardNotLast(segments[i].name)))
  {
    for i := 0 to |segments|
      invariant forall j :: 0 <= j < i ==> SegmentError(segments[j]).None?
    {
      if SegmentError(segments[i]).Some? {
        assert FirstError(segments, i, SegmentError(segments[i]));
        return SegmentError(segments[i]);
      }
    }
    if segments != [] {
      for i := 0 to |segments| - 1
        invariant forall j :: 0 <= j < i ==> !segments[j].Wildcard?
      {
        if segments[i].Wildcard? {
          assert FirstEarlyWildcard(segments, i);
          return Some(WildcardNotLast(segments[i].name));
        }
      }
    }
    return None;
  }

  // ---- The text of segments is read as those segments

  function Shown(s: Segment): Text {
    match s
    case Static(text) => text
    case Param(name) => [COLON] + name
    case OptionalParam(name) => [COLON] + (name + [QUESTION])
    case Wildcard(name) => [STAR] + name
  }

  /** The segments with a slash between each two. */
  function Joined(segments: seq<Segment>): Text
    requires segments != []
  {
    if |segments| == 1 then Shown(segments[0]) else Shown(segments[0]) + [SLASH] + Joined(segments[1..])
  }

  /** The text of a segment has no slash and no quote, and shows what kind of segment it is. */
  predicate Legible(s: Segment) {
    && (forall b :: b in Shown(s) ==> !Trimmed(b))
    && (s.Static? ==> s.text != [] && s.text[0] != COLON && s.text[0] != STAR)
    && (s.Param? ==> s.name == [] || s.name[|s.name| - 1] != QUESTION)
  }

  lemma PieceRead(s: Segment)
    requires Legible(s)
    ensures ReadPiece(Shown(s)) == s
  {
    if s.OptionalParam? {
      var name := s.name + [QUESTION];
      assert ([COLON] + name)[1..] == name && name[..|name| - 1] == s.name;
    } else if !s.Static? {
      assert Shown(s)[1..] == s.name;
    }
  }

  /** The text of a legible segment is one piece, and read as the segment. */
  lemma ShownPiece(s: Segment)
    requires Legible(s)
    ensures Shown(s) != [] && SLASH !in Shown(s) && Split(Shown(s)) == [Shown(s)]
    ensures !Trimmed(Shown(s)[0]) && !Trimmed(Shown(s)[|Shown(s)| - 1])
    ensures ReadPiece(Shown(s)) == s
  {
    hide Split;
    var shown := Shown(s);
    assert shown[0] in shown && shown[|shown| - 1] in shown;
    assert SLASH !in shown by {
      assert forall b :: b in shown ==> !Trimmed(b);
    }
    SplitOne(shown);
    PieceRead(s);
  }

  lemma ReadPiecesCons(piece: Text, rest: seq<Text>)
    ensures ReadPieces([piece] + rest) == [ReadPiece(piece)] + ReadPieces(rest)
  {
    assert ([piece] + rest)[1..] == rest;
  }

  lemma {:induction false} JoinedRead(segments: seq<Segment>)
    requires segments != [] && forall s :: s in segments ==> Legible(s)
    ensures ReadPieces(Split(Joined(segments))) == segments
  {
    hide Split, Shown, Legible, ReadPiece, ReadPieces;
    var s, rest := segments[0], segments[1..];
    ShownPiece(s);
    if |segments| > 1 {
      JoinedRead(rest);
      SplitAt(Shown(s), Joined(rest));
      ReadPiecesCons(Shown(s), Split(Joined(rest)));
      assert segments == [s] + rest;
    } else {
      ReadPiecesCons(Shown(s), []);
      assert [Shown(s)] + [] == [Shown(s)] && ReadPieces([]) == [];
      assert segments == [s];
    }
  }

  lemma {:induction false} JoinedEnds(segments: seq<Segment>)
    requires segments != [] && forall s :: s in segments ==> Legible(s)
    ensures Joined(segments) != [] && !DoubleSlash(Joined(segments))
    ensures !Trimmed(Joined(segments)[0]) && !Trimmed(Joined(segments)[|Joined(segments)| - 1])
  {
    hide Split, Shown, Legible, ReadPiece;
    var shown := Shown(segments[0]);
    ShownPiece(segments[0]);
    if |segments| > 1 {
      JoinedEnds(segments[1..]);
      NoDoubleSlash(shown, Joined(segments[1..]));
    }
  }

  lemma NoDoubleSlash(a: Text, b: Text)
    requires a != [] && SLASH !in a && b != [] && b[0] != SLASH && !DoubleSlash(b)
    ensures !DoubleSlash(a + [SLASH] + b)
  {
    var t := a + [SLASH] + b;
    assert forall i :: 0 <= i < |a| ==> t[i] == a[i] && t[i] != SLASH;
    assert forall i :: |a| < i < |t| ==> t[i] == b[i - |a| - 1];
  }

  /** The literal with a slash before each of the segments; `slash`: with one at the end too. */
  function LiteralOf(segments: seq<Segment>, slash: bool): Text
    requires segments != []
  {
    [QUOTE, SLASH] + Joined(segments) + (if slash then [SLASH, QUOTE] else [QUOTE])
  }

  lemma TrimmedLiteral(text: Text, end: Text)
    requires text != [] && !Trimmed(text[0]) && !Trimmed(text[|text| - 1])
    requires end == [QUOTE] || end == [SLASH, QUOTE]
    ensures TrimEnd(TrimStart([QUOTE, SLASH] + text + end)) == text
  {
    var body := text + end;
    assert [QUOTE, SLASH] + text + end == [QUOTE] + ([SLASH] + body);
    assert ([QUOTE] + ([SLASH] + body))[1..] == [SLASH] + body;
    assert ([SLASH] + body)[1..] == body;
    assert TrimStart([SLASH] + body) == TrimStart(body) == body;
    assert body[..|body| - 1] == text + end[..|end| - 1];
    if |end| == 2 {
      var once := text + [SLASH];
      assert text + end[..1] == once;
      assert once[..|once| - 1] == text;
      assert TrimEnd(once) == text;
    } else {
      assert text + end[..0] == text;
    }
  }

  lemma LoneStar(segments: seq<Segment>)
    requires segments != [] && forall s :: s in segments ==> Legible(s)
    requires Joined(segments) == [STAR]
    ensures segments == [Wildcard([])]
  {
    var shown := Shown(segments[0]);
    assert Legible(segments[0]);
    assert |shown| > 0;
    assert shown[0] == Joined(segments)[0];
    assert segments[0].Wildcard?;
    assert segments[0].name == shown[1..] == [];
    assert segments == [segments[0]];
  }

  lemma LiteralNoDouble(text: Text, end: Text)
    requires text != [] && !Trimmed(text[0]) && !Trimmed(text[|text| - 1]) && !DoubleSlash(text)
    requires end == [QUOTE] || end == [SLASH, QUOTE]
    ensures !DoubleSlash([QUOTE, SLASH] + text + end)
  {
    var lit := [QUOTE, SLASH] + text + end;
    assert forall i :: 2 <= i < 2 + |text| ==> lit[i] == text[i - 2];
  }

  /** A literal written from legible segments is read as those segments, and its last slash as one more. */
  lemma LiteralReadBack(segments: seq<Segment>, slash: bool)
    requires segments != [] && forall s :: s in segments ==> Legible(s)
    requires segments != [Wildcard([])]
    ensures ReadAll([LiteralToken(LiteralOf(segments, slash))])
         == Ok(segments + if slash then [Static([SLASH])] else [])
  {
    hide Split, ReadPieces, Joined, Legible, TrimStart, TrimEnd;
    JoinedRead(segments);
    JoinedEnds(segments);
    var text, end := Joined(segments), if slash then [SLASH, QUOTE] else [QUOTE];
    var lit := LiteralOf(segments, slash);
    TrimmedLiteral(text, end);
    if Joined(segments) == [STAR] {
      LoneStar(segments);
    }
    LiteralNoDouble(text, end);
    assert lit[|lit| - |end|..] == end;
    assert lit[|lit| - 2..] == [lit[|lit| - 2], QUOTE];
    assert !slash ==> lit[|lit| - 2] == text[|text| - 1];
    assert lit[2] == text[0];
    assert ReadAll([]) == Ok([]);
    assert [LiteralToken(lit)][1..] == [];
    assert ReadLiteral(lit) + [] == ReadLiteral(lit);
    assert segments + [] == segments;
  }
}
