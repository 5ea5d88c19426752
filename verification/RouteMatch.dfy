/**
What routes mean: which requests a parsed path matches, and why the conflict check says exactly
when two paths are ambiguous.

A parameter takes the rest of its segment and a catch-all the rest of the request, neither of them
empty. Where two paths that match a request part, a literal goes before a wildcard.
*/
module RouteMatch {
  import opened Basics
  import opened RouteText
  import opened RoutePath

  /** The shape `Parse` gives: a parameter ends its segment, a catch-all ends the path. */
  predicate WellFormed(ts: seq<Token>) {
    ts == [] ||
    match ts[0]
    case Literal(_) => WellFormed(ts[1..])
    case Param => (ts[1..] == [] || ts[1] == Literal(SLASH)) && WellFormed(ts[1..])
    case CatchAll(_) => ts[1..] == []
  }

  lemma {:induction false} TokensWellFormed(marks: seq<Mark>, params: nat)
    requires Tokens(marks, params).Ok?
    ensures WellFormed(Tokens(marks, params).value)
    ensures marks == [] <==> Tokens(marks, params).value == []
    ensures marks != [] && marks[0].byte == SLASH ==> Tokens(marks, params).value[0] == Literal(SLASH)
    decreases |marks|
  {
    if marks != [] {
      if marks[0].escaped || !IsBrace(marks[0].byte) {
        TokensWellFormed(marks[1..], params);
        var ts := Tokens(marks[1..], params).value;
        assert ([Literal(marks[0].byte)] + ts)[1..] == ts;
      } else {
        var Wild(token, after) := ReadWildcard(marks[1..]).value;
        var n := if token.Param? then params + 1 else params;
        TokensWellFormed(after, n);
        var ts := Tokens(after, n).value;
        assert ([token] + ts)[1..] == ts;
      }
    }
  }

  lemma UnescapeFirst(path: Text)
    requires path != [] && path[0] == SLASH
    ensures Unescape(path) != [] && Unescape(path)[0] == Mark(SLASH, false)
  {
  }

  /** Every path the router accepts is well formed and starts at the root. */
  lemma ParsedWellFormed(path: Text)
    requires Parse(path).Ok?
    ensures WellFormed(Parse(path).value)
    ensures Parse(path).value != [] && Parse(path).value[0] == Literal(SLASH)
  {
    UnescapeFirst(path);
    TokensWellFormed(Unescape(path), 0);
  }

  // ---- Matching

  /** The length of the segment that `r` starts with. */
  function SegmentLength(r: Text): (n: nat)
    ensures n <= |r|
    ensures n < |r| ==> r[n] == SLASH
    ensures forall i :: 0 <= i < n ==> r[i] != SLASH
  {
    if r == [] || r[0] == SLASH then 0 else 1 + SegmentLength(r[1..])
  }

  /** Whether the path matches the request. */
  predicate Matches(ts: seq<Token>, r: Text)
    decreases |ts|
  {
    if ts == [] then r == []
    else
      match ts[0]
      case Literal(b) => r != [] && r[0] == b && Matches(ts[1..], r[1..])
      case Param => SegmentLength(r) > 0 && Matches(ts[1..], r[SegmentLength(r)..])
      case CatchAll(_) => r != [] && ts[1..] == []
  }

  lemma {:induction false} OneSegment(r: Text)
    ensures SegmentLength(r) == |r| <==> SLASH !in r
  {
    if r != [] {
      OneSegment(r[1..]);
    }
  }

  lemma LiteralMatches(b: Byte, r: Text)
    ensures Matches([Literal(b)], r) <==> r == [b]
  {
    assert [Literal(b)][1..] == [];
    if r != [] {
      assert Matches([], r[1..]) <==> r[1..] == [];
      assert r == [r[0]] + r[1..];
    }
  }

  lemma ParamMatches(r: Text)
    ensures Matches([Param], r) <==> r != [] && SLASH !in r
  {
    assert [Param][1..] == [];
    OneSegment(r);
    var rest := r[SegmentLength(r)..];
    assert Matches([], rest) <==> rest == [];
  }

  /** A literal matches its byte, a parameter one segment that is not empty, and a catch-all anything but nothing. */
  lemma TokenMatches(b: Byte, name: Text, r: Text)
    ensures Matches([Literal(b)], r) <==> r == [b]
    ensures Matches([Param], r) <==> r != [] && SLASH !in r
    ensures Matches([CatchAll(name)], r) <==> r != []
  {
    LiteralMatches(b, r);
    ParamMatches(r);
    assert [CatchAll(name)][1..] == [];
    assert Matches([CatchAll(name)], r) <==> r != [];
    hide Matches;
  }

  /** At the first token where the paths differ, `a` has a literal and `b` a wildcard. */
  predicate Precedes(a: seq<Token>, b: seq<Token>) {
    a != [] && b != [] &&
    if a[0] == b[0] then Precedes(a[1..], b[1..]) else a[0].Literal? && b[0].IsWildcard()
  }

  /** Two paths that match one request conflict, unless a literal decides between them. */
  lemma {:induction false} MatchBoth(a: seq<Token>, b: seq<Token>, r: Text)
    requires WellFormed(a) && WellFormed(b) && Matches(a, r) && Matches(b, r)
    ensures Conflicts(a, b) || Precedes(a, b) || Precedes(b, a)
    decreases |a|
  {
    if a != [] && b != [] && a[0] == b[0] {
      match a[0]
      case Literal(_) => MatchBoth(a[1..], b[1..], r[1..]);
      case Param => MatchBoth(a[1..], b[1..], r[SegmentLength(r)..]);
      case CatchAll(_) =>
    }
  }

  /** A conflict is not decided by a literal. */
  lemma ConflictUndecided(a: seq<Token>, b: seq<Token>)
    requires Conflicts(a, b)
    ensures !Precedes(a, b) && !Precedes(b, a)
  {
  }

  const SAMPLE: Byte := 120  // x

  /** A request that the path matches. */
  function Instance(ts: seq<Token>): Text {
    if ts == [] then []
    else (match ts[0] case Literal(b) => [b] case _ => [SAMPLE]) + Instance(ts[1..])
  }

  lemma SampleSegment(r: Text)
    requires r == [] || r[0] == SLASH
    ensures SegmentLength([SAMPLE] + r) == 1 && ([SAMPLE] + r)[1..] == r
  {
    assert ([SAMPLE] + r)[1..] == r;
  }

  lemma {:induction false} InstanceMatches(ts: seq<Token>)
    requires WellFormed(ts)
    ensures Matches(ts, Instance(ts))
    ensures ts == [] || Instance(ts) != []
    ensures ts != [] && ts[0] == Literal(SLASH) ==> Instance(ts)[0] == SLASH
  {
    if ts != [] {
      match ts[0]
      case Literal(b) =>
        InstanceMatches(ts[1..]);
        assert ([b] + Instance(ts[1..]))[1..] == Instance(ts[1..]);
      case Param =>
        InstanceMatches(ts[1..]);
        SampleSegment(Instance(ts[1..]));
      case CatchAll(_) =>
    }
  }

  /** A request that both of two conflicting paths match. */
  function Clash(a: seq<Token>, b: seq<Token>): Text
    requires Conflicts(a, b)
  {
    if a == [] then []
    else if a[0] == b[0] then (match a[0] case Literal(x) => [x] case _ => [SAMPLE]) + Clash(a[1..], b[1..])
    else if a[0].Param? then Instance(a) else Instance(b)
  }

  lemma {:induction false} ClashMatches(a: seq<Token>, b: seq<Token>)
    requires WellFormed(a) && WellFormed(b) && Conflicts(a, b)
    ensures Matches(a, Clash(a, b)) && Matches(b, Clash(a, b))
    ensures a != [] && a[0] == b[0] == Literal(SLASH) ==> Clash(a, b) != [] && Clash(a, b)[0] == SLASH
    decreases |a|
  {
    if a != [] {
      if a[0] == b[0] {
        var rest := Clash(a[1..], b[1..]);
        match a[0]
        case Literal(x) =>
          ClashMatches(a[1..], b[1..]);
          assert ([x] + rest)[1..] == rest;
        case Param =>
          ClashMatches(a[1..], b[1..]);
          SampleSegment(rest);
        case CatchAll(_) =>
      } else {
        InstanceMatches(a);
        InstanceMatches(b);
      }
    }
  }

  predicate MatchesBoth(a: seq<Token>, b: seq<Token>, r: Text) {
    Matches(a, r) && Matches(b, r)
  }

  /**
  The conflict check is exact: two paths conflict if and only if some request matches both and no
  literal against a wildcard decides between them.
  */
  lemma ConflictIsAmbiguity(a: seq<Token>, b: seq<Token>)
    requires WellFormed(a) && WellFormed(b)
    ensures Conflicts(a, b) <==> (exists r :: MatchesBoth(a, b, r)) && !Precedes(a, b) && !Precedes(b, a)
  {
    hide Conflicts, Precedes, Matches, WellFormed;
    if Conflicts(a, b) {
      ClashMatches(a, b);
      ConflictUndecided(a, b);
      assert MatchesBoth(a, b, Clash(a, b));
    } else if exists r :: MatchesBoth(a, b, r) {
      var r :| MatchesBoth(a, b, r);
      MatchBoth(a, b, r);
    }
  }

  // ---- The winner

  lemma PrecedesAsymmetric(a: seq<Token>, b: seq<Token>)
    requires Precedes(a, b)
    ensures !Precedes(b, a)
  {
  }

  lemma PrecedesTransitive(a: seq<Token>, b: seq<Token>, c: seq<Token>)
    requires Precedes(a, b) && Precedes(b, c)
    ensures Precedes(a, c)
  {
  }

  /** Routes that one router can hold. */
  ghost predicate Compatible(routes: seq<seq<Token>>) {
    && (forall i :: 0 <= i < |routes| ==> WellFormed(routes[i]))
    && (forall i, j :: 0 <= i < j < |routes| ==> !Conflicts(routes[i], routes[j]))
  }

  /** The route at `w` matches the request, and goes before every other one that does. */
  ghost predicate Wins(routes: seq<seq<Token>>, r: Text, w: nat) {
    && w < |routes| && Matches(routes[w], r)
    && forall i :: 0 <= i < |routes| && i != w && Matches(routes[i], r) ==> Precedes(routes[w], routes[i])
  }

  /** Among the routes that match a request, every two are ordered, one way only. */
  lemma StrictlyOrdered(routes: seq<seq<Token>>, r: Text, i: nat, j: nat)
    requires Compatible(routes) && i < |routes| && j < |routes| && i != j
    requires Matches(routes[i], r) && Matches(routes[j], r)
    ensures Precedes(routes[i], routes[j]) <==> !Precedes(routes[j], routes[i])
  {
    ConflictsSymmetric(routes[i], routes[j]);
    MatchBoth(routes[i], routes[j], r);
    if Precedes(routes[i], routes[j]) {
      PrecedesAsymmetric(routes[i], routes[j]);
    }
  }

  /** A request that some route matches has exactly one winner. */
  lemma {:induction false} OneWinner(routes: seq<seq<Token>>, r: Text) returns (w: nat)
    requires Compatible(routes)
    requires exists i :: 0 <= i < |routes| && Matches(routes[i], r)
    ensures Wins(routes, r, w)
    ensures forall v: nat :: Wins(routes, r, v) ==> v == w
  {
    var n := |routes| - 1;
    var init := routes[..n];
    assert forall i :: 0 <= i < n ==> init[i] == routes[i];
    if exists i :: 0 <= i < n && Matches(init[i], r) {
      w := OneWinner(init, r);
      if Matches(routes[n], r) {
        StrictlyOrdered(routes, r, w, n);
        if Precedes(routes[n], routes[w]) {
          forall i | 0 <= i < n && Matches(routes[i], r) ensures Precedes(routes[n], routes[i]) {
            if i != w {
              PrecedesTransitive(routes[n], routes[w], routes[i]);
            }
          }
          w := n;
        }
      }
    } else {
      w := n;
    }
    forall v: nat | Wins(routes, r, v) ensures v == w {
      if v != w {
        PrecedesAsymmetric(routes[w], routes[v]);
      }
    }
  }
}
