/** The listings of a route with optional parameters: one for each choice of the parameters present. */
module RouteListing {
  import opened Basics
  import opened RouteText
  import opened RoutePath
  import opened AxumPath

  type Segments = seq<PathSegment>

  /** `s` in front of each of `lists`. */
  function Each(s: PathSegment, lists: seq<Segments>): seq<Segments> {
    seq(|lists|, i requires 0 <= i < |lists| => [s] + lists[i])
  }

  /** Every choice: each optional parameter is present (those choices first) or absent. */
  function Expanded(segments: Segments): (r: seq<Segments>)
    ensures r != []
  {
    if segments == [] then [[]]
    else
      var rest := Expanded(segments[1..]);
      match segments[0]
      case OptionalParam(name) => Each(ParamSegment(name), rest) + rest
      case s => Each(s, rest)
  }

  /** The index of the first optional parameter, from `i` on. */
  function OptionalAt(segments: Segments, i: nat): (r: Option<nat>)
    ensures r.Some? ==> i <= r.value < |segments| && segments[r.value].OptionalParam?
    ensures r.Some? ==> forall j :: i <= j < r.value ==> !segments[j].OptionalParam?
    ensures r.None? ==> forall j :: i <= j < |segments| ==> !segments[j].OptionalParam?
    decreases |segments| - i
  {
    if i >= |segments| then None
    else if segments[i].OptionalParam? then Some(i)
    else OptionalAt(segments, i + 1)
  }

  function Present(segments: Segments, i: nat): Segments
    requires i < |segments| && segments[i].OptionalParam?
  {
    segments[i := ParamSegment(segments[i].name)]
  }

  function Absent(segments: Segments, i: nat): Segments
    requires i < |segments|
  {
    segments[..i] + segments[i + 1..]
  }

  lemma EachConcat(s: PathSegment, a: seq<Segments>, b: seq<Segments>)
    ensures Each(s, a + b) == Each(s, a) + Each(s, b)
  {
  }

  lemma {:induction false} ExpandFirst(segments: Segments, i: nat)
    requires i < |segments| && segments[i].OptionalParam?
    requires forall j :: 0 <= j < i ==> !segments[j].OptionalParam?
    ensures Expanded(segments) == Expanded(Present(segments, i)) + Expanded(Absent(segments, i))
  {
    var s, rest := segments[0], segments[1..];
    if i == 0 {
      assert Present(segments, 0)[1..] == rest;
      assert Absent(segments, 0) == rest;
    } else {
      ExpandFirst(rest, i - 1);
      assert Present(segments, i)[1..] == Present(rest, i - 1);
      assert Absent(segments, i) == [s] + Absent(rest, i - 1);
      assert ([s] + Absent(rest, i - 1))[1..] == Absent(rest, i - 1);
      EachConcat(s, Expanded(Present(rest, i - 1)), Expanded(Absent(rest, i - 1)));
    }
  }

  lemma {:induction false} ExpandNone(segments: Segments)
    requires forall j :: 0 <= j < |segments| ==> !segments[j].OptionalParam?
    ensures Expanded(segments) == [segments]
  {
    if segments != [] {
      ExpandNone(segments[1..]);
      assert segments == [segments[0]] + segments[1..];
    }
  }

  /** `e` is the route with each optional parameter either a parameter or left out. */
  predicate Chosen(segments: Segments, e: Segments)
    decreases |segments|
  {
    if segments == [] then e == []
    else if segments[0].OptionalParam? then
      || (e != [] && e[0] == ParamSegment(segments[0].name) && Chosen(segments[1..], e[1..]))
      || Chosen(segments[1..], e)
    else e != [] && e[0] == segments[0] && Chosen(segments[1..], e[1..])
  }

  /** Exactly the choices are listed. */
  lemma {:induction false} ExpandedExactly(segments: Segments, e: Segments)
    ensures e in Expanded(segments) <==> Chosen(segments, e)
    decreases |segments|
  {
    if segments != [] {
      var rest := Expanded(segments[1..]);
      var s := if segments[0].OptionalParam? then ParamSegment(segments[0].name) else segments[0];
      EachExactly(s, rest, e);
      ExpandedExactly(segments[1..], e);
      if e != [] {
        ExpandedExactly(segments[1..], e[1..]);
      }
    }
  }

  lemma EachExactly(s: PathSegment, lists: seq<Segments>, e: Segments)
    ensures e in Each(s, lists) <==> e != [] && e[0] == s && e[1..] in lists
  {
    if e in Each(s, lists) {
      var i :| 0 <= i < |lists| && e == [s] + lists[i];
      assert e[1..] == lists[i];
    }
    if e != [] && e[0] == s && e[1..] in lists {
      var i :| 0 <= i < |lists| && lists[i] == e[1..];
      assert e == [s] + lists[i];
      assert Each(s, lists)[i] == e;
    }
  }

  function AllPresent(segments: Segments): Segments {
    if segments == [] then []
    else [if segments[0].OptionalParam? then ParamSegment(segments[0].name) else segments[0]] + AllPresent(segments[1..])
  }

  function AllAbsent(segments: Segments): Segments {
    if segments == [] then []
    else (if segments[0].OptionalParam? then [] else [segments[0]]) + AllAbsent(segments[1..])
  }

  function Twos(segments: Segments): nat {
    if segments == [] then 1
    else if segments[0].OptionalParam? then Twos(segments[1..]) + Twos(segments[1..])
    else Twos(segments[1..])
  }

  /** The listing with every parameter comes first, the one with none last, and each parameter doubles their number. */
  lemma {:induction false} ExpandedEnds(segments: Segments)
    ensures var r := Expanded(segments); r[0] == AllPresent(segments) && r[|r| - 1] == AllAbsent(segments) && |r| == Twos(segments)
  {
    if segments != [] {
      ExpandedEnds(segments[1..]);
      var rest := Expanded(segments[1..]);
      var n := |rest| - 1;
      var s := if segments[0].OptionalParam? then ParamSegment(segments[0].name) else segments[0];
      var each := Each(s, rest);
      assert each[0] == [s] + rest[0] && each[n] == [s] + rest[n] && |each| == |rest|;
      hide Each;
      if segments[0].OptionalParam? {
        assert Expanded(segments) == each + rest;
        assert (each + rest)[0] == each[0] && (each + rest)[|each| + n] == rest[n];
        assert [] + rest[n] == rest[n];
      } else {
        assert Expanded(segments) == each;
      }
    }
  }

  // ---- The work list of `expand_optionals`

  /** What the lists still on the stack expand to, from the top down. */
  function Due(stack: seq<Segments>): seq<Segments> {
    if stack == [] then [] else Expanded(stack[|stack| - 1]) + Due(stack[..|stack| - 1])
  }

  function Left(stack: seq<Segments>): nat {
    if stack == [] then 0 else 2 * |Expanded(stack[|stack| - 1])| - 1 + Left(stack[..|stack| - 1])
  }

  method ExpandOptionals(segments: Segments) returns (checked: seq<Segments>)
    ensures checked == Expanded(segments)
  {
    hide Expanded;
    var stack := [segments];
    checked := [];
    assert stack[..0] == [];
    while stack != []
      invariant checked + Due(stack) == Expanded(segments)
      decreases Left(stack)
    {
      var next := stack[|stack| - 1];
      ghost var below := stack[..|stack| - 1];
      match OptionalAt(next, 0) {
        case Some(i) =>
          ExpandFirst(next, i);
          Pushed(below, Absent(next, i), Present(next, i));
          stack := stack[..|stack| - 1] + [Absent(next, i)] + [Present(next, i)];
        case None =>
          ExpandNone(next);
          stack := stack[..|stack| - 1];
          assert checked + ([next] + Due(stack)) == checked + [next] + Due(stack);
          checked := checked + [next];
      }
    }
    assert checked + [] == checked;
  }

  lemma Pushed(below: seq<Segments>, a: Segments, b: Segments)
    ensures Due(below + [a] + [b]) == Expanded(b) + Expanded(a) + Due(below)
    ensures Left(below + [a] + [b]) == 2 * (|Expanded(b)| + |Expanded(a)|) - 2 + Left(below)
  {
    hide Expanded;
    var one := below + [a];
    var two := one + [b];
    assert two[..|two| - 1] == one && one[..|one| - 1] == below;
    assert Expanded(b) + (Expanded(a) + Due(below)) == Expanded(b) + Expanded(a) + Due(below);
  }

  /** `into_route_listing`: the path of each listing. */
  method IntoRouteListing(segments: Segments) returns (paths: seq<Text>)
    ensures |paths| == |Expanded(segments)|
    ensures forall i :: 0 <= i < |paths| ==> paths[i] == ListingPath(Expanded(segments)[i])
  {
    hide Expanded, AxumText;
    var lists := ExpandOptionals(segments);
    paths := [];
    for i := 0 to |lists|
      invariant |paths| == i && forall j :: 0 <= j < i ==> paths[j] == ListingPath(lists[j])
    {
      var path := ToAxumPath(lists[i]);
      paths := paths + [if path == [] then [SLASH] else path];
    }
  }

  // ---- Every listing is routable

  /** Segments whose names and static text are good, optional parameters included, a catch-all last. */
  predicate Listable(segments: Segments) {
    segments == [] ||
    (&& (GoodSegment(segments[0]) || (segments[0].OptionalParam? && GoodName(segments[0].name)))
     && Listable(segments[1..])
     && (segments[0].Splat? ==> segments[1..] == []))
  }

  lemma {:induction false} ExpandedPrintable(segments: Segments, e: Segments)
    requires Listable(segments) && e in Expanded(segments)
    ensures Printable(e)
  {
    if segments != [] {
      var rest := Expanded(segments[1..]);
      if e !in rest || !segments[0].OptionalParam? {
        var s := if segments[0].OptionalParam? then ParamSegment(segments[0].name) else segments[0];
        var i :| 0 <= i < |rest| && e == [s] + rest[i];
        assert e[1..] == rest[i] && rest[i] in rest;
      }
      forall x | x in rest ensures Printable(x) {
        ExpandedPrintable(segments[1..], x);
      }
    }
  }

  /** Each listing of a well-formed route, optional parameters or not, is a path the router reads as its segments. */
  lemma ListingsReadBack(segments: Segments, e: Segments)
    requires Listable(segments) && e in Expanded(segments) && ParamCount(e) <= MAX_PARAMS
    ensures Parse(ListingPath(e)) == Ok(if AxumText(e) == [] then [Literal(SLASH)] else RouteTokens(e))
  {
    ExpandedPrintable(segments, e);
    ListingReadBack(e);
  }
}
