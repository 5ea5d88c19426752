/** The routes added to one router so far, and the loop that adds them (route_path.rs, axum/mod.rs). */
module RouteRegistry {
  import opened Basics
  import opened RouteText
  import opened RoutePath
  import opened RouteMatch

  datatype Method =
    | Connect | Delete | Get | Head | Options | Patch | Post | Put | Trace
    | Extension(name: Text)

  datatype RouteError =
    | UnsupportedMethod(path: Text, method_: Method)
    | InvalidPath(path: Text, reason: PathError)
    | Duplicate(path: Text, method_: Method)
    | Conflict(path: Text, existing: Text)

  datatype RegisteredPath = RegisteredPath(path: Text, parsed: seq<Token>, methods: seq<Method>)

  type Routes = seq<RegisteredPath>

  /** The index of the route at `path`, from `i` on. */
  function PathAt(routes: Routes, path: Text, i: nat): (r: Option<nat>)
    ensures r.Some? ==> i <= r.value < |routes| && routes[r.value].path == path
    ensures r.None? ==> forall j :: i <= j < |routes| ==> routes[j].path != path
    decreases |routes| - i
  {
    if i >= |routes| then None else if routes[i].path == path then Some(i) else PathAt(routes, path, i + 1)
  }

  /** The index of the first route that conflicts with `parsed`, from `i` on. */
  function ConflictAt(routes: Routes, parsed: seq<Token>, i: nat): (r: Option<nat>)
    ensures r.Some? ==> i <= r.value < |routes| && Conflicts(routes[r.value].parsed, parsed)
    ensures r.None? ==> forall j :: i <= j < |routes| ==> !Conflicts(routes[j].parsed, parsed)
    decreases |routes| - i
  {
    if i >= |routes| then None else if Conflicts(routes[i].parsed, parsed) then Some(i) else ConflictAt(routes, parsed, i + 1)
  }

  /** `admit`: the routes after it, or why it refuses. */
  function Admitted(routes: Routes, path: Text, m: Method): Result<Routes, RouteError> {
    if m.Extension? then Err(UnsupportedMethod(path, m))
    else if Parse(path).Err? then Err(InvalidPath(path, Parse(path).error))
    else
      match PathAt(routes, path, 0)
      case Some(i) =>
        if m in routes[i].methods then Err(Duplicate(path, m))
        else Ok(routes[i := routes[i].(methods := routes[i].methods + [m])])
      case None =>
        match ConflictAt(routes, Parse(path).value, 0)
        case Some(i) => Err(Conflict(path, routes[i].path))
        case None => Ok(routes + [RegisteredPath(path, Parse(path).value, [m])])
  }

  // ---- What a registry holds

  /** Paths are distinct, parsed, and do not conflict; a path's methods are distinct and can be filtered. */
  ghost predicate Valid(routes: Routes) {
    && (forall i :: 0 <= i < |routes| ==> ValidPath(routes[i]))
    && (forall i, j :: 0 <= i < j < |routes| ==>
          routes[i].path != routes[j].path && !Conflicts(routes[i].parsed, routes[j].parsed))
  }

  ghost predicate ValidPath(r: RegisteredPath) {
    && Parse(r.path) == Ok(r.parsed)
    && r.methods != []
    && (forall i :: 0 <= i < |r.methods| ==> !r.methods[i].Extension?)
    && (forall i, j :: 0 <= i < j < |r.methods| ==> r.methods[i] != r.methods[j])
  }

  /** Whether `m` is routed at `path`. */
  ghost predicate Routed(routes: Routes, path: Text, m: Method) {
    exists i :: 0 <= i < |routes| && routes[i].path == path && m in routes[i].methods
  }

  lemma AdmitKeepsValid(routes: Routes, path: Text, m: Method)
    requires Valid(routes) && Admitted(routes, path, m).Ok?
    ensures Valid(Admitted(routes, path, m).value)
  {
    hide Parse, Conflicts;
  }

  /** What `admit` adds is the pair it was given, and nothing else. */
  lemma AdmitAdds(routes: Routes, path: Text, m: Method, p: Text, n: Method)
    requires Valid(routes) && Admitted(routes, path, m).Ok?
    ensures Routed(Admitted(routes, path, m).value, p, n) <==> Routed(routes, p, n) || (p == path && n == m)
  {
    hide Valid, Parse, Conflicts, ConflictAt, PathAt;
    var after := Admitted(routes, path, m).value;
    var k := if PathAt(routes, path, 0).Some? then PathAt(routes, path, 0).value else |routes|;
    assert k < |after| && after[k].path == path && m in after[k].methods;
    if Routed(routes, p, n) {
      var j :| 0 <= j < |routes| && routes[j].path == p && n in routes[j].methods;
      assert after[j].path == p && n in after[j].methods;
    }
    if Routed(after, p, n) {
      var j :| 0 <= j < |after| && after[j].path == p && n in after[j].methods;
      assert j != k ==> after[j] == routes[j];
    }
  }

  /** The first route that conflicts with the path. */
  ghost predicate FirstConflict(routes: Routes, parsed: seq<Token>, i: nat) {
    i < |routes| && Conflicts(routes[i].parsed, parsed) && forall j :: 0 <= j < i ==> !Conflicts(routes[j].parsed, parsed)
  }

  /** The path is one that could be routed, but it is not there. */
  predicate Unrouted(routes: Routes, path: Text) {
    forall i :: 0 <= i < |routes| ==> routes[i].path != path
  }

  /** Which error a refusal carries: the method, the path, the pair that is there already, or the first path in the way. */
  lemma RefusesExactly(routes: Routes, path: Text, m: Method, e: RouteError)
    requires Valid(routes)
    ensures Admitted(routes, path, m) == Err(e) <==>
      || (m.Extension? && e == UnsupportedMethod(path, m))
      || (!m.Extension? && Parse(path).Err? && e == InvalidPath(path, Parse(path).error))
      || (!m.Extension? && Parse(path).Ok? && Routed(routes, path, m) && e == Duplicate(path, m))
      || (!m.Extension? && Parse(path).Ok? && Unrouted(routes, path)
          && exists i: nat :: FirstConflict(routes, Parse(path).value, i) && e == Conflict(path, routes[i].path))
  {
    hide Parse, Conflicts;
    if !m.Extension? && Parse(path).Ok? {
      var same := PathAt(routes, path, 0);
      if same.Some? {
        assert forall j :: 0 <= j < |routes| && routes[j].path == path ==> j == same.value;
      } else {
        ConflictAtFirst(routes, Parse(path).value, 0);
        var clash := ConflictAt(routes, Parse(path).value, 0);
        if clash.Some? {
          assert FirstConflict(routes, Parse(path).value, clash.value);
        }
      }
    }
  }

  lemma {:induction false} ConflictAtFirst(routes: Routes, parsed: seq<Token>, i: nat)
    ensures var r := ConflictAt(routes, parsed, i);
      r.Some? ==> forall j :: i <= j < r.value ==> !Conflicts(routes[j].parsed, parsed)
    decreases |routes| - i
  {
    hide Conflicts;
    if i < |routes| && !Conflicts(routes[i].parsed, parsed) {
      ConflictAtFirst(routes, parsed, i + 1);
    }
  }

  // ---- Runs of `admit`

  datatype Pair = Pair(path: Text, method_: Method)

  /** Whether one router can take the pair at all. */
  predicate Routable(p: Pair) {
    !p.method_.Extension? && Parse(p.path).Ok?
  }

  /** Whether one router can take both of two routable pairs. */
  predicate Together(p: Pair, q: Pair)
    requires Routable(p) && Routable(q)
  {
    if p.path == q.path then p.method_ != q.method_ else !Conflicts(Parse(p.path).value, Parse(q.path).value)
  }

  /** The pairs are all admitted, one after the other. */
  function AdmittedAll(routes: Routes, pairs: seq<Pair>): Result<Routes, RouteError>
    decreases |pairs|
  {
    if pairs == [] then Ok(routes)
    else
      match Admitted(routes, pairs[0].path, pairs[0].method_)
      case Err(e) => Err(e)
      case Ok(after) => AdmittedAll(after, pairs[1..])
  }

  /** The pair goes with everything that is routed. */
  ghost predicate Fits(routes: Routes, p: Pair)
    requires Valid(routes) && Routable(p)
  {
    forall i :: 0 <= i < |routes| ==>
      if routes[i].path == p.path then p.method_ !in routes[i].methods
      else !Conflicts(routes[i].parsed, Parse(p.path).value)
  }

  /** `admit` accepts exactly the routable pairs that fit: a duplicate or a conflict is refused, nothing else. */
  lemma AdmitsExactly(routes: Routes, p: Pair)
    requires Valid(routes)
    ensures Admitted(routes, p.path, p.method_).Ok? <==> Routable(p) && Fits(routes, p)
  {
    if Routable(p) {
      match PathAt(routes, p.path, 0)
      case Some(i) =>
        forall j | 0 <= j < |routes| && j != i ensures routes[j].path != p.path && !Conflicts(routes[j].parsed, routes[i].parsed) {
          ConflictsSymmetric(routes[i].parsed, routes[j].parsed);
        }
      case None =>
    }
  }

  /** After a pair is admitted, the pairs that fit are those that fitted before and go with it. */
  lemma FitsAfter(routes: Routes, p: Pair, q: Pair)
    requires Valid(routes) && Routable(p) && Routable(q) && Admitted(routes, p.path, p.method_).Ok?
    ensures Valid(Admitted(routes, p.path, p.method_).value)
    ensures Fits(Admitted(routes, p.path, p.method_).value, q) <==> Fits(routes, q) && Together(p, q)
  {
    AdmitKeepsValid(routes, p.path, p.method_);
    var after := Admitted(routes, p.path, p.method_).value;
    match PathAt(routes, p.path, 0)
    case Some(i) =>
      assert p.method_ in after[i].methods && after[i].path == p.path;
      assert forall j :: 0 <= j < |routes| ==> after[j].path == routes[j].path && after[j].parsed == routes[j].parsed;
    case None =>
      assert after[|routes|].path == p.path && after[|routes|].parsed == Parse(p.path).value && after[|routes|].methods == [p.method_];
      assert forall j :: 0 <= j < |routes| ==> after[j] == routes[j];
  }

  /** All the pairs are routable, and every two of them go together. */
  ghost predicate AllTogether(pairs: seq<Pair>) {
    && (forall i :: 0 <= i < |pairs| ==> Routable(pairs[i]))
    && (forall i, j :: 0 <= i < j < |pairs| ==> Together(pairs[i], pairs[j]))
  }

  /** A list of pairs is admitted in full exactly if every pair fits and every two go together. */
  lemma {:induction false} AdmitsAllExactly(routes: Routes, pairs: seq<Pair>)
    requires Valid(routes)
    ensures AdmittedAll(routes, pairs).Ok? <==>
      AllTogether(pairs) && forall i :: 0 <= i < |pairs| ==> Fits(routes, pairs[i])
    ensures AdmittedAll(routes, pairs).Ok? ==> Valid(AdmittedAll(routes, pairs).value)
    decreases |pairs|
  {
    hide Valid, Fits, Conflicts, Parse, Admitted;
    if pairs != [] {
      var p, rest := pairs[0], pairs[1..];
      AdmitsExactly(routes, p);
      assert forall i :: 0 <= i < |rest| ==> rest[i] == pairs[i + 1];
      match Admitted(routes, p.path, p.method_)
      case Ok(after) =>
        AdmitKeepsValid(routes, p.path, p.method_);
        AdmitsAllExactly(after, rest);
        forall i | 0 <= i < |rest| && Routable(rest[i])
          ensures Fits(after, rest[i]) <==> Fits(routes, rest[i]) && Together(p, rest[i])
        {
          FitsAfter(routes, p, rest[i]);
        }
        if AdmittedAll(routes, pairs).Ok? {
          forall i | 0 <= i < |pairs| ensures Routable(pairs[i]) && Fits(routes, pairs[i]) {
            assert i > 0 ==> pairs[i] == rest[i - 1];
          }
          forall i, j | 0 <= i < j < |pairs| ensures Together(pairs[i], pairs[j]) {
            assert pairs[j] == rest[j - 1];
            assert i > 0 ==> pairs[i] == rest[i - 1];
          }
        }
      case Err(_) =>
    }
  }

  // ---- The order of registration does not matter

  lemma TogetherSymmetric(p: Pair, q: Pair)
    requires Routable(p) && Routable(q)
    ensures Together(p, q) == Together(q, p)
  {
    ConflictsSymmetric(Parse(p.path).value, Parse(q.path).value);
  }

  lemma {:induction false} CountTwice<T>(s: seq<T>, i: nat, j: nat)
    requires i < j < |s| && s[i] == s[j]
    ensures multiset(s)[s[i]] >= 2
  {
    assert s == s[..j] + s[j..];
    assert s[i] == s[..j][i] && s[j] == s[j..][0];
    assert multiset(s) == multiset(s[..j]) + multiset(s[j..]);
    assert s[i] in multiset(s[..j]) && s[j] in multiset(s[j..]);
  }

  lemma {:induction false} FoundTwice<T>(s: seq<T>, x: T) returns (i: nat, j: nat)
    requires multiset(s)[x] >= 2
    ensures i < j < |s| && s[i] == s[j] == x
  {
    var n := |s| - 1;
    assert s == s[..n] + [s[n]];
    if s[n] == x {
      assert x in multiset(s[..n]) by {
        assert multiset(s)[x] == multiset(s[..n])[x] + 1;
      }
      i :| 0 <= i < n && s[i] == x;
      j := n;
    } else {
      i, j := FoundTwice(s[..n], x);
    }
  }

  /** Any order of pairs that a fresh registry admits in full is admitted in full. */
  lemma PermutationAdmitted(pairs: seq<Pair>, perm: seq<Pair>)
    requires multiset(perm) == multiset(pairs)
    requires AdmittedAll([], pairs).Ok?
    ensures AdmittedAll([], perm).Ok?
  {
    hide AdmittedAll, Together, Routable;
    AdmitsAllExactly([], pairs);
    AdmitsAllExactly([], perm);
    forall i | 0 <= i < |perm| ensures Routable(perm[i]) {
      assert perm[i] in multiset(pairs);
    }
    forall i, j | 0 <= i < j < |perm| ensures Together(perm[i], perm[j]) {
      TogetherAnywhere(pairs, perm, i, j);
    }
  }

  lemma TogetherAnywhere(pairs: seq<Pair>, perm: seq<Pair>, i: nat, j: nat)
    requires multiset(perm) == multiset(pairs) && AllTogether(pairs) && i < j < |perm|
    ensures Routable(perm[i]) && Routable(perm[j]) && Together(perm[i], perm[j])
  {
    assert perm[i] in multiset(pairs) && perm[j] in multiset(pairs);
    if perm[i] == perm[j] {
      CountTwice(perm, i, j);
      var a, b := FoundTwice(pairs, perm[i]);
      assert false;
    } else {
      var a :| 0 <= a < |pairs| && pairs[a] == perm[i];
      var b :| 0 <= b < |pairs| && pairs[b] == perm[j];
      TogetherSymmetric(pairs[a], pairs[b]);
    }
  }

  // ---- Requests

  function ParsedOf(routes: Routes): seq<seq<Token>> {
    seq(|routes|, i requires 0 <= i < |routes| => routes[i].parsed)
  }

  /** Whatever is admitted, a request has at most one best route. */
  lemma RegistryWinner(routes: Routes, r: Text) returns (w: nat)
    requires Valid(routes)
    requires exists i :: 0 <= i < |routes| && Matches(routes[i].parsed, r)
    ensures Wins(ParsedOf(routes), r, w) && forall v: nat :: Wins(ParsedOf(routes), r, v) ==> v == w
  {
    var ps := ParsedOf(routes);
    forall i | 0 <= i < |ps| ensures WellFormed(ps[i]) {
      ParsedWellFormed(routes[i].path);
    }
    var i :| 0 <= i < |routes| && Matches(routes[i].parsed, r);
    assert Matches(ps[i], r);
    w := OneWinner(ps, r);
  }

  // ---- The registry and the loop that fills it

  class Registry {
    var routes: Routes

    constructor ()
      ensures routes == []
    {
      routes := [];
    }

    /** `self.routes.iter().position(|r| r.path == path)`. */
    method FindPath(path: Text) returns (found: Option<nat>)
      ensures found == PathAt(routes, path, 0)
    {
      var i := 0;
      while i < |routes|
        invariant 0 <= i <= |routes| && PathAt(routes, path, 0) == PathAt(routes, path, i)
      {
        if routes[i].path == path {
          return Some(i);
        }
        i := i + 1;
      }
      return None;
    }

    /** `self.routes.iter().position(|r| r.parsed.conflicts_with(parsed))`. */
    method FindConflict(parsed: seq<Token>) returns (found: Option<nat>)
      ensures found == ConflictAt(routes, parsed, 0)
    {
      var i := 0;
      while i < |routes|
        invariant 0 <= i <= |routes| && ConflictAt(routes, parsed, 0) == ConflictAt(routes, parsed, i)
      {
        var conflict := ConflictsWith(routes[i].parsed, parsed);
        if conflict {
          return Some(i);
        }
        i := i + 1;
      }
      return None;
    }

    /** `admit`: a refusal leaves the registry as it was. */
    method Admit(path: Text, m: Method) returns (refused: Option<RouteError>)
      modifies this
      ensures refused.None? ==> Admitted(old(routes), path, m) == Ok(routes)
      ensures refused.Some? ==> Admitted(old(routes), path, m) == Err(refused.value) && routes == old(routes)
    {
      if m.Extension? {
        return Some(UnsupportedMethod(path, m));
      }
      var parsed := ParsePath(path);
      if parsed.Err? {
        return Some(InvalidPath(path, parsed.error));
      }
      var same := FindPath(path);
      if same.Some? {
        var i := same.value;
        if m in routes[i].methods {
          return Some(Duplicate(path, m));
        }
        routes := routes[i := routes[i].(methods := routes[i].methods + [m])];
        return None;
      }
      var clash := FindConflict(parsed.value);
      if clash.Some? {
        return Some(Conflict(path, routes[clash.value].path));
      }
      routes := routes + [RegisteredPath(path, parsed.value, [m])];
      return None;
    }

    /** The registration loop: each pair is routed, or refused and left out. */
    method Register(offered: seq<Pair>) returns (router: seq<Pair>)
      modifies this
      ensures Kept(old(routes), offered) == Filled(routes, router)
    {
      router := [];
      for i := 0 to |offered|
        invariant Kept(old(routes), offered) == FilledAfter(router, Kept(routes, offered[i..]))
      {
        assert offered[i..][1..] == offered[i + 1..];
        var p := offered[i];
        var refused := Admit(p.path, p.method_);
        if refused.None? {
          FilledStep(router, p, Kept(routes, offered[i + 1..]));
          router := router + [p];
        }
      }
      assert router + [] == router;
    }
  }

  /** A registry, and the pairs routed so far. */
  datatype Filled = Filled(routes: Routes, router: seq<Pair>)

  function FilledAfter(router: seq<Pair>, f: Filled): Filled {
    Filled(f.routes, router + f.router)
  }

  lemma FilledStep(router: seq<Pair>, p: Pair, f: Filled)
    ensures FilledAfter(router, FilledAfter([p], f)) == FilledAfter(router + [p], f)
  {
    assert router + ([p] + f.router) == router + [p] + f.router;
  }

  /** What is kept of the pairs that are offered. */
  function Kept(routes: Routes, offered: seq<Pair>): Filled
    decreases |offered|
  {
    if offered == [] then Filled(routes, [])
    else
      match Admitted(routes, offered[0].path, offered[0].method_)
      case Ok(after) => FilledAfter([offered[0]], Kept(after, offered[1..]))
      case Err(_) => Kept(routes, offered[1..])
  }

  /** The router is given only pairs it can hold together, in the order they were offered. */
  lemma {:induction false} KeptTogether(routes: Routes, offered: seq<Pair>)
    requires Valid(routes)
    ensures AdmittedAll(routes, Kept(routes, offered).router) == Ok(Kept(routes, offered).routes)
    ensures Valid(Kept(routes, offered).routes) && AllTogether(Kept(routes, offered).router)
    decreases |offered|
  {
    hide Valid, AllTogether, Admitted;
    if offered != [] {
      var p := offered[0];
      match Admitted(routes, p.path, p.method_)
      case Ok(after) =>
        AdmitKeepsValid(routes, p.path, p.method_);
        KeptTogether(after, offered[1..]);
        var k := Kept(after, offered[1..]);
        assert ([p] + k.router)[1..] == k.router;
      case Err(_) => KeptTogether(routes, offered[1..]);
    }
    AdmitsAllExactly(routes, Kept(routes, offered).router);
  }

  /** No more than necessary is left out: what is refused would not fit the finished router either. */
  lemma {:induction false} KeptAll(routes: Routes, offered: seq<Pair>, q: Pair)
    requires Valid(routes)
    ensures Valid(Kept(routes, offered).routes)
    ensures q in offered && q !in Kept(routes, offered).router ==> !(Routable(q) && Fits(Kept(routes, offered).routes, q))
    ensures Routable(q) && Fits(Kept(routes, offered).routes, q) ==> Fits(routes, q)
    decreases |offered|
  {
    hide Valid, Fits, Routable, Admitted;
    if offered != [] {
      var p := offered[0];
      AdmitsExactly(routes, p);
      match Admitted(routes, p.path, p.method_)
      case Ok(after) =>
        AdmitKeepsValid(routes, p.path, p.method_);
        KeptAll(after, offered[1..], q);
        if Routable(q) {
          FitsAfter(routes, p, q);
        }
      case Err(_) => KeptAll(routes, offered[1..], q);
    }
  }
}
