/**
Strong reads (`wait_for` in gone.rs, with the refusal note of reentry.rs): a read is attempted until it
gives a value, and given up if what refused it is this very thread.

What an attempt does to the thread's two cells is a tree: reads inside it are refused, take the
recorded site, or are strong reads themselves, attempted in turn.
*/
module StrongRead {
  import opened Basics

  type Site = nat
  type Value = nat
  type Refusal = nat

  datatype Act =
    | Refuse(why: Refusal)                             // `refuse_here`
    | TakeSite                                         // `take_strong_read_site`
    | Read(at: Site, attempts: seq<Attempt>)           // a strong read further in

  /** What an attempt does, and the value it gives, if any. */
  datatype Attempt = Attempt(acts: seq<Act>, value: Option<Value>)

  /** The thread's cells `REFUSED_HERE` and `STRONG_READ_AT`, and what was taken from the second so far. */
  datatype Cells = Cells(note: Option<Refusal>, site: Option<Site>, taken: seq<Option<Site>>)

  /** A read gives a value, aborts the process, or is still waiting after all the attempts there are. */
  datatype Outcome = Gave(value: Value) | Aborted(at: Site, note: Option<Refusal>) | Waiting

  datatype Ran = Ran(cells: Cells, outcome: Outcome)

  /** After the acts: the cells, and the outcome of a read inside that did not come back. */
  datatype Acted = Acted(cells: Cells, stopped: Option<Outcome>)

  function RunAct(act: Act, cells: Cells, single: bool): Acted
    decreases act, 0
  {
    match act
    case Refuse(why) => Acted(cells.(note := Some(why)), None)
    case TakeSite => Acted(cells.(site := None, taken := cells.taken + [cells.site]), None)
    case Read(at, attempts) =>
      var ran := RunRead(at, attempts, cells, single);
      Acted(ran.cells, if ran.outcome.Gave? then None else Some(ran.outcome))
  }

  function RunActs(acts: seq<Act>, cells: Cells, single: bool): Acted
    decreases acts, 1
  {
    if acts == [] then Acted(cells, None)
    else
      var first := RunAct(acts[0], cells, single);
      if first.stopped.Some? then first else RunActs(acts[1..], first.cells, single)
  }

  /** `wait_for`; `single`: there is no other thread to wait for. */
  function RunRead(at: Site, attempts: seq<Attempt>, cells: Cells, single: bool): Ran
    decreases attempts, 1
  {
    if attempts == [] then Ran(cells, Waiting)
    else
      var acted := RunActs(attempts[0].acts, Cells(None, Some(at), cells.taken), single);
      if acted.stopped.Some? then Ran(acted.cells, acted.stopped.value)
      else
        var after := acted.cells.(site := cells.site);
        if attempts[0].value.Some? then Ran(after, Gave(attempts[0].value.value))
        else if after.note.Some? || single then Ran(after.(note := None), Aborted(at, after.note))
        else RunRead(at, attempts[1..], after, single)
  }

  class Thread {
    var note: Option<Refusal>
    var site: Option<Site>
    var taken: seq<Option<Site>>  // what `TakeSite` gave, in turn

    constructor ()
      ensures Now() == Cells(None, None, [])
    {
      note, site, taken := None, None, [];
    }

    function Now(): Cells
      reads this
    {
      Cells(note, site, taken)
    }

    method TakeRefusal() returns (r: Option<Refusal>)
      modifies this`note
      ensures r == old(note) && note == None
    {
      r := note;
      note := None;
    }

    /** `take_strong_read_site`: further reads do not see it. */
    method TakeStrongReadSite() returns (r: Option<Site>)
      modifies this`site, this`taken
      ensures r == old(site) && site == None && taken == old(taken) + [r]
    {
      r := site;
      site, taken := None, taken + [r];
    }

    method Perform(acts: seq<Act>, single: bool) returns (stopped: Option<Outcome>)
      modifies this
      ensures Acted(Now(), stopped) == RunActs(acts, old(Now()), single)
      decreases acts, 1
    {
      stopped := None;
      ghost var start := Now();
      for i := 0 to |acts|
        invariant RunActs(acts, start, single) == RunActs(acts[i..], Now(), single)
      {
        assert acts[i..][1..] == acts[i + 1..];
        match acts[i] {
          case Refuse(why) => note := Some(why);
          case TakeSite =>
            var _ := TakeStrongReadSite();
          case Read(at, attempts) =>
            var outcome := WaitFor(at, attempts, single);
            if !outcome.Gave? {
              return Some(outcome);
            }
        }
      }
    }

    method WaitFor(at: Site, attempts: seq<Attempt>, single: bool) returns (outcome: Outcome)
      modifies this
      ensures Ran(Now(), outcome) == RunRead(at, attempts, old(Now()), single)
      decreases attempts, 1
    {
      ghost var start := Now();
      for i := 0 to |attempts|
        invariant RunRead(at, attempts, start, single) == RunRead(at, attempts[i..], Now(), single)
      {
        assert attempts[i..][1..] == attempts[i + 1..];
        var _ := TakeRefusal();
        var outer := site;
        site := Some(at);
        var stopped := Perform(attempts[i].acts, single);
        if stopped.Some? {
          return stopped.value;
        }
        site := outer;
        if attempts[i].value.Some? {
          return Gave(attempts[i].value.value);
        }
        var refusal := TakeRefusal();
        if refusal.Some? || single {
          return Aborted(at, refusal);
        }
      }
      outcome := Waiting;
    }
  }

  // ---- What a read gives

  lemma {:induction false} StoppedShort(acts: seq<Act>, cells: Cells, single: bool)
    ensures var stopped := RunActs(acts, cells, single).stopped; stopped.Some? ==> !stopped.value.Gave?
    decreases |acts|
  {
    if acts != [] {
      StoppedShort(acts[1..], RunAct(acts[0], cells, single).cells, single);
    }
  }

  /** A read that gives a value gives that of its first attempt to have one, and leaves the recorded site as it found it. */
  lemma {:induction false} GivesAttemptsValue(at: Site, attempts: seq<Attempt>, cells: Cells, single: bool) returns (i: nat)
    requires RunRead(at, attempts, cells, single).outcome.Gave?
    ensures i < |attempts| && attempts[i].value == Some(RunRead(at, attempts, cells, single).outcome.value)
    ensures forall j :: 0 <= j < i ==> attempts[j].value.None?
    ensures RunRead(at, attempts, cells, single).cells.site == cells.site
    decreases |attempts|
  {
    hide RunActs;
    StoppedShort(attempts[0].acts, Cells(None, Some(at), cells.taken), single);
    if attempts[0].value.Some? {
      i := 0;
    } else {
      var after := RunActs(attempts[0].acts, Cells(None, Some(at), cells.taken), single).cells.(site := cells.site);
      var k := GivesAttemptsValue(at, attempts[1..], after, single);
      i := k + 1;
    }
  }

  // ---- What a read decides on

  /** What a read does is the same whatever is in the cells, so no earlier note can abort it. */
  lemma {:induction false} EarlierNotesIgnored(at: Site, attempts: seq<Attempt>, a: Cells, b: Cells, single: bool)
    ensures RunRead(at, attempts, a, single).outcome == RunRead(at, attempts, b, single).outcome
    ensures attempts != [] ==> RunRead(at, attempts, a, single).cells.note == RunRead(at, attempts, b, single).cells.note
    decreases attempts, 1
  {
    if attempts != [] {
      var started, other := Cells(None, Some(at), a.taken), Cells(None, Some(at), b.taken);
      SameActs(attempts[0].acts, started, other, single);
      var x, y := RunActs(attempts[0].acts, started, single).cells, RunActs(attempts[0].acts, other, single).cells;
      EarlierNotesIgnored(at, attempts[1..], x.(site := a.site), y.(site := b.site), single);
    }
  }

  /** Acts depend on the note alone. */
  lemma {:induction false} SameActs(acts: seq<Act>, a: Cells, b: Cells, single: bool)
    requires a.note == b.note
    ensures RunActs(acts, a, single).stopped == RunActs(acts, b, single).stopped
    ensures RunActs(acts, a, single).cells.note == RunActs(acts, b, single).cells.note
    decreases acts, 1
  {
    if acts != [] {
      if acts[0].Read? {
        EarlierNotesIgnored(acts[0].at, acts[0].attempts, a, b, single);
      }
      SameActs(acts[1..], RunAct(acts[0], a, single).cells, RunAct(acts[0], b, single).cells, single);
    }
  }

  /** The note that acts leave, looked for from the last act back; a strong read clears what was noted before it. */
  function Evidence(acts: seq<Act>, before: Option<Refusal>): Option<Refusal>
    decreases acts, 1
  {
    if acts == [] then before
    else
      var last := acts[|acts| - 1];
      if last.TakeSite? then Evidence(acts[..|acts| - 1], before) else ActNote(last)
  }

  function ActNote(act: Act): Option<Refusal>
    decreases act, 0
  {
    match act
    case Refuse(why) => Some(why)
    case TakeSite => None
    case Read(_, attempts) => ReadNote(attempts)
  }

  /** What is noted in the attempt that gives the value. */
  function ReadNote(attempts: seq<Attempt>): Option<Refusal>
    decreases attempts, 1
  {
    if attempts == [] then None
    else if attempts[0].value.Some? then Evidence(attempts[0].acts, None)
    else ReadNote(attempts[1..])
  }

  lemma {:induction false} RunLast(acts: seq<Act>, act: Act, cells: Cells, single: bool)
    ensures RunActs(acts + [act], cells, single) ==
      var init := RunActs(acts, cells, single);
      if init.stopped.Some? then init else RunAct(act, init.cells, single)
    decreases |acts|
  {
    hide RunAct;
    if acts == [] {
      assert acts + [act] == [act] && [act][1..] == [];
      assert RunActs([], RunAct(act, cells, single).cells, single) == Acted(RunAct(act, cells, single).cells, None);
    } else {
      assert (acts + [act])[1..] == acts[1..] + [act];
      RunLast(acts[1..], act, RunAct(acts[0], cells, single).cells, single);
    }
  }

  lemma {:induction false} NoteIsEvidence(acts: seq<Act>, cells: Cells, single: bool)
    ensures RunActs(acts, cells, single).stopped.None? ==>
      RunActs(acts, cells, single).cells.note == Evidence(acts, cells.note)
    decreases acts, 1
  {
    if acts != [] {
      var init, last := acts[..|acts| - 1], acts[|acts| - 1];
      assert acts == init + [last];
      RunLast(init, last, cells, single);
      if last.TakeSite? {
        NoteIsEvidence(init, cells, single);
      } else if last.Read? {
        ReadLeaves(last.at, last.attempts, RunActs(init, cells, single).cells, single);
      }
    }
  }

  lemma {:induction false} ReadLeaves(at: Site, attempts: seq<Attempt>, cells: Cells, single: bool)
    ensures var ran := RunRead(at, attempts, cells, single);
      ran.outcome.Gave? ==> ran.cells.note == ReadNote(attempts)
    decreases attempts, 1
  {
    if attempts != [] {
      var acted := RunActs(attempts[0].acts, Cells(None, Some(at), cells.taken), single);
      NoteIsEvidence(attempts[0].acts, Cells(None, Some(at), cells.taken), single);
      StoppedShort(attempts[0].acts, Cells(None, Some(at), cells.taken), single);
      ReadLeaves(at, attempts[1..], acted.cells.(site := cells.site), single);
    }
  }

  /** The strong reads made in the attempts all come back. */
  predicate ComeBack(attempts: seq<Attempt>, single: bool) {
    forall a :: a in attempts ==> RunActs(a.acts, Cells(None, None, []), single).stopped.None?
  }

  /** The first attempt with a value or with evidence of its own decides; otherwise the read waits. */
  function Decision(at: Site, attempts: seq<Attempt>, single: bool): Outcome {
    if attempts == [] then Waiting
    else
      match attempts[0].value
      case Some(v) => Gave(v)
      case None =>
        var note := Evidence(attempts[0].acts, None);
        if note.Some? || single then Aborted(at, note) else Decision(at, attempts[1..], single)
  }

  /** A read aborts exactly if the note that its current attempt left says so, whatever was noted before. */
  lemma {:induction false} DecidesOnOwnEvidence(at: Site, attempts: seq<Attempt>, cells: Cells, single: bool)
    requires ComeBack(attempts, single)
    ensures RunRead(at, attempts, cells, single).outcome == Decision(at, attempts, single)
    decreases |attempts|
  {
    if attempts != [] {
      assert attempts[0] in attempts;
      SameActs(attempts[0].acts, Cells(None, None, []), Cells(None, Some(at), cells.taken), single);
      NoteIsEvidence(attempts[0].acts, Cells(None, Some(at), cells.taken), single);
      var acted := RunActs(attempts[0].acts, Cells(None, Some(at), cells.taken), single);
      DecidesOnOwnEvidence(at, attempts[1..], acted.cells.(site := cells.site), single);
    }
  }

  /** The act noted a refusal, and no strong read was made after it. */
  predicate Decisive(acts: seq<Act>, i: nat) {
    i < |acts| && ActNote(acts[i]).Some? && forall j :: i < j < |acts| ==> acts[j].TakeSite?
  }

  lemma DecisiveBefore(acts: seq<Act>, i: nat)
    requires acts != [] && acts[|acts| - 1].TakeSite?
    ensures Decisive(acts, i) <==> Decisive(acts[..|acts| - 1], i)
  {
    var init := acts[..|acts| - 1];
    assert forall j :: 0 <= j < |init| ==> init[j] == acts[j];
  }

  lemma {:induction false} EvidenceExactly(acts: seq<Act>)
    ensures Evidence(acts, None).Some? <==> exists i: nat :: Decisive(acts, i)
    decreases |acts|
  {
    hide ActNote;
    if acts != [] {
      var last := |acts| - 1;
      if acts[last].TakeSite? {
        EvidenceExactly(acts[..last]);
        forall i: nat ensures Decisive(acts, i) <==> Decisive(acts[..last], i) {
          DecisiveBefore(acts, i);
        }
      } else {
        assert Decisive(acts, last) <==> ActNote(acts[last]).Some?;
        assert forall i: nat :: Decisive(acts, i) ==> i == last;
      }
    }
  }

  /** So a strong read that comes back after the refusal hides it: the cycle is waited for, and never ends. */
  lemma HiddenCycleWaits(at: Site, why: Refusal, inner: Site, value: Value, cells: Cells)
    ensures RunRead(at, [Attempt([Refuse(why), Read(inner, [Attempt([], Some(value))])], None)], cells, false).outcome == Waiting
    ensures RunRead(at, [Attempt([Read(inner, [Attempt([], Some(value))]), Refuse(why)], None)], cells, false).outcome
         == Aborted(at, Some(why))
  {
    var refuse, read := Refuse(why), Read(inner, [Attempt([], Some(value))]);
    forall c: Cells ensures RunAct(read, c, false) == Acted(c.(note := None), None) {
      assert RunActs([], Cells(None, Some(inner), c.taken), false) == Acted(Cells(None, Some(inner), c.taken), None);
    }
    var start := Cells(None, Some(at), cells.taken);
    assert [read][1..] == [] && [refuse][1..] == [];
    forall c: Cells ensures RunActs([read], c, false) == Acted(c.(note := None), None) {
      assert RunActs([], c.(note := None), false).stopped.None?;
    }
    forall c: Cells ensures RunActs([refuse], c, false) == Acted(c.(note := Some(why)), None) {
      assert RunActs([], c.(note := Some(why)), false).stopped.None?;
    }
    assert [refuse, read] == [refuse] + [read] && [read, refuse] == [read] + [refuse];
    RunLast([refuse], read, start, false);
    RunLast([read], refuse, start, false);
    assert RunActs([refuse, read], start, false) == Acted(start, None);
    assert RunActs([read, refuse], start, false) == Acted(start.(note := Some(why)), None);
    var hidden := [Attempt([refuse, read], None)];
    assert hidden[1..] == [];
  }

  // ---- Which site is taken

  /** What is taken in an attempt: the first to ask for the site gets it, the others nothing; reads further in have their own. */
  function TakenIn(acts: seq<Act>, site: Option<Site>): seq<Option<Site>>
    decreases acts, 1
  {
    if acts == [] then []
    else
      match acts[0]
      case Refuse(_) => TakenIn(acts[1..], site)
      case TakeSite => [site] + TakenIn(acts[1..], None)
      case Read(at, attempts) => TakenBy(at, attempts) + TakenIn(acts[1..], site)
  }

  /** What is taken in the attempts of a read, up to the one that gives the value. */
  function TakenBy(at: Site, attempts: seq<Attempt>): seq<Option<Site>>
    decreases attempts, 1
  {
    if attempts == [] then []
    else TakenIn(attempts[0].acts, Some(at)) + if attempts[0].value.Some? then [] else TakenBy(at, attempts[1..])
  }

  lemma {:induction false} ActsTake(acts: seq<Act>, cells: Cells, single: bool)
    ensures var acted := RunActs(acts, cells, single);
      acted.stopped.None? ==> acted.cells.taken == cells.taken + TakenIn(acts, cells.site)
    decreases acts, 1
  {
    if acts == [] {
      assert cells.taken + [] == cells.taken;
    } else {
      var first := RunAct(acts[0], cells, single);
      ActsTake(acts[1..], first.cells, single);
      var rest := TakenIn(acts[1..], first.cells.site);
      match acts[0]
      case Refuse(_) =>
      case TakeSite =>
        assert cells.taken + [cells.site] + rest == cells.taken + ([cells.site] + rest);
      case Read(at, attempts) =>
        if first.stopped.None? {
          ReadTakesOwnSite(at, attempts, cells, single);
          var i := GivesAttemptsValue(at, attempts, cells, single);
          assert cells.taken + TakenBy(at, attempts) + rest == cells.taken + (TakenBy(at, attempts) + rest);
        }
    }
  }

  /** Reads made in the attempts of a strong read are given its site, once each attempt, and never that of a read around it. */
  lemma {:induction false} ReadTakesOwnSite(at: Site, attempts: seq<Attempt>, cells: Cells, single: bool)
    requires RunRead(at, attempts, cells, single).outcome.Gave?
    ensures RunRead(at, attempts, cells, single).cells.taken == cells.taken + TakenBy(at, attempts)
    decreases attempts, 1
  {
    var started := Cells(None, Some(at), cells.taken);
    var acted := RunActs(attempts[0].acts, started, single);
    ActsTake(attempts[0].acts, started, single);
    StoppedShort(attempts[0].acts, started, single);
    var own := TakenIn(attempts[0].acts, Some(at));
    if attempts[0].value.Some? {
      assert own + [] == own;
    } else {
      ReadTakesOwnSite(at, attempts[1..], acted.cells.(site := cells.site), single);
      assert cells.taken + own + TakenBy(at, attempts[1..]) == cells.taken + (own + TakenBy(at, attempts[1..]));
    }
  }
}
