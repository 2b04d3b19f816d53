/** A run in which a reused slot makes the iterator deliver a state the query does
    not match: a ring of one slot, a labelled state and then an unlabelled one. */
module CacheStale {
  import opened States
  import opened RevLog
  import opened Cache
  import opened CacheProofs
  import opened CacheSlots
  import opened Iteration
  import opened CacheSystem

  const LABELS: Dict := map["k" := "v"]
  const LABELLED := State("a", 1, map[], LABELS, None, ZERO_TRANSITION)
  const PLAIN := State("b", 2, map[], map[], None, ZERO_TRANSITION)
  const QUERY := [LABELS]

  // The ring after one more state in revision order.
  function Next(c: Cache, s: State): Cache
    requires Shape(c) && c.maxRev < s.rev
  {
    Append(c, s).(committed := [])
  }

  lemma NextIsAppended(c: Cache, s: State)
    requires Shape(c) && c.committed == [] && s.rev == c.maxRev + 1
    ensures CommitAppended(c, [s], Next(c, s)) && Shape(Next(c, s))
  {
    AppendWindow(c, s);
    assert Buffered(c, [s]) == [s];
    assert [s][1..] == [];
    assert Drain(c, [s]) == Next(c, s);
    assert SortedByRev([s]) && multiset([s]) == multiset(Buffered(c, [s]));
  }

  function Ring1(): Cache {
    Next(EmptyCache(1), LABELLED)
  }

  lemma Ring1Is()
    ensures Shape(Ring1()) && Ring1().maxRev == 1 && Ring1().committed == [] && |Ring1().log| == 1
    ensures CommitAppended(EmptyCache(1), [LABELLED], Ring1())
    ensures Ring1().size == 1 && Ring1().idx == 1 && Ring1().log[0].labels == LABELS
  {
    NextIsAppended(EmptyCache(1), LABELLED);
  }

  function Ring2(): Cache
    requires Shape(Ring1()) && Ring1().maxRev == 1
  {
    Next(Ring1(), PLAIN)
  }

  // The second state took the first one's slot and its label.
  lemma Ring2Is()
    ensures Shape(Ring1()) && Ring1().maxRev == 1 && Shape(Ring2()) && CommitAppended(Ring1(), [PLAIN], Ring2())
    ensures var w := Window(Ring2());
            |w| == 1 && w[0].id == "b" && w[0].rev == 2 && w[0].labels == LABELS
    ensures Ring2().size == 1 && Ring2().minRev == 1 && Ring2().maxRev == 2
  {
    Ring1Is();
    NextIsAppended(Ring1(), PLAIN);
    AppendWindow(Ring1(), PLAIN);
    AppendMin(Ring1(), PLAIN);
  }

  lemma Ring2Answers(limit: int)
    requires limit > 1
    ensures Shape(Ring1()) && Ring1().maxRev == 1 && Shape(Ring2()) && FromLog(Ring2(), QUERY, 1, limit).Some?
    ensures var p := FromLog(Ring2(), QUERY, 1, limit).value; |p.states| == 1 && p.states[0].id == "b" && p.states[0].rev == 2
  {
    Ring2Is();
    var w := Window(Ring2());
    hide Ring2, Window;
    assert QUERY[0] == LABELS && MatchesSet(w[0], LABELS);
    assert CacheMatches(w[0], QUERY);
    assert w[..0] == [];
    assert Filter(w, QUERY, 1) == [] + [w[0]];
  }

  lemma NothingMatches()
    ensures Select(Both(), QUERY, 1, 2) == []
  {
    var v := Both();
    assert v[..1] == [LABELLED] && v[..1][..0] == [];
    assert QUERY[0] == LABELS && !MatchesSet(PLAIN, LABELS);
    assert !DriverMatches(PLAIN, QUERY);
    assert Select(v[..1], QUERY, 1, 2) == [];
  }

  function System(v: seq<State>, rev: int, c: Cache): Sys {
    Sys(v, rev, c, HeadIdle, NewIter(QUERY, 10, 1), Idle, Nowhere, 1, [])
  }

  lemma CommitIsStep(v: seq<State>, rev: int, c: Cache, s: State, v': seq<State>)
    requires v' == v + [s] && LogInv(v', s.rev) && rev < s.rev
    ensures Steps(System(v, rev, c), System(v', s.rev, c))
  {
    hide LogInv;
    assert StepBy(System(v, rev, c), Commit([s], s.rev), System(v', s.rev, c));
  }

  lemma CommitsAreSteps(c: Cache)
    ensures Steps(System([], 0, c), System([LABELLED], 1, c))
    ensures Steps(System([LABELLED], 1, c), System(Both(), 2, c))
  {
    hide Steps;
    CommitIsStep([], 0, c, LABELLED, [LABELLED]);
    CommitIsStep([LABELLED], 1, c, PLAIN, Both());
  }

  lemma AppendIsStep(v: seq<State>, rev: int, c: Cache, s: State, c': Cache)
    requires Shape(c) && CommitAppended(c, [s], c') && s in v
    ensures Steps(System(v, rev, c), System(v, rev, c'))
  {
    hide CommitAppended, Shape;
    assert StepBy(System(v, rev, c), CacheAppend([s]), System(v, rev, c'));
  }

  function Delivers(v: seq<State>, rev: int, c: Cache, p: Page): Sys {
    var s := System(v, rev, c);
    s.(it := TakePage(s.it, p), last := RingTo(c.maxRev), yielded := Keys(p.states))
  }

  lemma NextIsStep(v: seq<State>, rev: int, c: Cache, p: Page)
    requires Shape(c) && FromLog(c, QUERY, 1, 10) == Some(p) && |p.states| == 1
    ensures Steps(System(v, rev, c), Delivers(v, rev, c, p))
    ensures Delivers(v, rev, c, p).it.sinceRev == p.states[0].rev
  {
    hide Shape, FromLog;
    var s, s' := System(v, rev, c), Delivers(v, rev, c, p);
    assert s'.yielded == s.yielded + Delivered(s.it, p.states);
    assert StepBy(s, Step.Next, s');
  }

  function Both(): seq<State> {
    [LABELLED, PLAIN]
  }

  lemma Filled()
    ensures Shape(Ring1()) && Ring1().maxRev == 1 && Start(System([], 0, EmptyCache(1)))
    ensures Steps(System([], 0, EmptyCache(1)), System([LABELLED], 1, EmptyCache(1)))
    ensures Steps(System([LABELLED], 1, EmptyCache(1)), System([LABELLED], 1, Ring1()))
    ensures Steps(System([LABELLED], 1, Ring1()), System(Both(), 2, Ring1()))
    ensures Steps(System(Both(), 2, Ring1()), System(Both(), 2, Ring2()))
  {
    Ring1Is();
    Ring2Is();
    assert Both()[1] == PLAIN;
    CommitsAreSteps(EmptyCache(1));
    CommitsAreSteps(Ring1());
    AppendIsStep([LABELLED], 1, EmptyCache(1), LABELLED, Ring1());
    AppendIsStep(Both(), 2, Ring1(), PLAIN, Ring2());
    StartIs();
    hide Steps, Ring1, Ring2;
  }

  lemma Misled() returns (s: Sys)
    ensures Shape(Ring1()) && Ring1().maxRev == 1 && Steps(System(Both(), 2, Ring2()), s)
    ensures s.yielded == [("b", 2)] && Keys(Select(s.v, s.it.q, s.start, s.it.sinceRev)) == []
  {
    Ring1Is();
    Ring2Answers(10);
    NothingMatches();
    var p := FromLog(Ring2(), QUERY, 1, 10).value;
    NextIsStep(Both(), 2, Ring2(), p);
    hide Steps, Ring1, Ring2, FromLog, Select;
    s := Delivers(Both(), 2, Ring2(), p);
    assert Keys([]) == [];
  }

  lemma Chain(s0: Sys, s1: Sys, s2: Sys, s3: Sys, s4: Sys, s5: Sys) returns (t: seq<Sys>)
    requires Start(s0) && Steps(s0, s1) && Steps(s1, s2) && Steps(s2, s3) && Steps(s3, s4) && Steps(s4, s5)
    ensures Run(t) && |t| == 6 && t[5] == s5
  {
    hide Start, Steps;
    t := [s0, s1, s2, s3, s4, s5];
  }

  /** The run: what was delivered is not what the query selects. */
  lemma StaleSlotDelivers() returns (t: seq<Sys>)
    ensures Run(t) && |t| == 6
    ensures t[5].yielded == [("b", 2)] && Keys(Select(t[5].v, t[5].it.q, t[5].start, t[5].it.sinceRev)) == []
  {
    Filled();
    var last := Misled();
    hide *;
    t := Chain(System([], 0, EmptyCache(1)), System([LABELLED], 1, EmptyCache(1)), System([LABELLED], 1, Ring1()),
               System(Both(), 2, Ring1()), System(Both(), 2, Ring2()), last);
  }

  lemma StartIs()
    ensures Start(System([], 0, EmptyCache(1)))
  {
  }
}
