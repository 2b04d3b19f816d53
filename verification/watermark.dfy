/** The revision watermark of badgerdriver/driver.go: transactions draw revisions,
    register them as ongoing, store states under them and release them; readers
    see nothing above the watermark. */
module Watermark {

  /** ongoing, maxOngoing and maxCommitted are the sequence's fields.  `next` is
      the number Badger hands out next, `drawn` the numbers handed out and not yet
      registered, `stored` the revisions of durable states. */
  datatype Mark = Mark(next: int, drawn: set<int>, ongoing: set<int>, maxOngoing: int, maxCommitted: int, stored: set<int>)

  datatype Step = Draw | Register(rev: int) | Store(revs: set<int>) | Release(revs: set<int>)

  const START := Mark(1, {}, {}, 0, 0, {})

  /** A driver opened on a database, possibly one with states in it: the sequence
      hands out numbers beyond all of them, the watermark starts at 0. */
  ghost predicate Opened(s: Mark) {
    && s.drawn == {} && s.ongoing == {} && s.maxOngoing == 0 && s.maxCommitted == 0 && 0 < s.next
    && forall r | r in s.stored :: 0 < r < s.next
  }

  // What a restart leaves of a driver: the numbers handed out and the durable states.
  function Reopened(s: Mark): Mark {
    Mark(s.next, {}, {}, 0, 0, s.stored)
  }

  ghost predicate IsLeast(ongoing: set<int>, top: int, m: int) {
    && (m == top || m in ongoing) && m <= top
    && forall r | r in ongoing :: m <= r
  }

  ghost predicate StepBy(s: Mark, step: Step, s': Mark) {
    match step
    case Draw => s' == s.(next := s.next + 1, drawn := s.drawn + {s.next})
    case Register(r) =>
      r in s.drawn && s' == s.(drawn := s.drawn - {r}, ongoing := s.ongoing + {r}, maxOngoing := r)
    case Store(revs) => revs <= s.ongoing && s' == s.(stored := s.stored + revs)
    case Release(revs) =>
      && revs != {} && revs <= s.ongoing
      && s' == s.(ongoing := s.ongoing - revs, maxCommitted := s'.maxCommitted)
      && IsLeast(s'.ongoing, s.maxOngoing, s'.maxCommitted)
  }

  datatype Run = Run(states: seq<Mark>, steps: seq<Step>)

  ghost predicate IsRun(t: Run) {
    && |t.states| == |t.steps| + 1 && Opened(t.states[0])
    && forall i | 0 <= i < |t.steps| :: StepBy(t.states[i], t.steps[i], t.states[i + 1])
  }

  // -------------------------------------------------------------- what readers rely on

  /** Once a revision is readable, no smaller one becomes durable. */
  ghost predicate Safe(t: Run) {
    forall k, j, r {:trigger r in t.states[j].stored, t.states[k]} | 0 <= k <= j < |t.states| && r in t.states[j].stored && r !in t.states[k].stored ::
      t.states[k].maxCommitted <= r
  }

  // Step i registers revision r, which becomes durable in the run.
  ghost predicate RegistersDurable(t: Run, i: nat, r: int) {
    i < |t.steps| && t.steps[i] == Register(r) && |t.states| > 0 && r in t.states[|t.states| - 1].stored
  }

  /** Every revision that becomes durable was registered no lower than the
      watermark had ever been. */
  ghost predicate RegisteredAbove(t: Run)
    requires |t.states| == |t.steps| + 1
  {
    forall i, k, r {:trigger RegistersDurable(t, i, r), t.states[k]} | 0 <= k <= i < |t.steps| && RegistersDurable(t, i, r) ::
      t.states[k].maxCommitted <= r
  }

  /** Numbers are registered in the order they were drawn. */
  ghost predicate InOrder(t: Run)
    requires |t.states| == |t.steps| + 1
  {
    forall i | 0 <= i < |t.steps| && t.steps[i].Register? :: t.states[i].maxOngoing < t.steps[i].rev
  }

  // ----------------------------------------------------------------- bookkeeping

  ghost predicate Inv(s: Mark) {
    && (forall r | r in s.drawn :: 0 < r < s.next && r !in s.ongoing && r !in s.stored)
    && (forall r | r in s.ongoing :: 0 < r < s.next)
    && (forall r | r in s.stored :: 0 < r < s.next)
    && 0 <= s.maxOngoing < s.next
  }

  lemma StepKeepsInv(s: Mark, step: Step, s': Mark)
    requires Inv(s) && StepBy(s, step, s')
    ensures Inv(s')
  {
  }

  lemma {:induction false} InvAt(t: Run, n: nat)
    requires IsRun(t) && n < |t.states|
    ensures Inv(t.states[n])
  {
    if n > 0 {
      InvAt(t, n - 1);
      StepKeepsInv(t.states[n - 1], t.steps[n - 1], t.states[n]);
    }
  }

  lemma {:induction false} StoredGrows(t: Run, k: nat, j: nat)
    requires IsRun(t) && k <= j < |t.states|
    ensures t.states[k].stored <= t.states[j].stored && t.states[k].next <= t.states[j].next
  {
    if k < j {
      StoredGrows(t, k, j - 1);
      assert StepBy(t.states[j - 1], t.steps[j - 1], t.states[j]);
    }
  }

  /** A durable revision that was not ongoing at k was registered later. */
  lemma {:induction false} RegisteredLater(t: Run, k: nat, j: nat, r: int) returns (i: nat)
    requires IsRun(t) && k <= j < |t.states|
    requires r in t.states[j].stored + t.states[j].ongoing
    requires r !in t.states[k].stored + t.states[k].ongoing
    ensures k <= i < j && t.steps[i] == Register(r)
  {
    var s, step := t.states[j - 1], t.steps[j - 1];
    assert StepBy(s, step, t.states[j]);
    if r in s.stored + s.ongoing {
      i := RegisteredLater(t, k, j - 1, r);
    } else {
      i := j - 1;
    }
  }

  /** A revision drawn but not yet registered is not durable, before or then. */
  lemma NotStoredBefore(t: Run, k: nat, i: nat, r: int)
    requires IsRun(t) && k <= i < |t.steps| && t.steps[i] == Register(r)
    ensures r !in t.states[k].stored
  {
    assert StepBy(t.states[i], t.steps[i], t.states[i + 1]);
    InvAt(t, i);
    StoredGrows(t, k, i);
  }

  /** The watermark stays at or below a revision from its registration until its release. */
  lemma {:induction false} BelowOngoing(t: Run, k: nat, r: int)
    requires IsRun(t) && RegisteredAbove(t) && k < |t.states|
    requires r in t.states[k].ongoing && r in t.states[|t.states| - 1].stored
    ensures t.states[k].maxCommitted <= r
  {
    var s, step := t.states[k - 1], t.steps[k - 1];
    assert StepBy(s, step, t.states[k]);
    if r in s.ongoing {
      BelowOngoing(t, k - 1, r);
    } else {
      assert RegistersDurable(t, k - 1, r);
    }
  }

  /** Watermark safety, exactly: a run never stores below a watermark it has
      shown if and only if every revision it stores was registered no lower than
      the watermark had been. */
  lemma SafeExactly(t: Run)
    requires IsRun(t)
    ensures Safe(t) <==> RegisteredAbove(t)
  {
    var last := |t.states| - 1;
    if Safe(t) {
      forall i, k, r | 0 <= k <= i < |t.steps| && RegistersDurable(t, i, r) ensures t.states[k].maxCommitted <= r {
        NotStoredBefore(t, k, i, r);
        assert r in t.states[last].stored;
      }
    }
    if RegisteredAbove(t) {
      forall k, j, r | 0 <= k <= j < |t.states| && r in t.states[j].stored && r !in t.states[k].stored
        ensures t.states[k].maxCommitted <= r
      {
        StoredGrows(t, j, last);
        if r in t.states[k].ongoing {
          BelowOngoing(t, k, r);
        } else {
          var i := RegisteredLater(t, k, j, r);
          assert RegistersDurable(t, i, r);
        }
      }
    }
  }

  /** A restart keeps everything durable and begins a new run; readers see none of
      it until the first release after. */
  lemma RestartHidesAll(t: Run, n: nat)
    requires IsRun(t) && n < |t.states|
    ensures Opened(Reopened(t.states[n])) && Reopened(t.states[n]).stored == t.states[n].stored
    ensures Visible(Reopened(t.states[n])) == {}
    ensures Visible(t.states[n]) <= Visible(Reopened(t.states[n])) <==> Visible(t.states[n]) == {}
  {
    InvAt(t, n);
    var s := Reopened(t.states[n]);
    assert forall r | r in Visible(s) :: false;
  }

  /** The first release after a restart shows all of it again. */
  lemma FirstReleaseShowsAll(t: Run, k: nat)
    requires IsRun(t) && k < |t.states| && t.states[k].maxCommitted > 0
    ensures t.states[0].stored <= Visible(t.states[k])
  {
    StoredGrows(t, 0, k);
    MarkFromOn(t, k);
  }

  // Whatever is drawn or registered, and so the watermark, is from n on.
  ghost predicate FromOn(s: Mark, n: int) {
    && n <= s.next
    && (forall r | r in s.drawn :: n <= r) && (forall r | r in s.ongoing :: n <= r)
    && (s.maxOngoing == 0 || n <= s.maxOngoing) && (s.maxCommitted == 0 || n <= s.maxCommitted)
  }

  lemma StepFromOn(s: Mark, step: Step, s': Mark, n: int)
    requires FromOn(s, n) && StepBy(s, step, s')
    ensures FromOn(s', n)
  {
  }

  lemma {:induction false} MarkFromOn(t: Run, k: nat)
    requires IsRun(t) && k < |t.states|
    ensures FromOn(t.states[k], t.states[0].next)
  {
    if k > 0 {
      MarkFromOn(t, k - 1);
      StepFromOn(t.states[k - 1], t.steps[k - 1], t.states[k], t.states[0].next);
    }
  }

  // -------------------------------------------------------- draws registered in order

  ghost predicate OrderedInv(s: Mark) {
    s.maxCommitted <= s.maxOngoing && forall r | r in s.ongoing :: s.maxCommitted <= r <= s.maxOngoing
  }

  lemma {:induction false} OrderedAt(t: Run, n: nat)
    requires IsRun(t) && InOrder(t) && n < |t.states|
    ensures OrderedInv(t.states[n])
    ensures n > 0 ==> t.states[n - 1].maxCommitted <= t.states[n].maxCommitted
  {
    if n > 0 {
      OrderedAt(t, n - 1);
      assert StepBy(t.states[n - 1], t.steps[n - 1], t.states[n]);
    }
  }

  lemma {:induction false} MarkNeverFalls(t: Run, k: nat, j: nat)
    requires IsRun(t) && InOrder(t) && k <= j < |t.states|
    ensures t.states[k].maxCommitted <= t.states[j].maxCommitted
  {
    if k < j {
      MarkNeverFalls(t, k, j - 1);
      OrderedAt(t, j);
    }
  }

  /** When numbers are registered in draw order, over every interleaving of
      draws, aborts, conflicts and releases: the watermark never falls, it stays at
      or below every ongoing revision, and no run stores below it. */
  lemma InOrderIsSafe(t: Run)
    requires IsRun(t) && InOrder(t)
    ensures Safe(t)
    ensures forall n | 0 <= n < |t.states| :: forall r | r in t.states[n].ongoing :: t.states[n].maxCommitted <= r
  {
    forall n | 0 <= n < |t.states| ensures forall r | r in t.states[n].ongoing :: t.states[n].maxCommitted <= r {
      OrderedAt(t, n);
    }
    forall i, k, r | 0 <= k <= i < |t.steps| && RegistersDurable(t, i, r) ensures t.states[k].maxCommitted <= r {
      OrderedAt(t, k);
      OrderedAt(t, i);
      MarkNeverFalls(t, k, i);
    }
    SafeExactly(t);
  }

  /** What a reader that takes its snapshot and the watermark together can see. */
  function Visible(s: Mark): set<int> {
    set r | r in s.stored && r <= s.maxCommitted
  }

  /** What a release shows: every durable revision up to the last one registered that
      no revision still ongoing is below, however many are ongoing. */
  lemma ReleaseShows(s: Mark, revs: set<int>, s': Mark)
    requires StepBy(s, Release(revs), s')
    ensures s'.ongoing == s.ongoing - revs && s'.stored == s.stored
    ensures forall r :: r in Visible(s') <==> r in s.stored && r <= s.maxOngoing && forall x | x in s.ongoing - revs :: r <= x
  {
  }

  ghost predicate AtOrBelow(ongoing: set<int>, r: int) {
    forall x | x in ongoing :: r <= x
  }

  /** With draws registered in order the bound by the last one registered is none: a
      release shows exactly what is durable below everything still ongoing. */
  lemma {:induction false} ReleaseShowsInOrder(t: Run, n: nat, r: int)
    requires IsRun(t) && InOrder(t) && n < |t.steps| && t.steps[n].Release?
    requires r in t.states[n].stored && r >= t.states[0].next
    ensures r in Visible(t.states[n + 1]) <==> AtOrBelow(t.states[n + 1].ongoing, r)
  {
    assert StepBy(t.states[n], t.steps[n], t.states[n + 1]);
    ReleaseShows(t.states[n], t.steps[n].revs, t.states[n + 1]);
    StoredIsRegistered(t, n, r);
  }

  // In such runs everything stored since the start was registered, so is not past the last.
  lemma {:induction false} StoredIsRegistered(t: Run, n: nat, r: int)
    requires IsRun(t) && InOrder(t) && n < |t.states|
    requires r in t.states[n].stored + t.states[n].ongoing && r >= t.states[0].next
    ensures r <= t.states[n].maxOngoing
  {
    if n > 0 {
      assert StepBy(t.states[n - 1], t.steps[n - 1], t.states[n]);
      OrderedAt(t, n - 1);
      if r in t.states[n - 1].stored + t.states[n - 1].ongoing {
        StoredIsRegistered(t, n - 1, r);
      }
    }
  }

  /** Readers see an append-only log: what becomes visible later is newer than
      everything visible before. */
  lemma VisibleOnlyAppends(t: Run, k: nat, j: nat)
    requires IsRun(t) && InOrder(t) && k <= j < |t.states|
    ensures Visible(t.states[k]) <= Visible(t.states[j])
    ensures forall r, x | r in Visible(t.states[j]) - Visible(t.states[k]) && x in Visible(t.states[k]) :: x < r
  {
    InOrderIsSafe(t);
    StoredGrows(t, k, j);
    MarkNeverFalls(t, k, j);
    forall r, x | r in Visible(t.states[j]) - Visible(t.states[k]) && x in Visible(t.states[k]) ensures x < r {
      assert r in t.states[j].stored;
      if r !in t.states[k].stored {
        assert t.states[k].maxCommitted <= r;
      }
    }
  }

  /** Drawing and registering are two critical sections, so the order is not
      guaranteed: here 2 is registered, stored and released before 1, and 1 then
      becomes durable below a watermark that already showed 2. */
  lemma RegisteringOutOfOrder() returns (t: Run)
    ensures IsRun(t) && !InOrder(t) && !Safe(t)
  {
    var s0 := START;
    var s1 := s0.(next := 2, drawn := {1});
    var s2 := s1.(next := 3, drawn := {1, 2});
    var s3 := s2.(drawn := {1}, ongoing := {2}, maxOngoing := 2);
    var s4 := s3.(stored := {2});
    var s5 := s4.(ongoing := {}, maxCommitted := 2);
    var s6 := s5.(drawn := {}, ongoing := {1}, maxOngoing := 1);
    var s7 := s6.(stored := {1, 2});
    t := Run([s0, s1, s2, s3, s4, s5, s6, s7], [Draw, Draw, Register(2), Store({2}), Release({2}), Register(1), Store({1})]);
    assert s2.drawn - {2} == {1} && s5.drawn - {1} == {} && s4.ongoing - {2} == {};
    assert t.states[5] == s5 && t.states[7] == s7 && 1 in t.states[7].stored && 1 !in t.states[5].stored;
    assert t.steps[5] == Register(1);
  }

  // ------------------------------------------------------------------ the object

  /** The minimum loop; `walk` is the order in which Go happens to visit the map. */
  method Least(ongoing: set<int>, top: int, walk: seq<int>) returns (minRev: int)
    requires forall r :: r in ongoing <==> r in walk
    ensures IsLeast(ongoing, top, minRev)
  {
    minRev := top;
    for i := 0 to |walk|
      invariant minRev <= top && (minRev == top || minRev in ongoing)
      invariant forall k | 0 <= k < i :: minRev <= walk[k]
    {
      assert walk[i] in walk;
      minRev := if walk[i] < minRev then walk[i] else minRev;
    }
  }

  /** sequenceWithCommit, without Badger's counter. */
  class SequenceWithCommit {
    var ongoing: set<int>
    var maxOngoing: int
    var maxCommitted: int

    constructor ()
      ensures ongoing == START.ongoing && maxOngoing == START.maxOngoing && maxCommitted == START.maxCommitted
    {
      ongoing, maxOngoing, maxCommitted := {}, 0, 0;
    }

    // The fields, with the rest of the system's state around them.
    ghost function Model(rest: Mark): Mark
      reads this
    {
      rest.(ongoing := ongoing, maxOngoing := maxOngoing, maxCommitted := maxCommitted)
    }

    method Register(next: int, ghost rest: Mark)
      requires next in rest.drawn
      modifies this
      ensures StepBy(old(Model(rest)), Step.Register(next), Model(rest.(drawn := rest.drawn - {next})))
    {
      ongoing := ongoing + {next};
      maxOngoing := next;
    }

    method Release(txnCommitting: seq<int>, walk: seq<int>, ghost rest: Mark)
      requires forall i | 0 <= i < |txnCommitting| :: txnCommitting[i] in ongoing
      requires forall r :: r in ongoing && r !in txnCommitting <==> r in walk
      modifies this
      ensures txnCommitting == [] ==> Model(rest) == old(Model(rest))
      ensures txnCommitting != [] ==> exists revs ::
                (forall r :: r in revs <==> r in txnCommitting) && StepBy(old(Model(rest)), Step.Release(revs), Model(rest))
    {
      if |txnCommitting| == 0 {
        return;
      }
      ghost var revs: set<int> := {};
      for i := 0 to |txnCommitting|
        invariant revs <= old(ongoing) && ongoing == old(ongoing) - revs
        invariant forall r :: r in revs <==> r in txnCommitting[..i]
        invariant maxOngoing == old(maxOngoing) && maxCommitted == old(maxCommitted)
      {
        assert txnCommitting[..i + 1] == txnCommitting[..i] + [txnCommitting[i]];
        ongoing := ongoing - {txnCommitting[i]};
        revs := revs + {txnCommitting[i]};
      }
      assert txnCommitting[..|txnCommitting|] == txnCommitting;
      ghost var first := txnCommitting[0];
      assert first in txnCommitting;
      assert first in revs;
      maxCommitted := Least(ongoing, maxOngoing, walk);
      assert StepBy(old(Model(rest)), Step.Release(revs), Model(rest));
    }

    method MaxViewable() returns (r: int)
      ensures r == maxCommitted
    {
      r := maxCommitted;
    }
  }
}
