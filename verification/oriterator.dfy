/** The k-way merge of badgerdriver/orlabelsiterator.go over the revisions each
    label set's iterator yields. */
module OrIterators {
  import opened States
  import opened RevLog
  import opened LabelsIterators

  /** lists[i] is what the i-th sub-iterator yields, pos[i] how far it has gone. */
  datatype Or = Or(lists: seq<seq<int>>, reverse: bool, pos: seq<nat>, valid: bool, current: int)

  // Revisions start at 1; the code uses 0 for "no state yet".
  ghost predicate Well(o: Or) {
    && |o.pos| == |o.lists| && AllSorted(o.lists, o.reverse)
    && forall i | 0 <= i < |o.lists| :: o.pos[i] <= |o.lists[i]| && Positive(o.lists[i])
  }

  ghost predicate Positive(l: seq<int>) {
    forall i | 0 <= i < |l| :: 0 < l[i]
  }

  // A sub-iterator's current revision; one that has ended keeps its last, and
  // one that never stood anywhere has the zero state.
  function CurrentOf(l: seq<int>, p: nat): int {
    if p < |l| then l[p] else if l != [] then l[|l| - 1] else 0
  }

  /** seekState's scan over the first n sub-iterators: the first live head in
      iteration order, the earliest sub-iterator winning ties; 0 when none is live. */
  function Pick(lists: seq<seq<int>>, reverse: bool, pos: seq<nat>, n: nat): int
    requires n <= |pos| == |lists|
  {
    if n == 0 then 0
    else
      var best := Pick(lists, reverse, pos, n - 1);
      if pos[n - 1] >= |lists[n - 1]| then best
      else
        var rev := lists[n - 1][pos[n - 1]];
        if best == 0 || Rank(rev, reverse) < Rank(best, reverse) then rev else best
  }

  // The first sub-iterator of those from n on whose current revision is rev.
  function Standing(lists: seq<seq<int>>, pos: seq<nat>, rev: int, n: nat): (k: nat)
    requires n <= |pos| == |lists|
    ensures n <= k <= |lists|
    ensures k < |lists| ==> CurrentOf(lists[k], pos[k]) == rev
    ensures forall i | n <= i < k :: CurrentOf(lists[i], pos[i]) != rev
    decreases |lists| - n
  {
    if n == |lists| || CurrentOf(lists[n], pos[n]) == rev then n else Standing(lists, pos, rev, n + 1)
  }

  ghost function Seek(o: Or): Or
    requires |o.pos| == |o.lists|
  {
    var rev := Pick(o.lists, o.reverse, o.pos, |o.lists|);
    if rev == 0 then o.(valid := false) else o.(current := rev)
  }

  // Next's advance, of one sub-iterator at most.
  function Advance(lists: seq<seq<int>>, pos: seq<nat>, rev: int): seq<nat>
    requires |pos| == |lists|
  {
    var k := Standing(lists, pos, rev, 0);
    if k < |lists| && pos[k] < |lists[k]| then pos[k := pos[k] + 1] else pos
  }

  ghost function NextOf(o: Or): Or
    requires |o.pos| == |o.lists|
  {
    if o.valid then Seek(o.(pos := Advance(o.lists, o.pos, o.current))) else o
  }

  ghost function Opened(lists: seq<seq<int>>, reverse: bool): Or {
    Seek(Or(lists, reverse, seq(|lists|, _ => 0), true, 0))
  }

  // ------------------------------------------------------------- what a pick is

  ghost predicate Live(o: Or, i: nat) {
    i < |o.lists| && i < |o.pos| && o.pos[i] < |o.lists[i]|
  }

  lemma {:induction false} PickIsLeast(o: Or, n: nat)
    requires Well(o) && n <= |o.lists|
    ensures var rev := Pick(o.lists, o.reverse, o.pos, n);
            && (rev != 0 ==> exists i {:trigger Live(o, i)} :: 0 <= i < n && Live(o, i) && o.lists[i][o.pos[i]] == rev)
            && forall i {:trigger Live(o, i)} | 0 <= i < n && Live(o, i) ::
                 rev != 0 && Rank(rev, o.reverse) <= Rank(o.lists[i][o.pos[i]], o.reverse)
  {
    if n > 0 {
      PickIsLeast(o, n - 1);
      assert Positive(o.lists[n - 1]);
      if Live(o, n - 1) {
        assert o.lists[n - 1][o.pos[n - 1]] > 0;
      }
    }
  }

  // ------------------------------------------------------------- disjoint sub-iterators

  ghost predicate InAny(lists: seq<seq<int>>, rev: int) {
    exists i {:trigger Has(lists[i], rev)} :: 0 <= i < |lists| && Has(lists[i], rev)
  }

  // No revision is yielded by two sub-iterators.
  ghost predicate Disjoint(lists: seq<seq<int>>) {
    forall i, j, rev {:trigger Has(lists[i], rev), Has(lists[j], rev)} |
      0 <= i < |lists| && 0 <= j < |lists| && Has(lists[i], rev) && Has(lists[j], rev) :: i == j
  }

  // The cursor splits the list at rank `since`.
  ghost predicate Splits(l: seq<int>, reverse: bool, p: nat, since: int) {
    && p <= |l|
    && (forall q | 0 <= q < p :: Rank(l[q], reverse) < since)
    && forall q | p <= q < |l| :: since <= Rank(l[q], reverse)
  }

  ghost predicate SplitAll(o: Or, since: int) {
    Well(o) && forall i | 0 <= i < |o.lists| :: Splits(o.lists[i], o.reverse, o.pos[i], since)
  }

  ghost predicate FirstOfAny(lists: seq<seq<int>>, reverse: bool, since: int, rev: int) {
    && InAny(lists, rev) && since <= Rank(rev, reverse)
    && forall r {:trigger InAny(lists, r)} | InAny(lists, r) && since <= Rank(r, reverse) :: Rank(rev, reverse) <= Rank(r, reverse)
  }

  ghost predicate NoneOfAny(lists: seq<seq<int>>, reverse: bool, since: int) {
    forall r {:trigger InAny(lists, r)} | InAny(lists, r) :: Rank(r, reverse) < since
  }

  /** The merge stands on the first revision from the bound on, or has ended. */
  ghost predicate Stands(o: Or, since: int) {
    if o.valid then SplitAll(o, since) && FirstOfAny(o.lists, o.reverse, since, o.current)
    else NoneOfAny(o.lists, o.reverse, since)
  }

  // A revision past the bound is not behind its cursor.
  lemma AheadOf(o: Or, since: int, i: nat, r: int) returns (q: nat)
    requires SplitAll(o, since) && i < |o.lists| && Has(o.lists[i], r) && since <= Rank(r, o.reverse)
    ensures o.pos[i] <= q < |o.lists[i]| && o.lists[i][q] == r && Live(o, i)
    ensures Rank(o.lists[i][o.pos[i]], o.reverse) <= Rank(r, o.reverse)
  {
    var l := o.lists[i];
    q :| 0 <= q < |l| && l[q] == r;
    assert Splits(l, o.reverse, o.pos[i], since) && Sorted(l, o.reverse);
    assert q >= o.pos[i];
  }

  lemma {:induction false} SeekStands(o: Or, since: int)
    requires SplitAll(o, since) && o.valid
    ensures Stands(Seek(o), since)
  {
    PickIsLeast(o, |o.lists|);
    var rev := Pick(o.lists, o.reverse, o.pos, |o.lists|);
    forall r {:trigger InAny(o.lists, r)} | InAny(o.lists, r) && since <= Rank(r, o.reverse)
      ensures rev != 0 && Rank(rev, o.reverse) <= Rank(r, o.reverse)
    {
      var i :| 0 <= i < |o.lists| && Has(o.lists[i], r);
      var q := AheadOf(o, since, i, r);
    }
    if rev != 0 {
      var i {:trigger Live(o, i)} :| 0 <= i < |o.lists| && Live(o, i) && o.lists[i][o.pos[i]] == rev;
      assert Has(o.lists[i], rev);
      assert Splits(o.lists[i], o.reverse, o.pos[i], since);
    }
  }

  lemma OpenedStands(lists: seq<seq<int>>, reverse: bool, since: int)
    requires AllSorted(lists, reverse) && forall i | 0 <= i < |lists| :: Positive(lists[i])
    requires since <= -MAX_INT64
    ensures Stands(Opened(lists, reverse), since)
  {
    var o := Or(lists, reverse, seq(|lists|, _ => 0), true, 0);
    forall i | 0 <= i < |lists| ensures Splits(lists[i], reverse, 0, since) {
      assert Sorted(lists[i], reverse);
    }
    SeekStands(o, since);
  }

  // When no revision is shared, exactly the sub-iterator at `current` steps.
  lemma {:induction false} AdvanceSplits(o: Or, since: int)
    requires o.valid && Stands(o, since) && Disjoint(o.lists)
    ensures SplitAll(o.(pos := Advance(o.lists, o.pos, o.current)), Rank(o.current, o.reverse) + 1)
  {
    var h :| 0 <= h < |o.lists| && Has(o.lists[h], o.current);
    HeadIsCurrent(o, since, h);
    AdvancesHolder(o, h);
    hide Advance, Splits, Has, Sorted;
    forall i | 0 <= i < |o.lists| && i != h ensures Splits(o.lists[i], o.reverse, o.pos[i], Rank(o.current, o.reverse) + 1) {
      OthersSplit(o, since, h, i);
    }
    OneStepped(o, since, h);
  }

  lemma OneStepped(o: Or, since: int, h: nat)
    requires SplitAll(o, since) && Live(o, h) && o.lists[h][o.pos[h]] == o.current
    requires forall i | 0 <= i < |o.lists| && i != h :: Splits(o.lists[i], o.reverse, o.pos[i], Rank(o.current, o.reverse) + 1)
    ensures SplitAll(o.(pos := o.pos[h := o.pos[h] + 1]), Rank(o.current, o.reverse) + 1)
  {
    var l, p := o.lists[h], o.pos[h];
    assert Sorted(l, o.reverse) && Splits(l, o.reverse, p, since);
    assert Splits(l, o.reverse, p + 1, Rank(o.current, o.reverse) + 1);
  }

  lemma HeadIsCurrent(o: Or, since: int, h: nat)
    requires o.valid && Stands(o, since) && h < |o.lists| && Has(o.lists[h], o.current)
    ensures Live(o, h) && o.lists[h][o.pos[h]] == o.current
  {
    var q := AheadOf(o, since, h, o.current);
    var head := o.lists[h][o.pos[h]];
    assert Splits(o.lists[h], o.reverse, o.pos[h], since);
    assert Has(o.lists[h], head) && InAny(o.lists, head);
  }

  lemma OnlyHolder(o: Or, h: nat, k: nat)
    requires Well(o) && Disjoint(o.lists) && Live(o, h) && o.lists[h][o.pos[h]] == o.current
    requires k == Standing(o.lists, o.pos, o.current, 0)
    ensures k == h
  {
    assert CurrentOf(o.lists[h], o.pos[h]) == o.current;
    assert Has(o.lists[h], o.current) && Positive(o.lists[h]);
    var l := o.lists[k];
    assert o.current > 0 && l != [];
    assert Has(l, o.current) by {
      assert l[if o.pos[k] < |l| then o.pos[k] else |l| - 1] == o.current;
    }
  }

  lemma AdvancesHolder(o: Or, h: nat)
    requires Well(o) && Disjoint(o.lists) && Live(o, h) && o.lists[h][o.pos[h]] == o.current
    ensures Advance(o.lists, o.pos, o.current) == o.pos[h := o.pos[h] + 1]
  {
    OnlyHolder(o, h, Standing(o.lists, o.pos, o.current, 0));
  }

  lemma OthersSplit(o: Or, since: int, h: nat, i: nat)
    requires o.valid && Stands(o, since) && Disjoint(o.lists)
    requires h < |o.lists| && Has(o.lists[h], o.current) && i < |o.lists| && i != h
    ensures Splits(o.lists[i], o.reverse, o.pos[i], Rank(o.current, o.reverse) + 1)
  {
    var l := o.lists[i];
    assert Splits(l, o.reverse, o.pos[i], since);
    forall q | o.pos[i] <= q < |l| ensures Rank(o.current, o.reverse) < Rank(l[q], o.reverse) {
      assert Has(l, l[q]) && InAny(o.lists, l[q]);
    }
  }

  /** One Next over disjoint sub-iterators goes to the next revision of the union. */
  lemma NextStands(o: Or, since: int)
    requires o.valid && Stands(o, since) && Disjoint(o.lists)
    ensures Stands(NextOf(o), Rank(o.current, o.reverse) + 1)
    ensures NextOf(o).lists == o.lists && NextOf(o).reverse == o.reverse
  {
    AdvanceSplits(o, since);
    SeekStands(o.(pos := Advance(o.lists, o.pos, o.current)), Rank(o.current, o.reverse) + 1);
  }

  ghost predicate IsUnion(out: seq<int>, lists: seq<seq<int>>, reverse: bool, since: int) {
    && Sorted(out, reverse)
    && forall rev :: Has(out, rev) <==> InAny(lists, rev) && since <= Rank(rev, reverse)
  }

  // ------------------------------------------------------------- whole runs

  // The states between calls of Next, up to the one that ended the merge.
  ghost predicate IsRun(run: seq<Or>) {
    && |run| > 0 && !run[|run| - 1].valid
    && forall i | 0 <= i < |run| - 1 ::
         run[i].valid && |run[i].pos| == |run[i].lists| && run[i + 1] == NextOf(run[i])
  }

  function Yields(run: seq<Or>): seq<int>
    requires |run| > 0
  {
    seq(|run| - 1, i requires 0 <= i < |run| - 1 => run[i].current)
  }

  lemma {:induction false} RunFrom(o: Or, since: int) returns (run: seq<Or>)
    requires Stands(o, since) && Disjoint(o.lists) && AllSorted(o.lists, o.reverse)
    ensures IsRun(run) && run[0] == o && IsUnion(Yields(run), o.lists, o.reverse, since)
    decreases if o.valid then MAX_INT64 + 1 - Rank(o.current, o.reverse) else -MAX_INT64
  {
    if !o.valid {
      run := [o];
      assert Yields(run) == [];
    } else {
      InRange(o.lists, o.reverse, o.current);
      NextStands(o, since);
      var rest := RunFrom(NextOf(o), Rank(o.current, o.reverse) + 1);
      run := [o] + rest;
      RunCons(o, rest);
      UnionCons(o.lists, o.reverse, since, o.current, Yields(rest));
    }
  }

  lemma RunCons(o: Or, rest: seq<Or>)
    requires o.valid && |o.pos| == |o.lists| && IsRun(rest) && rest[0] == NextOf(o)
    ensures IsRun([o] + rest) && Yields([o] + rest) == [o.current] + Yields(rest)
  {
    hide NextOf;
    var run := [o] + rest;
    assert forall i | 0 < i < |run| :: run[i] == rest[i - 1];
  }

  lemma InRange(lists: seq<seq<int>>, reverse: bool, rev: int)
    requires AllSorted(lists, reverse) && InAny(lists, rev)
    ensures 0 <= rev <= MAX_INT64
  {
    var i :| 0 <= i < |lists| && Has(lists[i], rev);
    assert Sorted(lists[i], reverse);
  }

  lemma UnionCons(lists: seq<seq<int>>, reverse: bool, since: int, rev: int, rest: seq<int>)
    requires FirstOfAny(lists, reverse, since, rev) && IsUnion(rest, lists, reverse, Rank(rev, reverse) + 1)
    requires 0 <= rev <= MAX_INT64
    ensures IsUnion([rev] + rest, lists, reverse, since)
  {
    var out := [rev] + rest;
    forall r ensures Has(out, r) <==> InAny(lists, r) && since <= Rank(r, reverse) {
      HasCons(rev, rest, r);
    }
    forall j | 0 <= j < |rest| ensures Rank(rev, reverse) < Rank(rest[j], reverse) {
      assert Has(rest, rest[j]);
    }
  }

  lemma HasCons(x: int, rest: seq<int>, r: int)
    ensures Has([x] + rest, r) <==> r == x || Has(rest, r)
  {
    assert ([x] + rest)[0] == x;
    if Has(rest, r) {
      var i :| 0 <= i < |rest| && rest[i] == r;
      assert ([x] + rest)[i + 1] == r;
    }
  }

  lemma AdvanceWell(o: Or)
    requires Well(o)
    ensures Well(o.(pos := Advance(o.lists, o.pos, o.current)))
  {
  }

  lemma {:induction false} RunWell(run: seq<Or>, lists: seq<seq<int>>, reverse: bool, n: nat)
    requires IsRun(run) && n < |run| && run[0] == Opened(lists, reverse) && Well(Or(lists, reverse, seq(|lists|, _ => 0), true, 0))
    ensures Well(run[n]) && run[n].lists == lists && run[n].reverse == reverse
  {
    if n > 0 {
      RunWell(run, lists, reverse, n - 1);
      AdvanceWell(run[n - 1]);
      assert run[n] == NextOf(run[n - 1]);
    }
  }

  /** Whatever a run has passed, it stood on when it passed it. */
  lemma {:induction false} PassedOnce(run: seq<Or>, lists: seq<seq<int>>, reverse: bool, n: nat, i: nat, p: nat) returns (m: nat)
    requires IsRun(run) && n < |run| && run[0] == Opened(lists, reverse) && Well(Or(lists, reverse, seq(|lists|, _ => 0), true, 0))
    requires i < |lists| && |run[n].pos| == |lists| && p < run[n].pos[i]
    ensures m < n && |run[m].pos| == |run[m + 1].pos| == |lists|
    ensures run[m].lists == lists && run[m].pos[i] == p && run[m + 1].pos[i] == p + 1
  {
    RunWell(run, lists, reverse, n);
    RunWell(run, lists, reverse, n - 1);
    AtMostOneStep(run[n - 1], i);
    hide Well, NextOf, Opened;
    if p < run[n - 1].pos[i] {
      m := PassedOnce(run, lists, reverse, n - 1, i, p);
    } else {
      m := n - 1;
    }
  }

  lemma AtMostOneStep(o: Or, i: nat)
    requires |o.pos| == |o.lists| && i < |o.lists|
    ensures |NextOf(o).pos| == |o.lists| && o.pos[i] <= NextOf(o).pos[i] <= o.pos[i] + 1
  {
  }

  lemma SteppedAlone(o: Or, i: nat)
    requires o.valid && |o.pos| == |o.lists| && i < |o.lists| && NextOf(o).pos[i] != o.pos[i]
    ensures o.pos[i] < |o.lists[i]| && o.lists[i][o.pos[i]] == o.current
    ensures i == Standing(o.lists, o.pos, o.current, 0)
  {
  }

  lemma EndedMeansDone(run: seq<Or>, lists: seq<seq<int>>, reverse: bool)
    requires IsRun(run) && run[0] == Opened(lists, reverse) && Well(Or(lists, reverse, seq(|lists|, _ => 0), true, 0))
    ensures var o := run[|run| - 1];
            |o.pos| == |lists| && forall i | 0 <= i < |lists| :: o.pos[i] == |lists[i]|
  {
    var n := |run| - 1;
    RunWell(run, lists, reverse, n);
    if n == 0 {
      SeekEnded(Or(lists, reverse, seq(|lists|, _ => 0), true, 0));
    } else {
      RunWell(run, lists, reverse, n - 1);
      AdvanceWell(run[n - 1]);
      assert run[n] == NextOf(run[n - 1]);
      SeekEnded(run[n - 1].(pos := Advance(run[n - 1].lists, run[n - 1].pos, run[n - 1].current)));
    }
  }

  lemma SeekEnded(o: Or)
    requires Well(o) && o.valid && !Seek(o).valid
    ensures forall i | 0 <= i < |o.lists| :: Seek(o).pos[i] == |o.lists[i]|
  {
    PickIsLeast(o, |o.lists|);
    forall i | 0 <= i < |o.lists| ensures Seek(o).pos[i] == |o.lists[i]| {
      assert !Live(o, i);
      assert o.pos[i] <= |o.lists[i]|;
    }
  }

  lemma {:induction false} StrictRunsAreDisjoint(run: seq<Or>, lists: seq<seq<int>>, reverse: bool)
    requires IsRun(run) && run[0] == Opened(lists, reverse) && Well(Or(lists, reverse, seq(|lists|, _ => 0), true, 0))
    requires Sorted(Yields(run), reverse)
    ensures Disjoint(lists)
  {
    EndedMeansDone(run, lists, reverse);
    var n := |run| - 1;
    forall i, j, rev | 0 <= i < |lists| && 0 <= j < |lists| && Has(lists[i], rev) && Has(lists[j], rev)
      ensures i == j
    {
      var p :| 0 <= p < |lists[i]| && lists[i][p] == rev;
      var q :| 0 <= q < |lists[j]| && lists[j][q] == rev;
      var m := PassedAt(run, lists, reverse, i, p);
      var m' := PassedAt(run, lists, reverse, j, q);
      var ys := Yields(run);
      assert ys[m] == ys[m'] == rev;
      assert m == m';
    }
  }

  lemma PassedAt(run: seq<Or>, lists: seq<seq<int>>, reverse: bool, i: nat, p: nat) returns (m: nat)
    requires IsRun(run) && run[0] == Opened(lists, reverse) && Well(Or(lists, reverse, seq(|lists|, _ => 0), true, 0))
    requires i < |lists| && p < |lists[i]|
    ensures m < |run| - 1 && run[m].lists == lists && |run[m].pos| == |lists|
    ensures run[m].current == lists[i][p] && i == Standing(lists, run[m].pos, run[m].current, 0)
  {
    EndedMeansDone(run, lists, reverse);
    m := PassedOnce(run, lists, reverse, |run| - 1, i, p);
    assert run[m + 1] == NextOf(run[m]);
    SteppedAlone(run[m], i);
  }

  ghost predicate YieldsInOrder(run: seq<Or>, lists: seq<seq<int>>, reverse: bool) {
    IsRun(run) && run[0] == Opened(lists, reverse) && Sorted(Yields(run), reverse)
  }

  /** The merge ends, having yielded in strict order, exactly when no revision is
      yielded by two sub-iterators; what it has yielded then is their union. */
  lemma OrderedExactlyWhenDisjoint(lists: seq<seq<int>>, reverse: bool)
    requires AllSorted(lists, reverse) && forall i | 0 <= i < |lists| :: Positive(lists[i])
    ensures (exists run :: YieldsInOrder(run, lists, reverse)) <==> Disjoint(lists)
    ensures Disjoint(lists) ==>
              exists run :: YieldsInOrder(run, lists, reverse) && IsUnion(Yields(run), lists, reverse, -MAX_INT64)
  {
    if run :| YieldsInOrder(run, lists, reverse) {
      StrictRunsAreDisjoint(run, lists, reverse);
    }
    if Disjoint(lists) {
      OpenedStands(lists, reverse, -MAX_INT64);
      var run := RunFrom(Opened(lists, reverse), -MAX_INT64);
      assert YieldsInOrder(run, lists, reverse);
    }
  }

  /** What goes wrong otherwise: once an ended sub-iterator's last revision is
      met again further along, Next changes nothing, for ever. */
  lemma EndedHolderSticks(o: Or)
    requires Well(o) && o.valid && o.current == Pick(o.lists, o.reverse, o.pos, |o.lists|) != 0
    requires var k := Standing(o.lists, o.pos, o.current, 0); k < |o.lists| && o.pos[k] == |o.lists[k]|
    ensures NextOf(o) == o
  {
  }

  /** Two label sets that share revision 5 and nothing more: after one call of
      Next the merge is stuck on it. */
  lemma SharedRevisionSticks()
    ensures var o := NextOf(Opened([[5], [5]], false)); o.valid && o.current == 5 && NextOf(o) == o
  {
    var lists: seq<seq<int>> := [[5], [5]];
    var o0 := Or(lists, false, seq(2, _ => 0), true, 0);
    assert o0.pos == [0, 0];
    assert Pick(lists, false, [0, 0], 1) == 5 && Pick(lists, false, [0, 0], 2) == 5;
    assert Standing(lists, [0, 0], 5, 0) == 0;
    assert [0, 0][0 := 1] == [1, 0];
    assert Pick(lists, false, [1, 0], 1) == 0 && Pick(lists, false, [1, 0], 2) == 5;
    assert Standing(lists, [1, 0], 5, 0) == 0;
  }

  // ------------------------------------------------------------- label sets

  /** lists[i] holds the revisions of the stored states that match the i-th set. */
  ghost predicate ListsOf(log: seq<State>, orLabels: seq<Dict>, lists: seq<seq<int>>) {
    && |lists| == |orLabels|
    && forall i, rev {:trigger Has(lists[i], rev)} | 0 <= i < |lists| ::
         Has(lists[i], rev) <==> MatchedAt(log, orLabels[i], rev)
  }

  ghost predicate MatchedAt(log: seq<State>, want: Dict, rev: int) {
    exists k :: 0 <= k < |log| && log[k].rev == rev && MatchesSet(log[k], want)
  }

  ghost predicate MatchedTwice(s: State, orLabels: seq<Dict>) {
    exists i, j :: 0 <= i < j < |orLabels| && MatchesSet(s, orLabels[i]) && MatchesSet(s, orLabels[j])
  }

  /** The sub-iterators of a query share no revision exactly when no stored state
      matches two of its label sets. */
  lemma {:induction false} DisjointExactlyWhenMatchedOnce(log: seq<State>, orLabels: seq<Dict>, lists: seq<seq<int>>)
    requires ListsOf(log, orLabels, lists) && Ordered(log)
    ensures Disjoint(lists) <==> forall k | 0 <= k < |log| :: !MatchedTwice(log[k], orLabels)
  {
    if Disjoint(lists) {
      forall k | 0 <= k < |log| ensures !MatchedTwice(log[k], orLabels) {
        if i, j :| 0 <= i < j < |orLabels| && MatchesSet(log[k], orLabels[i]) && MatchesSet(log[k], orLabels[j]) {
          MatchedTwiceIsShared(log, orLabels, lists, i, j, k);
        }
      }
    } else {
      var i, j, rev {:trigger Has(lists[i], rev), Has(lists[j], rev)} :|
        0 <= i < |lists| && 0 <= j < |lists| && Has(lists[i], rev) && Has(lists[j], rev) && i != j;
      SharedIsMatchedTwice(log, orLabels, lists, if i < j then i else j, if i < j then j else i, rev);
    }
  }

  lemma MatchedTwiceIsShared(log: seq<State>, orLabels: seq<Dict>, lists: seq<seq<int>>, i: nat, j: nat, k: nat)
    requires ListsOf(log, orLabels, lists) && i < j < |orLabels| && k < |log|
    requires MatchesSet(log[k], orLabels[i]) && MatchesSet(log[k], orLabels[j])
    ensures !Disjoint(lists)
  {
    var rev := log[k].rev;
    assert MatchedAt(log, orLabels[i], rev) && MatchedAt(log, orLabels[j], rev);
    assert Has(lists[i], rev) && Has(lists[j], rev);
  }

  lemma SharedIsMatchedTwice(log: seq<State>, orLabels: seq<Dict>, lists: seq<seq<int>>, i: nat, j: nat, rev: int)
    requires ListsOf(log, orLabels, lists) && Ordered(log) && i < j < |lists| && Has(lists[i], rev) && Has(lists[j], rev)
    ensures exists k :: 0 <= k < |log| && MatchedTwice(log[k], orLabels)
  {
    assert MatchedAt(log, orLabels[i], rev) && MatchedAt(log, orLabels[j], rev);
    var k :| 0 <= k < |log| && log[k].rev == rev && MatchesSet(log[k], orLabels[i]);
    var m :| 0 <= m < |log| && log[m].rev == rev && MatchesSet(log[m], orLabels[j]);
    assert k == m;
    assert MatchedTwice(log[k], orLabels);
  }

  // The label index: the revisions of the stored states that carry the pair.
  ghost predicate LabelledAt(log: seq<State>, key: Text, val: Text, rev: int) {
    exists k :: 0 <= k < |log| && log[k].rev == rev && key in log[k].labels && log[k].labels[key] == val
  }

  ghost predicate Indexed(log: seq<State>, p: Posting) {
    forall rev {:trigger Has(p.revs, rev)} :: Has(p.revs, rev) <==> LabelledAt(log, p.key, p.val, rev)
  }

  /** The postings opened for a label set: one for each of its pairs. */
  ghost predicate PostingsOf(log: seq<State>, want: Dict, labels: seq<Posting>) {
    && (forall i | 0 <= i < |labels| :: labels[i].key in want && labels[i].val == want[labels[i].key] && Indexed(log, labels[i]))
    && forall k | k in want :: Opens(labels, k)
  }

  ghost predicate Opens(labels: seq<Posting>, key: Text) {
    exists i :: 0 <= i < |labels| && labels[i].key == key
  }

  lemma {:induction false} KeptAll(labels: seq<Posting>)
    requires forall i | 0 <= i < |labels| :: labels[i].key != "" && labels[i].val != ""
    ensures |Kept(labels)| == |labels| && forall i | 0 <= i < |labels| :: Kept(labels)[i] == labels[i].revs
  {
    if labels != [] {
      KeptAll(labels[1..]);
    }
  }

  /** Intersecting the postings of a label set finds exactly the states the
      matchers accept, when the set has no empty key or value. */
  lemma IntersectionIsMatching(log: seq<State>, want: Dict, labels: seq<Posting>, rev: int)
    requires Ordered(log) && PostingsOf(log, want, labels) && labels != []
    requires forall k | k in want :: k != "" && want[k] != ""
    ensures InAll(Kept(labels), rev) <==> MatchedAt(log, want, rev)
  {
    KeptAll(labels);
    if InAll(Kept(labels), rev) {
      assert Has(Kept(labels)[0], rev) && Has(labels[0].revs, rev) && Indexed(log, labels[0]);
      var m :| 0 <= m < |log| && log[m].rev == rev && labels[0].key in log[m].labels;
      forall k | k in want ensures k in log[m].labels && log[m].labels[k] == want[k] {
        assert Opens(labels, k);
        var i :| 0 <= i < |labels| && labels[i].key == k;
        assert Has(Kept(labels)[i], rev) && Has(labels[i].revs, rev) && Indexed(log, labels[i]);
        var n :| 0 <= n < |log| && log[n].rev == rev && k in log[n].labels && log[n].labels[k] == want[k];
        assert n == m;
      }
      SubsetSize(want.Keys, log[m].labels.Keys);
      assert MatchesSet(log[m], want);
    }
    if MatchedAt(log, want, rev) {
      var m :| 0 <= m < |log| && log[m].rev == rev && MatchesSet(log[m], want);
      forall i | 0 <= i < |labels| ensures Has(Kept(labels)[i], rev) {
        var p := labels[i];
        assert p.key in want && Lookup(log[m].labels, p.key) == want[p.key];
        assert LabelledAt(log, p.key, p.val, rev) && Indexed(log, p);
        assert Has(p.revs, rev);
      }
    }
  }

  // ------------------------------------------------------------- the object

  /** orIterator over sub-iterators given by what they yield. */
  class OrIterator {
    const lists: seq<seq<int>>
    const reverse: bool
    var pos: seq<nat>
    var valid: bool
    var current: int

    ghost function Model(): Or
      reads this
    {
      Or(lists, reverse, pos, valid, current)
    }

    constructor (lists: seq<seq<int>>, reverse: bool)
      requires AllSorted(lists, reverse) && forall i | 0 <= i < |lists| :: Positive(lists[i])
      ensures this.lists == lists && this.reverse == reverse && |pos| == |lists|
      ensures Model() == Opened(lists, reverse)
    {
      this.lists, this.reverse := lists, reverse;
      pos, valid, current := seq(|lists|, _ => 0), true, 0;
      new;
      SeekState();
    }

    method Next()
      requires Well(Model())
      modifies this
      ensures Model() == NextOf(old(Model()))
    {
      if !valid {
        return;
      }
      AdvanceWell(Model());
      AdvanceOne();
      SeekState();
    }

    method AdvanceOne()
      requires |pos| == |lists|
      modifies this`pos
      ensures pos == Advance(lists, old(pos), current)
    {
      for i := 0 to |lists|
        invariant pos == old(pos) && Standing(lists, pos, current, i) == Standing(lists, pos, current, 0)
      {
        if CurrentOf(lists[i], pos[i]) == current {
          if pos[i] < |lists[i]| {
            pos := pos[i := pos[i] + 1];
          }
          return;
        }
      }
    }

    method SeekState()
      requires Well(Model()) && valid
      modifies this
      ensures Model() == Seek(old(Model()))
    {
      var next, live := 0, 0;
      for i := 0 to |lists|
        invariant Model() == old(Model()) && next == Pick(lists, reverse, pos, i)
      {
        if pos[i] < |lists[i]| {
          var rev := lists[i][pos[i]];
          if next == 0 || (if reverse then rev > next else rev < next) {
            next := rev;
          }
        }
      }
      for i := 0 to |lists|
        invariant Model() == old(Model())
        invariant live > 0 <==> exists j {:trigger Live(Model(), j)} :: 0 <= j < i && Live(Model(), j)
      {
        if pos[i] < |lists[i]| {
          assert Live(Model(), i);
          live := live + 1;
        }
      }
      PickIsLeast(Model(), |lists|);
      if live == 0 {
        valid := false;
        return;
      }
      current := next;
    }
  }

  /** The loop a query runs over the merge. */
  method DrainOr(it: OrIterator, ghost since: int) returns (out: seq<int>)
    requires Stands(it.Model(), since) && Disjoint(it.lists) && AllSorted(it.lists, it.reverse)
    modifies it
    ensures IsUnion(out, it.lists, it.reverse, since)
  {
    out := [];
    ghost var run := RunFrom(it.Model(), since);
    ghost var next := since;
    hide IsRun, Yields, NextOf, IsUnion, Stands, Disjoint, AllSorted, Follows;
    FollowStart(run, it.Model(), since);
    while it.valid
      invariant Follows(run, it.Model(), out, next)
      decreases |run| - |out|
    {
      FollowStep(run, it.Model(), out, next);
      next := Rank(it.current, it.reverse) + 1;
      out := out + [it.current];
      it.Next();
    }
    FollowEnd(run, it.Model(), out, next);
  }

  lemma FollowStart(run: seq<Or>, o: Or, since: int)
    requires IsRun(run) && run[0] == o && Stands(o, since) && Disjoint(o.lists)
    ensures Follows(run, o, [], since)
  {
    hide Stands, Disjoint, NextOf;
    assert Yields(run)[..0] == [];
  }

  lemma FollowEnd(run: seq<Or>, o: Or, out: seq<int>, next: int)
    requires Follows(run, o, out, next) && !o.valid
    ensures out == Yields(run)
  {
    hide Stands, Disjoint, NextOf;
    assert |out| == |run| - 1;
  }

  // The merge is at the |out|-th state of the run, having yielded `out`.
  ghost predicate Follows(run: seq<Or>, o: Or, out: seq<int>, next: int) {
    && IsRun(run) && |out| < |run| && run[|out|] == o && out == Yields(run)[..|out|]
    && Stands(o, next) && Disjoint(o.lists)
  }

  lemma FollowStep(run: seq<Or>, o: Or, out: seq<int>, next: int)
    requires Follows(run, o, out, next) && o.valid
    ensures Well(o) && |out| + 1 < |run|
    ensures Follows(run, NextOf(o), out + [o.current], Rank(o.current, o.reverse) + 1)
  {
    NextStands(o, next);
    assert |out| < |run| - 1 && Yields(run)[|out|] == o.current;
    assert run[|out| + 1] == NextOf(o);
    hide Stands, NextOf;
    assert Yields(run)[..|out| + 1] == Yields(run)[..|out|] + [o.current];
  }
}
