/** The leapfrog intersection of badgerdriver/labelsiterator.go over sorted
    posting lists, walked forward or in reverse. */
module LabelsIterators {
  import opened States

  const MAX_INT64 := 0x7fff_ffff_ffff_ffff

  // Iteration order as ascending order: forward by revision, reverse by its negation.
  function Rank(rev: int, reverse: bool): int {
    if reverse then -rev else rev
  }

  /** Revisions in iteration order. */
  ghost predicate Sorted(l: seq<int>, reverse: bool) {
    && (forall i, j | 0 <= i < j < |l| :: Rank(l[i], reverse) < Rank(l[j], reverse))
    && forall i | 0 <= i < |l| :: 0 <= l[i] <= MAX_INT64
  }

  ghost predicate AllSorted(lists: seq<seq<int>>, reverse: bool) {
    forall i | 0 <= i < |lists| :: Sorted(lists[i], reverse)
  }

  ghost predicate Has(l: seq<int>, rev: int) {
    exists i :: 0 <= i < |l| && l[i] == rev
  }

  ghost predicate InAll(lists: seq<seq<int>>, rev: int) {
    forall i | 0 <= i < |lists| :: Has(lists[i], rev)
  }

  // Badger's Seek: the first position at or past a revision, in iteration order.
  function FirstAt(l: seq<int>, reverse: bool, rev: int): (k: nat)
    ensures k <= |l|
    ensures forall i | 0 <= i < k :: Rank(l[i], reverse) < Rank(rev, reverse)
    ensures k < |l| ==> Rank(rev, reverse) <= Rank(l[k], reverse)
  {
    if l == [] || Rank(rev, reverse) <= Rank(l[0], reverse) then 0
    else 1 + FirstAt(l[1..], reverse, rev)
  }

  // ------------------------------------------------------------- what is yielded

  /** No revision common to all lists has a rank in [since, target). */
  ghost predicate NoneBetween(lists: seq<seq<int>>, reverse: bool, since: int, target: int) {
    forall rev {:trigger InAll(lists, rev)} | InAll(lists, rev) && since <= Rank(rev, reverse) :: target <= Rank(rev, reverse)
  }

  ghost predicate NoneLeft(lists: seq<seq<int>>, reverse: bool, since: int) {
    forall rev {:trigger InAll(lists, rev)} | InAll(lists, rev) :: Rank(rev, reverse) < since
  }

  /** The first common revision whose rank is at least `since`. */
  ghost predicate First(lists: seq<seq<int>>, reverse: bool, since: int, rev: int) {
    InAll(lists, rev) && since <= Rank(rev, reverse) && NoneBetween(lists, reverse, since, Rank(rev, reverse))
  }

  /** The sequence is the intersection from the bound on: exactly the common
      revisions, in iteration order, each once. */
  ghost predicate IsIntersection(out: seq<int>, lists: seq<seq<int>>, reverse: bool, since: int) {
    && Sorted(out, reverse)
    && forall rev :: Has(out, rev) <==> InAll(lists, rev) && since <= Rank(rev, reverse)
  }

  // ------------------------------------------------------------- seeking

  ghost predicate HeadOK(lists: seq<seq<int>>, reverse: bool, since: int, l: seq<int>, p: nat) {
    p < |l| && since <= Rank(l[p], reverse) && NoneBetween(lists, reverse, since, Rank(l[p], reverse))
  }

  /** Every cursor stands at or past `since`, with no common revision behind it. */
  ghost predicate NothingSkipped(lists: seq<seq<int>>, reverse: bool, pos: seq<nat>, since: int) {
    |pos| == |lists| && forall i | 0 <= i < |lists| :: HeadOK(lists, reverse, since, lists[i], pos[i])
  }

  lemma {:induction false} SeekSkipsNothing(lists: seq<seq<int>>, reverse: bool, since: int, i: nat, target: int)
    requires AllSorted(lists, reverse) && i < |lists|
    requires since <= Rank(target, reverse) && NoneBetween(lists, reverse, since, Rank(target, reverse))
    ensures var k := FirstAt(lists[i], reverse, target);
            if k < |lists[i]| then HeadOK(lists, reverse, since, lists[i], k) else NoneLeft(lists, reverse, since)
  {
    var l, k := lists[i], FirstAt(lists[i], reverse, target);
    forall rev {:trigger InAll(lists, rev)} | InAll(lists, rev) && since <= Rank(rev, reverse)
      ensures k < |l| && Rank(l[k], reverse) <= Rank(rev, reverse)
    {
      assert Has(l, rev);
      var j :| 0 <= j < |l| && l[j] == rev;
      assert k <= j;
    }
  }

  lemma FirstOf(lists: seq<seq<int>>, reverse: bool, pos: seq<nat>, since: int, rev: int)
    requires |lists| > 0 && NothingSkipped(lists, reverse, pos, since)
    requires forall i | 0 <= i < |lists| :: lists[i][pos[i]] == rev
    ensures First(lists, reverse, since, rev)
  {
    forall i | 0 <= i < |lists| ensures Has(lists[i], rev) {
      assert HeadOK(lists, reverse, since, lists[i], pos[i]);
      assert lists[i][pos[i]] == rev;
    }
    assert HeadOK(lists, reverse, since, lists[0], pos[0]);
  }

  /** Stepping one cursor past a common revision everything before which is done. */
  lemma StepSkipsNothing(lists: seq<seq<int>>, reverse: bool, i: nat, p: nat, rev: int)
    requires AllSorted(lists, reverse) && i < |lists| && p < |lists[i]| && lists[i][p] == rev
    ensures var since := Rank(rev, reverse) + 1;
            if p + 1 < |lists[i]| then HeadOK(lists, reverse, since, lists[i], p + 1) else NoneLeft(lists, reverse, since)
  {
    var l := lists[i];
    forall r {:trigger InAll(lists, r)} | InAll(lists, r) && Rank(rev, reverse) < Rank(r, reverse)
      ensures p + 1 < |l| && Rank(l[p + 1], reverse) <= Rank(r, reverse)
    {
      assert Has(l, r);
      var j :| 0 <= j < |l| && l[j] == r;
      assert Sorted(l, reverse) && p < j;
      assert j == p + 1 || Rank(l[p + 1], reverse) < Rank(l[j], reverse);
    }
  }

  // Every list's cursor is where seeking `since` puts it.
  ghost predicate Sought(lists: seq<seq<int>>, pos: seq<nat>, reverse: bool, since: int) {
    |pos| == |lists| && forall i | 0 <= i < |lists| :: pos[i] == FirstAt(lists[i], reverse, since) < |lists[i]|
  }

  ghost predicate SomeEnded(lists: seq<seq<int>>, reverse: bool, since: int) {
    exists i :: 0 <= i < |lists| && FirstAt(lists[i], reverse, since) == |lists[i]|
  }

  lemma Appended(lists: seq<seq<int>>, reverse: bool, since: int, l: seq<int>)
    ensures SomeEnded(lists, reverse, since) ==> SomeEnded(lists + [l], reverse, since)
    ensures FirstAt(l, reverse, since) == |l| ==> SomeEnded(lists + [l], reverse, since)
  {
    var all := lists + [l];
    assert all[|lists|] == l;
    if SomeEnded(lists, reverse, since) {
      var i :| 0 <= i < |lists| && FirstAt(lists[i], reverse, since) == |lists[i]|;
      assert all[i] == lists[i];
    }
  }

  // The constructor's seeks.
  lemma FirstSeek(lists: seq<seq<int>>, reverse: bool, since: int)
    requires AllSorted(lists, reverse)
    ensures forall i | 0 <= i < |lists| ::
              var k := FirstAt(lists[i], reverse, since);
              if k < |lists[i]| then HeadOK(lists, reverse, Rank(since, reverse), lists[i], k)
              else NoneLeft(lists, reverse, Rank(since, reverse))
  {
    forall i | 0 <= i < |lists|
      ensures var k := FirstAt(lists[i], reverse, since);
              if k < |lists[i]| then HeadOK(lists, reverse, Rank(since, reverse), lists[i], k)
              else NoneLeft(lists, reverse, Rank(since, reverse))
    {
      SeekSkipsNothing(lists, reverse, Rank(since, reverse), i, since);
    }
  }

  // ------------------------------------------------------------- the object

  /** A label pair of the query with its posting list, in iteration order. */
  datatype Posting = Posting(key: Text, val: Text, revs: seq<int>)

  // The pairs the constructor opens an iterator for.
  function Kept(labels: seq<Posting>): seq<seq<int>> {
    if labels == [] then []
    else (if labels[0].key == "" || labels[0].val == "" then [] else [labels[0].revs]) + Kept(labels[1..])
  }

  lemma {:induction false} KeptSnoc(labels: seq<Posting>, p: Posting)
    ensures Kept(labels + [p]) == Kept(labels) + if p.key == "" || p.val == "" then [] else [p.revs]
  {
    if labels == [] {
      assert labels + [p] == [p];
    } else {
      KeptSnoc(labels[1..], p);
      assert (labels + [p])[1..] == labels[1..] + [p];
    }
  }

  lemma {:induction false} KeptSorted(labels: seq<Posting>, reverse: bool)
    requires forall i | 0 <= i < |labels| :: Sorted(labels[i].revs, reverse)
    ensures AllSorted(Kept(labels), reverse)
  {
    if labels != [] {
      KeptSorted(labels[1..], reverse);
    }
  }

  // Where a query starts: a reverse query from revision 0 starts at the end.
  function Start(reverse: bool, sinceRev: int): int {
    if reverse && sinceRev == 0 then MAX_INT64 else sinceRev
  }

  /** labelsIterator; its[i] is the Badger iterator at lists[i][pos[i]]. */
  class LabelsIterator {
    var lists: seq<seq<int>>
    var pos: seq<nat>
    const reverse: bool
    var valid: bool
    var current: int

    /** While valid, every cursor stands on the current revision. */
    ghost predicate Valid()
      reads this
    {
      && AllSorted(lists, reverse)
      && (valid ==> |lists| > 0 && |pos| == |lists|)
      && (valid ==> forall i | 0 <= i < |lists| :: pos[i] < |lists[i]| && lists[i][pos[i]] == current)
    }

    /** Standing on the first common revision from the bound on, or closed because there is none. */
    ghost predicate At(since: int)
      reads this
    {
      if valid then First(lists, reverse, since, current) else NoneLeft(lists, reverse, since)
    }

    constructor (labels: seq<Posting>, sinceRev: int, reverse: bool)
      requires forall i | 0 <= i < |labels| :: Sorted(labels[i].revs, reverse)
      ensures Valid() && lists == Kept(labels) && this.reverse == reverse
      ensures lists == [] ==> !valid
      ensures lists != [] ==> At(Rank(Start(reverse, sinceRev), reverse))
    {
      this.reverse := reverse;
      lists, pos, valid, current := [], [], true, 0;
      new;
      var since := if reverse && sinceRev == 0 then MAX_INT64 else sinceRev;
      KeptSorted(labels, reverse);
      Open(labels, since);
      if |lists| == 0 {
        Close();
        return;
      }
      FirstSeek(lists, reverse, since);
      if valid {
        SeekState(Rank(since, reverse));
      }
    }

    // Opens an iterator for every kept pair and seeks it.
    method Open(labels: seq<Posting>, since: int)
      requires valid && lists == [] && pos == []
      modifies this`lists, this`pos, this`valid
      ensures lists == Kept(labels)
      ensures if valid then Sought(lists, pos, reverse, since) else SomeEnded(lists, reverse, since)
    {
      for i := 0 to |labels|
        invariant lists == Kept(labels[..i])
        invariant if valid then Sought(lists, pos, reverse, since) else SomeEnded(lists, reverse, since)
      {
        assert labels[..i + 1] == labels[..i] + [labels[i]];
        KeptSnoc(labels[..i], labels[i]);
        if labels[i].key != "" && labels[i].val != "" {
          var l := labels[i].revs;
          Appended(lists, reverse, since, l);
          var k := FirstAt(l, reverse, since);
          lists := lists + [l];
          if k == |l| {
            Close();
          }
          pos := pos + [k];
        }
      }
      assert labels[..|labels|] == labels;
    }

    method Close()
      modifies this`valid, this`pos
      ensures !valid && pos == []
    {
      valid, pos := false, [];
    }

    /** Moves every cursor past the current revision and seeks the next common one. */
    method Next()
      requires Valid()
      modifies this`valid, this`pos, this`current
      ensures Valid() && lists == old(lists)
      ensures if old(valid) then At(Rank(old(current), reverse) + 1) else !valid && current == old(current)
    {
      if !valid {
        return;
      }
      ghost var since := Rank(current, reverse) + 1;
      for i := 0 to |lists|
        invariant valid && lists == old(lists) && current == old(current) && |pos| == |lists|
        invariant forall j | 0 <= j < i :: HeadOK(lists, reverse, since, lists[j], pos[j])
        invariant forall j | i <= j < |lists| :: pos[j] < |lists[j]| && lists[j][pos[j]] == current
      {
        StepSkipsNothing(lists, reverse, i, pos[i], current);
        pos := pos[i := pos[i] + 1];
        if pos[i] == |lists[i]| {
          Close();
          return;
        }
      }
      SeekState(since);
    }

    // The largest head in iteration order: the next possible common revision.
    method Target() returns (nextRev: int)
      requires |pos| == |lists| > 0 && forall i | 0 <= i < |lists| :: pos[i] < |lists[i]|
      requires AllSorted(lists, reverse)
      ensures exists i :: 0 <= i < |lists| && nextRev == lists[i][pos[i]]
      ensures forall i | 0 <= i < |lists| :: Rank(lists[i][pos[i]], reverse) <= Rank(nextRev, reverse)
    {
      nextRev := if reverse then MAX_INT64 else 0;
      for i := 0 to |lists|
        invariant i == 0 ==> nextRev == if reverse then MAX_INT64 else 0
        invariant i > 0 ==> exists j :: 0 <= j < i && nextRev == lists[j][pos[j]]
        invariant forall j | 0 <= j < i :: Rank(lists[j][pos[j]], reverse) <= Rank(nextRev, reverse)
      {
        var rev := lists[i][pos[i]];
        assert Sorted(lists[i], reverse);
        if reverse {
          nextRev := if rev < nextRev then rev else nextRev;
        } else {
          nextRev := if rev > nextRev then rev else nextRev;
        }
      }
    }

    /** Advances until all cursors stand on one revision, or some list ends. */
    method SeekState(ghost since: int)
      requires valid && |lists| > 0 && AllSorted(lists, reverse) && NothingSkipped(lists, reverse, pos, since)
      modifies this`valid, this`pos, this`current
      ensures Valid() && lists == old(lists) && At(since)
    {
      ghost var reached := since;
      assert HeadOK(lists, reverse, since, lists[0], pos[0]);
      while true
        invariant valid && lists == old(lists) && NothingSkipped(lists, reverse, pos, since)
        invariant exists i :: 0 <= i < |lists| && reached <= Rank(lists[i][pos[i]], reverse)
        decreases MAX_INT64 - reached
      {
        assert forall i | 0 <= i < |lists| :: HeadOK(lists, reverse, since, lists[i], pos[i]);
        var nextRev := Target();
        var aligned := SeekAll(nextRev, since);
        if !valid {
          return;
        }
        if aligned {
          current := nextRev;
          FirstOf(lists, reverse, pos, since, current);
          return;
        }
        reached := Rank(nextRev, reverse) + 1;
      }
    }

    // Seeks every cursor to the target, stopping where one overshoots or ends.
    method SeekAll(nextRev: int, ghost since: int) returns (aligned: bool)
      requires valid && AllSorted(lists, reverse) && NothingSkipped(lists, reverse, pos, since)
      requires since <= Rank(nextRev, reverse) && NoneBetween(lists, reverse, since, Rank(nextRev, reverse))
      modifies this`valid, this`pos
      ensures lists == old(lists)
      ensures !valid ==> NoneLeft(lists, reverse, since)
      ensures valid ==> NothingSkipped(lists, reverse, pos, since)
      ensures valid && aligned ==> forall i | 0 <= i < |lists| :: lists[i][pos[i]] == nextRev
      ensures valid && !aligned ==> exists i :: 0 <= i < |lists| && Rank(nextRev, reverse) < Rank(lists[i][pos[i]], reverse)
    {
      for i := 0 to |lists|
        invariant valid && lists == old(lists) && NothingSkipped(lists, reverse, pos, since)
        invariant forall j | 0 <= j < i :: lists[j][pos[j]] == nextRev
      {
        var k := FirstAt(lists[i], reverse, nextRev);
        SeekSkipsNothing(lists, reverse, since, i, nextRev);
        if k == |lists[i]| {
          Close();
          return false;
        }
        pos := pos[i := k];
        if Rank(nextRev, reverse) < Rank(lists[i][k], reverse) {
          return false;
        }
      }
      return true;
    }
  }

  /** The loop a query runs over the iterator: it yields the whole intersection. */
  method Drain(it: LabelsIterator, ghost since: int) returns (out: seq<int>)
    requires it.Valid() && it.At(since) && it.lists != []
    modifies it
    ensures it.lists == old(it.lists) && IsIntersection(out, it.lists, it.reverse, since)
  {
    out := [];
    ghost var next := since;
    while it.valid
      invariant it.Valid() && it.lists == old(it.lists) && since <= next && it.At(next)
      invariant Yielded(out, it.lists, it.reverse, since, next)
      decreases if it.valid then MAX_INT64 + 1 - Rank(it.current, it.reverse) else -MAX_INT64
    {
      CurrentInRange(it.lists, it.reverse, it.current);
      Yield(out, it.lists, it.reverse, since, next, it.current);
      out := out + [it.current];
      next := Rank(it.current, it.reverse) + 1;
      it.Next();
    }
    YieldedAll(out, it.lists, it.reverse, since, next);
  }

  /** Of the intersection, exactly the revisions with a rank below `next` are out. */
  ghost predicate Yielded(out: seq<int>, lists: seq<seq<int>>, reverse: bool, since: int, next: int) {
    && Sorted(out, reverse)
    && (forall i | 0 <= i < |out| :: Rank(out[i], reverse) < next)
    && forall rev {:trigger Has(out, rev)} {:trigger InAll(lists, rev)} ::
         Has(out, rev) <==> InAll(lists, rev) && since <= Rank(rev, reverse) < next
  }

  lemma CurrentInRange(lists: seq<seq<int>>, reverse: bool, rev: int)
    requires AllSorted(lists, reverse) && |lists| > 0 && InAll(lists, rev)
    ensures 0 <= rev <= MAX_INT64
  {
    assert Has(lists[0], rev) && Sorted(lists[0], reverse);
  }

  lemma HasSnoc(out: seq<int>, x: int, rev: int)
    ensures Has(out + [x], rev) <==> Has(out, rev) || rev == x
  {
    if Has(out, rev) {
      var i :| 0 <= i < |out| && out[i] == rev;
      assert (out + [x])[i] == rev;
    }
    assert (out + [x])[|out|] == x;
  }

  lemma Yield(out: seq<int>, lists: seq<seq<int>>, reverse: bool, since: int, next: int, rev: int)
    requires Yielded(out, lists, reverse, since, next) && since <= next && 0 <= rev <= MAX_INT64
    requires First(lists, reverse, next, rev)
    ensures Yielded(out + [rev], lists, reverse, since, Rank(rev, reverse) + 1)
  {
    forall r ensures Has(out + [rev], r) <==> InAll(lists, r) && since <= Rank(r, reverse) < Rank(rev, reverse) + 1 {
      HasSnoc(out, rev, r);
    }
  }

  lemma YieldedAll(out: seq<int>, lists: seq<seq<int>>, reverse: bool, since: int, next: int)
    requires Yielded(out, lists, reverse, since, next) && NoneLeft(lists, reverse, next)
    ensures IsIntersection(out, lists, reverse, since)
  {
  }
}
