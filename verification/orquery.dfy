/** A labelled query of the Badger driver from end to end: postings intersected for
    each label set, the sets merged, against the reference answer of the log. */
module OrQueries {
  import opened States
  import opened RevLog
  import opened LabelsIterators
  import opened OrIterators

  // ------------------------------------------------------------- sorted revisions

  lemma SortedHead(a: seq<int>, r: int)
    requires Sorted(a, false) && a != [] && Has(a, r)
    ensures a[0] <= r
  {
    var i :| 0 <= i < |a| && a[i] == r;
  }

  lemma SortedTail(a: seq<int>, r: int)
    requires Sorted(a, false) && a != []
    ensures Sorted(a[1..], false) && (Has(a[1..], r) <==> Has(a, r) && r != a[0])
  {
    if Has(a[1..], r) {
      var i :| 0 <= i < |a[1..]| && a[1..][i] == r;
      assert a[i + 1] == r;
    }
    if Has(a, r) && r != a[0] {
      var i :| 0 <= i < |a| && a[i] == r;
      assert a[1..][i - 1] == r;
    }
  }

  ghost predicate SameRevisions(a: seq<int>, b: seq<int>) {
    forall r {:trigger Has(a, r)} {:trigger Has(b, r)} :: Has(a, r) <==> Has(b, r)
  }

  lemma {:induction false} SortedUnique(a: seq<int>, b: seq<int>)
    requires Sorted(a, false) && Sorted(b, false) && SameRevisions(a, b)
    ensures a == b
  {
    if a == [] || b == [] {
      assert a != [] ==> Has(a, a[0]);
      assert b != [] ==> Has(b, b[0]);
    } else {
      assert Has(a, a[0]) && Has(b, b[0]);
      SortedHead(a, b[0]);
      SortedHead(b, a[0]);
      forall r ensures Has(a[1..], r) <==> Has(b[1..], r) {
        SortedTail(a, r);
        SortedTail(b, r);
      }
      SortedTail(a, 0);
      SortedTail(b, 0);
      SortedUnique(a[1..], b[1..]);
      assert a == [a[0]] + a[1..] && b == [b[0]] + b[1..];
    }
  }

  // ------------------------------------------------------------- the query

  function Revs(states: seq<State>): seq<int> {
    seq(|states|, i requires 0 <= i < |states| => states[i].rev)
  }

  ghost predicate InRange(log: seq<State>) {
    forall i | 0 <= i < |log| :: 0 < log[i].rev <= MAX_INT64
  }

  // A label set as a query can carry it: pairs, none with an empty key or value.
  ghost predicate Proper(want: Dict) {
    want != map[] && forall k | k in want :: k != "" && want[k] != ""
  }

  /** What the query opens: for each label set its postings, and what intersecting
      them past SinceRev yields. */
  ghost predicate IsQuery(log: seq<State>, orLabels: seq<Dict>, postings: seq<seq<Posting>>, lists: seq<seq<int>>, since: int) {
    && |orLabels| == |postings| == |lists| > 0
    && forall i {:trigger lists[i]} | 0 <= i < |lists| ::
         && Proper(orLabels[i]) && PostingsOf(log, orLabels[i], postings[i]) && postings[i] != []
         && IsIntersection(lists[i], Kept(postings[i]), false, since + 1)
  }

  // The states the query may see.
  ghost predicate After(log: seq<State>, since: int, tail: seq<State>) {
    Ordered(tail) && forall s :: s in tail <==> s in log && since < s.rev
  }

  lemma MatchedAfter(log: seq<State>, since: int, tail: seq<State>, want: Dict, rev: int)
    requires After(log, since, tail)
    ensures MatchedAt(tail, want, rev) <==> MatchedAt(log, want, rev) && since < rev
  {
    if MatchedAt(tail, want, rev) {
      var k :| 0 <= k < |tail| && tail[k].rev == rev && MatchesSet(tail[k], want);
      assert tail[k] in tail;
      var m :| 0 <= m < |log| && log[m] == tail[k];
    }
    if MatchedAt(log, want, rev) && since < rev {
      var m :| 0 <= m < |log| && log[m].rev == rev && MatchesSet(log[m], want);
      assert log[m] in tail;
      var k :| 0 <= k < |tail| && tail[k] == log[m];
    }
  }

  /** Each sub-iterator yields the revisions past SinceRev whose states match its set. */
  lemma QueryLists(log: seq<State>, orLabels: seq<Dict>, postings: seq<seq<Posting>>, lists: seq<seq<int>>, since: int, tail: seq<State>)
    requires Ordered(log) && IsQuery(log, orLabels, postings, lists, since) && After(log, since, tail)
    ensures ListsOf(tail, orLabels, lists) && AllSorted(lists, false)
  {
    forall i, rev | 0 <= i < |lists| ensures Has(lists[i], rev) <==> MatchedAt(tail, orLabels[i], rev) {
      var l := lists[i];
      IntersectionIsMatching(log, orLabels[i], postings[i], rev);
      MatchedAfter(log, since, tail, orLabels[i], rev);
    }
    forall i | 0 <= i < |lists| ensures Sorted(lists[i], false) {
      var l := lists[i];
    }
  }

  lemma ListsArePositive(tail: seq<State>, orLabels: seq<Dict>, lists: seq<seq<int>>)
    requires ListsOf(tail, orLabels, lists) && InRange(tail)
    ensures forall i | 0 <= i < |lists| :: Positive(lists[i])
  {
    forall i, k | 0 <= i < |lists| && 0 <= k < |lists[i]| ensures 0 < lists[i][k] {
      assert Has(lists[i], lists[i][k]);
      assert MatchedAt(tail, orLabels[i], lists[i][k]);
    }
  }

  // Membership in the union is being selected.
  lemma AnyIsSelected(log: seq<State>, orLabels: seq<Dict>, lists: seq<seq<int>>, since: int, tail: seq<State>, rev: int)
    requires ListsOf(tail, orLabels, lists) && After(log, since, tail) && InRange(log)
    requires NoEmptySet(orLabels) && |orLabels| > 0
    ensures InAny(lists, rev) <==> Has(Revs(Select(log, orLabels, since, MAX_INT64)), rev)
  {
    var sel := Select(log, orLabels, since, MAX_INT64);
    SelectMembers(log, orLabels, since, MAX_INT64);
    if InAny(lists, rev) {
      var i :| 0 <= i < |lists| && Has(lists[i], rev);
      assert MatchedAt(tail, orLabels[i], rev);
      var k :| 0 <= k < |tail| && tail[k].rev == rev && MatchesSet(tail[k], orLabels[i]);
      assert tail[k] in tail;
      assert tail[k] in sel;
      var m :| 0 <= m < |sel| && sel[m] == tail[k];
      assert Revs(sel)[m] == rev;
    }
    if Has(Revs(sel), rev) {
      var m :| 0 <= m < |Revs(sel)| && Revs(sel)[m] == rev;
      assert sel[m] in sel;
      var i :| 0 <= i < |orLabels| && MatchesSet(sel[m], orLabels[i]);
      assert sel[m] in tail;
      var k :| 0 <= k < |tail| && tail[k] == sel[m];
      assert MatchedAt(tail, orLabels[i], rev);
      assert Has(lists[i], rev);
    }
  }

  lemma SelectedSorted(log: seq<State>, orLabels: seq<Dict>, since: int)
    requires Ordered(log) && InRange(log)
    ensures Sorted(Revs(Select(log, orLabels, since, MAX_INT64)), false)
  {
    var sel := Select(log, orLabels, since, MAX_INT64);
    SelectOrdered(log, orLabels, since, MAX_INT64);
    SelectMembers(log, orLabels, since, MAX_INT64);
    forall i | 0 <= i < |sel| ensures 0 <= sel[i].rev <= MAX_INT64 {
      assert sel[i] in sel;
    }
  }

  lemma UnionIsSelected(log: seq<State>, orLabels: seq<Dict>, lists: seq<seq<int>>, since: int, tail: seq<State>, out: seq<int>)
    requires Ordered(log) && InRange(log) && ListsOf(tail, orLabels, lists) && After(log, since, tail)
    requires NoEmptySet(orLabels) && |orLabels| > 0
    requires IsUnion(out, lists, false, -MAX_INT64)
    ensures out == Revs(Select(log, orLabels, since, MAX_INT64))
  {
    var sel := Revs(Select(log, orLabels, since, MAX_INT64));
    SelectedSorted(log, orLabels, since);
    forall r ensures Has(out, r) <==> Has(sel, r) {
      AnyIsSelected(log, orLabels, lists, since, tail, r);
      if Has(sel, r) {
        SortedHeadInRange(sel, r);
      }
    }
    SortedUnique(out, sel);
  }

  lemma SortedHeadInRange(a: seq<int>, r: int)
    requires Sorted(a, false) && Has(a, r)
    ensures 0 <= r <= MAX_INT64
  {
  }

  /** End to end: the merge of a labelled query ends, having yielded in strict order,
      exactly when no state past SinceRev matches two of its label sets; what it has
      yielded then is the revisions of the log's answer. */
  lemma QueryIsSelectExactly(log: seq<State>, orLabels: seq<Dict>, postings: seq<seq<Posting>>, lists: seq<seq<int>>, since: int, tail: seq<State>)
    requires Ordered(log) && InRange(log) && After(log, since, tail)
    requires IsQuery(log, orLabels, postings, lists, since)
    ensures (exists run :: YieldsInOrder(run, lists, false)) <==> forall k | 0 <= k < |tail| :: !MatchedTwice(tail[k], orLabels)
    ensures (forall k | 0 <= k < |tail| :: !MatchedTwice(tail[k], orLabels)) ==>
              exists run :: YieldsInOrder(run, lists, false) && Yields(run) == Revs(Select(log, orLabels, since, MAX_INT64))
  {
    QueryLists(log, orLabels, postings, lists, since, tail);
    NoneEmpty(log, orLabels, postings, lists, since);
    TailInRange(log, since, tail);
    ListsArePositive(tail, orLabels, lists);
    DisjointExactlyWhenMatchedOnce(tail, orLabels, lists);
    OrderedExactlyWhenDisjoint(lists, false);
    hide IsQuery, ListsOf, After, Disjoint, AllSorted, MatchedTwice, Positive, InRange, Ordered, NoEmptySet;
    if Disjoint(lists) {
      var run :| YieldsInOrder(run, lists, false) && IsUnion(Yields(run), lists, false, -MAX_INT64);
      UnionIsSelected(log, orLabels, lists, since, tail, Yields(run));
    }
  }

  lemma NoneEmpty(log: seq<State>, orLabels: seq<Dict>, postings: seq<seq<Posting>>, lists: seq<seq<int>>, since: int)
    requires IsQuery(log, orLabels, postings, lists, since)
    ensures NoEmptySet(orLabels) && |orLabels| > 0
  {
    forall i | 0 <= i < |orLabels| ensures orLabels[i] != map[] {
      var l := lists[i];
    }
  }

  lemma TailInRange(log: seq<State>, since: int, tail: seq<State>)
    requires InRange(log) && After(log, since, tail)
    ensures InRange(tail)
  {
    forall k | 0 <= k < |tail| ensures 0 < tail[k].rev <= MAX_INT64 {
      assert tail[k] in tail;
      var m :| 0 <= m < |log| && log[m] == tail[k];
    }
  }
}
