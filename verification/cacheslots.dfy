/** Reused ring slots.  A write merges maps into whatever the slot held before
    (cachedriver.go, state.go), so a slot may keep label and annotation keys of
    an evicted state.  This module says exactly when that changes an answer. */
module CacheSlots {
  import opened States
  import opened RevLog
  import opened Cache
  import opened CacheProofs

  /** The slot a write leaves is the state written exactly when the evicted
      occupant had no key the new state lacks. */
  lemma SlotIsExact(c: Cache, s: State)
    requires Shape(c)
    ensures var was := c.log[c.idx % |c.log|];
            Slotted(c, s) == s <==>
              && was.annotations.Keys <= s.annotations.Keys
              && was.labels.Keys <= s.labels.Keys
              && was.transition.annotations.Keys <= s.transition.annotations.Keys
  {
    CopyIsExact(s, c.log[c.idx % |c.log|]);
  }

  /** It answers every label query like the state written exactly when the
      evicted occupant had no label key the new state lacks. */
  lemma SlotAnswersExactly(c: Cache, s: State)
    requires Shape(c)
    ensures (forall q: seq<Dict> :: CacheMatches(Slotted(c, s), q) == CacheMatches(s, q)) <==>
            c.log[c.idx % |c.log|].labels.Keys <= s.labels.Keys
  {
    LabelsDecideMatching(s, Slotted(c, s));
    MergeIsExact(s.labels, c.log[c.idx % |c.log|].labels);
  }

  // ------------------------------------------------------ enough conditions

  /** While the ring has not wrapped, written slots are log states and the others are zero. */
  ghost predicate Pristine(c: Cache, v: seq<State>) {
    c.idx <= |c.log| ==>
      forall i | 0 <= i < |c.log| :: if i < c.idx then c.log[i] in v else c.log[i] == ZERO_STATE
  }

  ghost predicate KeysWithin(states: seq<State>, keys: set<Text>) {
    forall s | s in states :: s.labels.Keys <= keys
  }

  ghost predicate SlotInv(c: Cache, v: seq<State>, keys: set<Text>) {
    && Shape(c) && Pristine(c, v)
    && (KeysWithin(v, keys) ==> KeysWithin(c.log, keys))
  }

  // The ring keeps its size and never unwraps.
  ghost predicate Later(c: Cache, c': Cache) {
    |c.log| == |c'.log| && c.idx <= c'.idx
  }

  lemma CopyToZero(s: State)
    ensures CopyTo(s, ZERO_STATE) == s
  {
    CopyIsExact(s, ZERO_STATE);
  }

  lemma AppendPristine(c: Cache, v: seq<State>, s: State)
    requires Shape(c) && Pristine(c, v) && s in v && c.maxRev < s.rev
    ensures Pristine(Append(c, s), v)
  {
    if c.idx < |c.log| {
      UnwrappedWrite(c, s);
      var log := Append(c, s).log;
      forall i | 0 <= i < |log| ensures if i < c.idx + 1 then log[i] in v else log[i] == ZERO_STATE {
        assert i != c.idx ==> log[i] == c.log[i];
      }
    }
  }

  lemma UnwrappedWrite(c: Cache, s: State)
    requires Shape(c) && c.maxRev < s.rev && c.idx < |c.log| && c.log[c.idx] == ZERO_STATE
    ensures Append(c, s).log == c.log[c.idx := s]
  {
    assert c.idx % |c.log| == c.idx;
    CopyToZero(s);
  }

  lemma AppendKeys(c: Cache, keys: set<Text>, s: State)
    requires Shape(c) && KeysWithin(c.log, keys) && s.labels.Keys <= keys && c.maxRev < s.rev
    ensures KeysWithin(Append(c, s).log, keys)
  {
    var pos, log := c.idx % |c.log|, Append(c, s).log;
    assert c.log[pos] in c.log;
    assert CopyTo(s, c.log[pos]).labels.Keys <= keys;
    forall x | x in log ensures x.labels.Keys <= keys {
      var i :| 0 <= i < |log| && log[i] == x;
      if i != pos { assert x == c.log[i]; }
    }
  }

  lemma AppendSlots(c: Cache, v: seq<State>, keys: set<Text>, s: State)
    requires SlotInv(c, v, keys) && s in v && c.maxRev < s.rev
    ensures SlotInv(Append(c, s), v, keys) && Later(c, Append(c, s))
  {
    AppendWindow(c, s);
    AppendPristine(c, v, s);
    if KeysWithin(v, keys) {
      AppendKeys(c, keys, s);
    }
  }

  lemma {:induction false} DrainSlots(c: Cache, v: seq<State>, keys: set<Text>, buf: seq<State>)
    requires SlotInv(c, v, keys) && forall s | s in buf :: s in v
    ensures SlotInv(Drain(c, buf), v, keys) && Later(c, Drain(c, buf))
    decreases |buf|
  {
    if buf != [] {
      assert buf[0] in buf;
      if buf[0].rev < c.maxRev + 1 {
        DrainSlots(c, v, keys, buf[1..]);
      } else if buf[0].rev == c.maxRev + 1 {
        AppendSlots(c, v, keys, buf[0]);
        DrainSlots(Append(c, buf[0]), v, keys, buf[1..]);
      }
    }
  }

  lemma {:induction false} FoldSlots(c: Cache, v: seq<State>, keys: set<Text>, page: seq<State>)
    requires SlotInv(c, v, keys) && forall s | s in page :: s in v
    ensures SlotInv(FoldPage(c, page), v, keys) && Later(c, FoldPage(c, page))
    decreases |page|
  {
    if page != [] {
      assert page[0] in page;
      if page[0].rev <= c.maxRev {
        FoldSlots(c, v, keys, page[1..]);
      } else {
        AppendSlots(c, v, keys, page[0]);
        FoldSlots(Append(c, page[0]), v, keys, page[1..]);
      }
    }
  }

  lemma GrowSlots(c: Cache, v: seq<State>, keys: set<Text>, more: seq<State>)
    requires SlotInv(c, v, keys)
    ensures SlotInv(c, v + more, keys)
  {
    if KeysWithin(v + more, keys) {
      forall s | s in v ensures s.labels.Keys <= keys {
        assert s in v + more;
      }
    }
  }

  /** Without labels every ring answer is faithful. */
  lemma UnlabelledFaithful(w: seq<State>, v: seq<State>)
    ensures Faithful(w, v, [])
  {
  }

  lemma SameLabelsAgree(w: State, s: State, q: seq<Dict>)
    requires w.labels == s.labels && NoEmptySet(q)
    ensures Agrees(w, s, q)
  {
    MatchingReadsLabels(w, s, q);
    MatchersAgree(q);
  }

  lemma UnwrappedWindow(c: Cache, i: nat)
    requires Shape(c) && c.idx <= |c.log| && i < c.size
    ensures i < c.idx && Window(c)[i] == c.log[i]
  {
    assert c.idx - c.size + i == i;
    assert i % |c.log| == i;
  }

  lemma UnwrappedSlot(c: Cache, v: seq<State>, i: nat, j: nat)
    requires Shape(c) && Ordered(v) && Pristine(c, v) && c.idx <= |c.log|
    requires i < c.size && j < |v| && Window(c)[i].rev == v[j].rev
    ensures Window(c)[i] == v[j]
  {
    UnwrappedWindow(c, i);
    var x := c.log[i];
    assert x in v;
    var k :| 0 <= k < |v| && v[k] == x;
    assert v[k].rev == v[j].rev;
  }

  /** A ring that has not wrapped answers every label query faithfully. */
  lemma UnwrappedFaithful(c: Cache, v: seq<State>, q: seq<Dict>)
    requires CacheInv(c, v) && Ordered(v) && Pristine(c, v) && c.idx <= |c.log| && NoEmptySet(q)
    ensures Faithful(Window(c), v, q)
  {
    var w := Window(c);
    forall i, j | 0 <= i < |w| && 0 <= j < |v| ensures Agrees(w[i], v[j], q) {
      if w[i].rev == v[j].rev {
        UnwrappedSlot(c, v, i, j);
        SameLabelsAgree(w[i], v[j], q);
      }
    }
  }

  lemma SlotLabels(w: State, v: seq<State>, keys: set<Text>, j: nat)
    requires Ordered(v) && InLog(w, v) && w.labels.Keys <= keys
    requires j < |v| && w.rev == v[j].rev && v[j].labels.Keys == keys
    ensures w.labels == v[j].labels
  {
    var k :| 0 <= k < |v| && StandsFor(w, v[k]);
    assert k == j;
    var to :| w == CopyTo(v[j], to);
    assert w.labels == to.labels + v[j].labels;
  }

  /** A log whose states all carry one label-key set is answered faithfully at
      every wrap position. */
  lemma UniformFaithful(c: Cache, v: seq<State>, keys: set<Text>, q: seq<Dict>)
    requires CacheInv(c, v) && Ordered(v) && SlotInv(c, v, keys) && NoEmptySet(q)
    requires forall s | s in v :: s.labels.Keys == keys
    ensures Faithful(Window(c), v, q)
  {
    var w := Window(c);
    forall i, j | 0 <= i < |w| && 0 <= j < |v| ensures Agrees(w[i], v[j], q) {
      if w[i].rev == v[j].rev {
        assert w[i] in c.log && v[j] in v && InLog(w[i], v);
        SlotLabels(w[i], v, keys, j);
        SameLabelsAgree(w[i], v[j], q);
      }
    }
  }

  // ------------------------------------------------------ exactly when

  // Every slot of the window has exactly the labels of its log state.
  ghost predicate LabelsExact(w: seq<State>, v: seq<State>) {
    forall i, j {:trigger w[i], v[j]} | 0 <= i < |w| && 0 <= j < |v| && w[i].rev == v[j].rev :: w[i].labels == v[j].labels
  }

  ghost predicate AlwaysFaithful(w: seq<State>, v: seq<State>) {
    forall q {:trigger Faithful(w, v, q)} | NoEmptySet(q) :: Faithful(w, v, q)
  }

  lemma OwnLabelsDisagree(w: State, s: State)
    requires StandsFor(w, s) && w.labels != s.labels
    ensures NoEmptySet([w.labels]) && !Agrees(w, s, [w.labels])
  {
    var to :| w == CopyTo(s, to);
    assert s.labels.Keys <= w.labels.Keys;
    assert s.labels.Keys == {} ==> s.labels == map[];
    OwnLabelsTellApart(s, w);
    MatchersAgree([w.labels]);
  }

  /** A window answers every label query faithfully exactly when each of its slots
      has its log state's labels and no others. */
  lemma FaithfulExactly(c: Cache, v: seq<State>)
    requires CacheInv(c, v) && Ordered(v)
    ensures AlwaysFaithful(Window(c), v) <==> LabelsExact(Window(c), v)
  {
    var w := Window(c);
    if LabelsExact(w, v) {
      forall q {:trigger Faithful(w, v, q)} | NoEmptySet(q) ensures Faithful(w, v, q) {
        forall i, j | 0 <= i < |w| && 0 <= j < |v| ensures Agrees(w[i], v[j], q) {
          if w[i].rev == v[j].rev {
            SameLabelsAgree(w[i], v[j], q);
          }
        }
      }
    } else {
      var i, j :| 0 <= i < |w| && 0 <= j < |v| && w[i].rev == v[j].rev && w[i].labels != v[j].labels;
      assert InLog(w[i], v);
      var k :| 0 <= k < |v| && StandsFor(w[i], v[k]);
      assert k == j;
      OwnLabelsDisagree(w[i], v[j]);
      assert !Faithful(w, v, [w[i].labels]);
    }
  }

  /** The window holds the log's states themselves. */
  ghost predicate ExactWindow(c: Cache, v: seq<State>)
    requires Shape(c)
  {
    forall i | 0 <= i < c.size :: Window(c)[i] in v
  }

  lemma UnwrappedIsExact(c: Cache, v: seq<State>)
    requires CacheInv(c, v) && Ordered(v) && Pristine(c, v) && c.idx <= |c.log|
    ensures ExactWindow(c, v)
  {
    forall i | 0 <= i < c.size ensures Window(c)[i] in v {
      UnwrappedWindow(c, i);
    }
  }

  lemma ExactIsFaithful(c: Cache, v: seq<State>, q: seq<Dict>)
    requires CacheInv(c, v) && Ordered(v) && ExactWindow(c, v) && NoEmptySet(q)
    ensures Faithful(Window(c), v, q)
  {
    var w := Window(c);
    forall i, j | 0 <= i < |w| && 0 <= j < |v| ensures Agrees(w[i], v[j], q) {
      if w[i].rev == v[j].rev {
        assert w[i] in v;
        SameLabelsAgree(w[i], v[j], q);
      }
    }
  }

  /** Then its answers are the log's, as whole states: until the ring wraps, for
      every query, what the ring filters is what the log selects. */
  lemma ExactAnswers(c: Cache, v: seq<State>, q: seq<Dict>, since: int)
    requires CacheInv(c, v) && Ordered(v) && ExactWindow(c, v) && NoEmptySet(q) && Answers(c, since)
    ensures Filter(Window(c), q, since) == Select(v, q, since, c.maxRev)
  {
    ExactIsFaithful(c, v, q);
    FilterRefines(c, v, q, since);
    var w, a, b := Window(c), Filter(Window(c), q, since), Select(v, q, since, c.maxRev);
    FilterMembers(w, q, since);
    SelectMembers(v, q, since, c.maxRev);
    forall i | 0 <= i < |a| ensures a[i] == b[i] {
      assert a[i] in a && b[i] in b;
      var k :| 0 <= k < |w| && w[k] == a[i];
      assert w[k] in v;
      SameRevSameState(v, a[i], b[i]);
    }
  }

  lemma SameRevSameState(v: seq<State>, a: State, b: State)
    requires Ordered(v) && a in v && b in v && a.rev == b.rev
    ensures a == b
  {
    var i :| 0 <= i < |v| && v[i] == a;
    var j :| 0 <= j < |v| && v[j] == b;
  }
}
