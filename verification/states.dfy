/** States, their contexts, the merging copy of state.go and the two label
    matchers (one in the cache driver, one in the in-memory driver).

    A Go string is a sequence of bytes; each byte is held in a `char`.  A nil map
    and an empty map are the same value. */
module States {
  type Text = string
  type Dict = map<Text, Text>

  datatype Option<+T> = None | Some(value: T)

  datatype Result<+T> = Ok(value: T) | Err

  datatype Transition = Transition(to: Text, annotations: Dict)

  // committedAt is in milliseconds; None is Go's zero time.
  datatype State = State(
    id: Text,
    rev: int,
    annotations: Dict,
    labels: Dict,
    committedAt: Option<int>,
    transition: Transition)

  datatype Data = Data(rev: int, annotations: Dict, blob: Text)

  datatype StateCtx = StateCtx(
    current: State,
    committed: State,
    transitions: seq<Transition>,
    datas: map<Text, Data>)

  const ZERO_TRANSITION := Transition([], map[])
  const ZERO_STATE := State([], 0, map[], map[], None, ZERO_TRANSITION)
  const ZERO_CTX := StateCtx(ZERO_STATE, ZERO_STATE, [], map[])

  // ---------------------------------------------------------------- copying

  function CopyTransition(ts: Transition, to: Transition): Transition {
    Transition(ts.to, to.annotations + ts.annotations)
  }

  /** What `to` holds after State.CopyTo: scalars are overwritten, maps are
      merged and never cleared. */
  function CopyTo(s: State, to: State): State {
    State(s.id, s.rev, to.annotations + s.annotations, to.labels + s.labels, s.committedAt,
          CopyTransition(s.transition, to.transition))
  }

  function CopyToCtx(s: State, to: StateCtx): StateCtx {
    to.(committed := if s.rev > 0 then CopyTo(s, to.committed) else to.committed,
        current := CopyTo(s, to.current))
  }

  /** StateCtx.CopyTo into a context whose transition list is empty. */
  function CopyCtx(s: StateCtx, to: StateCtx): StateCtx {
    to.(current := CopyTo(s.current, to.current),
        committed := CopyTo(s.committed, to.committed),
        transitions := s.transitions)
  }

  /** The copy is exact precisely when the target holds no key the source lacks. */
  lemma CopyIsExact(s: State, to: State)
    ensures CopyTo(s, to) == s <==>
            && to.annotations.Keys <= s.annotations.Keys
            && to.labels.Keys <= s.labels.Keys
            && to.transition.annotations.Keys <= s.transition.annotations.Keys
  {
    MergeIsExact(s.annotations, to.annotations);
    MergeIsExact(s.labels, to.labels);
    MergeIsExact(s.transition.annotations, to.transition.annotations);
  }

  lemma MergeIsExact(m: Dict, to: Dict)
    ensures to + m == m <==> to.Keys <= m.Keys
  {
    assert (to + m).Keys == to.Keys + m.Keys;
    if to.Keys <= m.Keys {
      assert to + m == m;
    }
  }

  /** A state read into a fresh context is what it holds as current, and as committed
      unless its revision is 0. */
  lemma ReadIsHeld(s: State)
    ensures var c := CopyToCtx(s, ZERO_CTX);
            c.current == s && c.committed == (if s.rev > 0 then s else ZERO_STATE) && c.transitions == [] && c.datas == map[]
  {
    CopyIsExact(s, ZERO_STATE);
  }

  // ---------------------------------------------------------------- matching

  // Go's m[k]: the empty string for a missing key.
  function Lookup(m: Dict, k: Text): Text {
    if k in m then m[k] else []
  }

  predicate MatchesSet(s: State, want: Dict) {
    |want| <= |s.labels| && forall k | k in want :: Lookup(s.labels, k) == want[k]
  }

  /** The cache driver's matcher: an empty label set matches every state. */
  predicate CacheMatches(s: State, orLabels: seq<Dict>) {
    |orLabels| == 0 || exists i | 0 <= i < |orLabels| :: orLabels[i] == map[] || MatchesSet(s, orLabels[i])
  }

  /** The in-memory driver's matcher: an empty label set is skipped. */
  predicate DriverMatches(s: State, orLabels: seq<Dict>) {
    |orLabels| == 0 || exists i | 0 <= i < |orLabels| :: orLabels[i] != map[] && MatchesSet(s, orLabels[i])
  }

  predicate NoEmptySet(orLabels: seq<Dict>) {
    forall i | 0 <= i < |orLabels| :: orLabels[i] != map[]
  }

  /** One set, as both matchers test it: size first, then every wanted pair. */
  method MatchSet(s: State, want: Dict) returns (r: bool)
    ensures r == MatchesSet(s, want)
  {
    if |want| > |s.labels| {
      return false;
    }
    var todo := want.Keys;
    while todo != {}
      invariant todo <= want.Keys
      invariant forall k | k in want && k !in todo :: Lookup(s.labels, k) == want[k]
      decreases |todo|
    {
      var k :| k in todo;
      if Lookup(s.labels, k) != want[k] {
        return false;
      }
      todo := todo - {k};
    }
    return true;
  }

  method CacheMatchLabels(s: State, orLabels: seq<Dict>) returns (r: bool)
    ensures r == CacheMatches(s, orLabels)
  {
    if |orLabels| == 0 {
      return true;
    }
    for i := 0 to |orLabels|
      invariant forall j | 0 <= j < i :: orLabels[j] != map[] && !MatchesSet(s, orLabels[j])
    {
      if |orLabels[i]| == 0 {
        return true;
      }
      var ok := MatchSet(s, orLabels[i]);
      if ok {
        return true;
      }
    }
    return false;
  }

  method DriverMatchLabels(s: State, orLabels: seq<Dict>) returns (r: bool)
    ensures r == DriverMatches(s, orLabels)
  {
    if |orLabels| == 0 {
      return true;
    }
    for i := 0 to |orLabels|
      invariant forall j | 0 <= j < i :: orLabels[j] == map[] || !MatchesSet(s, orLabels[j])
    {
      if |orLabels[i]| == 0 {
        continue;
      }
      var ok := MatchSet(s, orLabels[i]);
      if ok {
        return true;
      }
    }
    return false;
  }

  /** The two matchers agree on every state exactly when the query carries no
      empty label set (which is what WithORLabels guarantees). */
  lemma MatchersAgree(orLabels: seq<Dict>)
    ensures (forall s: State :: CacheMatches(s, orLabels) == DriverMatches(s, orLabels)) <==> NoEmptySet(orLabels)
  {
    if !NoEmptySet(orLabels) {
      var i :| 0 <= i < |orLabels| && orLabels[i] == map[];
      assert CacheMatches(ZERO_STATE, orLabels) && !DriverMatches(ZERO_STATE, orLabels);
    }
  }

  /** A copy left in a slot that may hold extra label keys answers every query
      like its source exactly when it holds no extra key. */
  lemma LabelsDecideMatching(s: State, slot: State)
    requires exists to :: slot == CopyTo(s, to)
    ensures (forall q: seq<Dict> :: CacheMatches(slot, q) == CacheMatches(s, q)) <==> slot.labels == s.labels
  {
    var to :| slot == CopyTo(s, to);
    assert s.labels.Keys <= slot.labels.Keys;
    if slot.labels != s.labels {
      OwnLabelsTellApart(s, slot);
    } else {
      forall q: seq<Dict> ensures CacheMatches(slot, q) == CacheMatches(s, q) {
        MatchingReadsLabels(slot, s, q);
      }
    }
  }

  lemma MatchingReadsLabels(a: State, b: State, q: seq<Dict>)
    requires a.labels == b.labels
    ensures CacheMatches(a, q) == CacheMatches(b, q) && DriverMatches(a, q) == DriverMatches(b, q)
  {
    assert forall i | 0 <= i < |q| :: MatchesSet(a, q[i]) == MatchesSet(b, q[i]);
  }

  // The query made of the slot's own labels finds the slot and misses the source.
  lemma OwnLabelsTellApart(s: State, slot: State)
    requires s.labels.Keys <= slot.labels.Keys && slot.labels != s.labels
    ensures CacheMatches(slot, [slot.labels]) && !CacheMatches(s, [slot.labels])
  {
    var q := [slot.labels];
    assert q[0] == slot.labels && MatchesSet(slot, slot.labels);
    SubsetSize(s.labels.Keys, slot.labels.Keys);
    assert !MatchesSet(s, slot.labels);
  }

  lemma SubsetSize<T>(a: set<T>, b: set<T>)
    requires a <= b
    ensures |a| <= |b| && (|a| == |b| ==> a == b)
  {
    assert b == a + (b - a);
  }
}
