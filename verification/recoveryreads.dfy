/** What a recoverer reads through the engine's cache: the engine wraps every
    driver in one (engine.go), so a page may hold reused ring slots. */
module RecoveryReads {
  import opened States
  import opened RevLog
  import opened Cache
  import opened CacheProofs
  import opened CacheSlots
  import R = Recovery
  import opened RecoverySystem

  // The window's states after `since` are the log's, entry by entry.
  lemma WindowStretch(c: Cache, v: seq<State>, since: int) returns (a: nat, b: nat)
    requires CacheInv(c, v) && Ordered(v) && Answers(c, since)
    ensures a <= b <= |v| && UpTo(v, since, a)
    ensures SameKeys(Filter(Window(c), [], since), v[a..b])
  {
    UnlabelledFaithful(Window(c), v);
    FilterRefines(c, v, [], since);
    a := BoundaryOf(v, since);
    b := BoundaryOf(v, c.maxRev);
    PageIsStretch(v, since, c.maxRev, a, b);
  }

  lemma SlotReads(c: Cache, v: seq<State>, since: int, a: nat, b: nat, k: nat)
    requires CacheInv(c, v) && Ordered(v) && a <= b <= |v|
    requires SameKeys(Filter(Window(c), [], since), v[a..b]) && k < b - a
    ensures R.Reads(Filter(Window(c), [], since)[k], v[a + k])
  {
    var w, f := Window(c), Filter(Window(c), [], since);
    FilterMembers(w, [], since);
    var x := f[k];
    assert x in f;
    var i :| 0 <= i < |w| && w[i] == x;
    assert InLog(w[i], v);
    var j :| 0 <= j < |v| && StandsFor(w[i], v[j]);
    assert v[a..b][k] == v[a + k] && v[j].rev == v[a + k].rev;
    assert j == a + k;
  }

  /** A page the ring answers with is what the recovery model lets a recoverer
      read: copies of the next states of the log, merged into slots. */
  lemma RingPageIsRead(c: Cache, v: seq<State>, since: int, limit: int) returns (a: nat)
    requires CacheInv(c, v) && Ordered(v) && FromLog(c, [], since, limit).Some?
    ensures UpTo(v, since, a) && R.PageReads(FromLog(c, [], since, limit).value.states, v, a)
  {
    var b;
    a, b := WindowStretch(c, v, since);
    var f, page := Filter(Window(c), [], since), FromLog(c, [], since, limit).value.states;
    assert page <= f;
    forall k | 0 <= k < |page| ensures R.Reads(page[k], v[a + k]) {
      SlotReads(c, v, since, a, b, k);
    }
  }

  /** Until the ring wraps, such a page is exactly what is in the log. */
  lemma UnwrappedPageIsExact(c: Cache, v: seq<State>, since: int, limit: int) returns (a: nat)
    requires CacheInv(c, v) && Ordered(v) && Pristine(c, v) && c.idx <= |c.log| && FromLog(c, [], since, limit).Some?
    ensures UpTo(v, since, a)
    ensures var page := FromLog(c, [], since, limit).value.states;
            a + |page| <= |v| && page == v[a..a + |page|]
  {
    var b;
    a, b := WindowStretch(c, v, since);
    var w, f, page := Window(c), Filter(Window(c), [], since), FromLog(c, [], since, limit).value.states;
    FilterMembers(w, [], since);
    assert page <= f;
    forall k | 0 <= k < |page| ensures page[k] == v[a + k] {
      assert f[k] in f;
      var i :| 0 <= i < |w| && w[i] == f[k];
      assert v[a..b][k] == v[a + k];
      UnwrappedSlot(c, v, i, a + k);
    }
  }
}
