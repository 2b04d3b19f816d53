/** What every operation on the head cache keeps, and what its answers mean.
    `v` is the log published by the driver underneath. */
module CacheProofs {
  import opened States
  import opened RevLog
  import opened Cache

  // No log revision lies strictly between the window's end and `rev`.
  ghost predicate NoneBetween(c: Cache, v: seq<State>, rev: int) {
    forall i | 0 <= i < |v| && c.maxRev < v[i].rev :: rev <= v[i].rev
  }

  lemma InitInv(maxSize: nat, v: seq<State>)
    requires 0 < maxSize && LogInv(v, 0)
    ensures CacheInv(EmptyCache(maxSize), v)
  {
  }

  // ------------------------------------------------- the window, as a sequence

  lemma StartWindow(v: seq<State>, slot: State, s: State)
    requires s in v && StandsFor(slot, s)
    ensures NoHole([slot], v, s.rev - 1, s.rev)
  {
    var k :| 0 <= k < |v| && v[k] == s;
    assert InLog(slot, v);
    assert [slot][0] == slot && Holds([slot], s.rev);
  }

  lemma PushWindow(w: seq<State>, v: seq<State>, lo: int, hi: int, slot: State, s: State)
    requires NoHole(w, v, lo, hi) && s in v && StandsFor(slot, s) && lo <= hi < s.rev
    requires forall i | 0 <= i < |v| && hi < v[i].rev :: s.rev <= v[i].rev
    ensures NoHole(w + [slot], v, lo, s.rev)
  {
    var w' := w + [slot];
    var k :| 0 <= k < |v| && v[k] == s;
    assert InLog(slot, v);
    forall i | 0 <= i < |v| && lo < v[i].rev <= s.rev ensures Holds(w', v[i].rev) {
      if v[i].rev <= hi {
        assert Holds(w, v[i].rev);
        var j :| 0 <= j < |w| && w[j].rev == v[i].rev;
        assert w'[j].rev == v[i].rev;
      } else {
        assert w'[|w|].rev == v[i].rev;
      }
    }
  }

  lemma DropWindow(w: seq<State>, v: seq<State>, lo: int, hi: int)
    requires NoHole(w, v, lo, hi) && |w| > 1
    ensures NoHole(w[1..], v, w[1].rev - 1, hi)
  {
    forall i | 0 <= i < |v| && w[1].rev - 1 < v[i].rev <= hi ensures Holds(w[1..], v[i].rev) {
      assert w[0].rev < w[1].rev;
      assert Holds(w, v[i].rev);
      var j :| 0 <= j < |w| && w[j].rev == v[i].rev;
      assert w[1..][j - 1].rev == v[i].rev;
    }
  }

  // -------------------------------------------------------- one write at a time

  lemma SlotStandsFor(c: Cache, s: State)
    requires Shape(c)
    ensures StandsFor(Slotted(c, s), s)
  {
  }

  lemma AppendNoHole(c: Cache, v: seq<State>, s: State)
    requires CacheInv(c, v) && s in v && c.maxRev < s.rev && (c.size > 0 ==> NoneBetween(c, v, s.rev))
    ensures Shape(Append(c, s))
    ensures NoHole(Window(Append(c, s)), v, Append(c, s).minRev, s.rev)
  {
    AppendWindow(c, s);
    SlotStandsFor(c, s);
    AppendMin(c, s);
    var w, slot := Window(c), Slotted(c, s);
    if c.size == 0 {
      StartWindow(v, slot, s);
      assert Window(Append(c, s)) == [slot];
    } else {
      PushWindow(w, v, c.minRev, c.maxRev, slot, s);
      if c.size == |c.log| {
        DropWindow(w + [slot], v, c.minRev, s.rev);
        assert (w + [slot])[1..] == w[1..] + [slot];
      }
    }
  }

  /** Appending the next log state keeps the window hole-free, whether the ring
      is empty, filling, or wrapping. */
  lemma AppendKeeps(c: Cache, v: seq<State>, s: State)
    requires CacheInv(c, v) && s in v && 0 < s.rev
    requires c.maxRev < s.rev && (c.size > 0 ==> NoneBetween(c, v, s.rev))
    ensures CacheInv(Append(c, s), v)
    ensures Append(c, s).maxRev == s.rev
  {
    AppendNoHole(c, v, s);
    AppendWindow(c, s);
    AppendMin(c, s);
  }

  lemma RebufferKeeps(c: Cache, v: seq<State>, buf: seq<State>)
    requires CacheInv(c, v) && |buf| <= COMMITTED_CAP
    requires forall s | s in buf :: s in v
    ensures CacheInv(c.(committed := buf), v)
  {
    assert Window(c.(committed := buf)) == Window(c);
  }

  lemma BufferNext(c: Cache, v: seq<State>, s: State)
    requires s.rev == c.maxRev + 1
    ensures NoneBetween(c, v, s.rev)
  {
  }

  // The states of a buffer, all logged.
  ghost predicate AllLogged(buf: seq<State>, v: seq<State>) {
    forall s | s in buf :: s in v && 0 < s.rev
  }

  lemma LoggedTail(buf: seq<State>, v: seq<State>)
    requires AllLogged(buf, v) && buf != []
    ensures AllLogged(buf[1..], v) && buf[0] in v && 0 < buf[0].rev
    ensures SortedByRev(buf) ==> SortedByRev(buf[1..])
  {
    assert buf[0] in buf;
  }

  /** The drain loop keeps the window and stops only at a real gap. */
  lemma {:induction false} DrainKeeps(c: Cache, v: seq<State>, buf: seq<State>)
    requires CacheInv(c, v) && |buf| <= COMMITTED_CAP && AllLogged(buf, v)
    ensures CacheInv(Drain(c, buf), v)
    ensures c.maxRev <= Drain(c, buf).maxRev
    ensures SortedByRev(buf) ==> forall s | s in Drain(c, buf).committed :: Drain(c, buf).maxRev + 1 < s.rev
    decreases |buf|
  {
    assert Shape(c);
    hide CacheInv, Window;
    if buf == [] || c.maxRev + 1 < buf[0].rev {
      RebufferKeeps(c, v, buf);
    } else {
      LoggedTail(buf, v);
      hide SortedByRev, AllLogged;
      if buf[0].rev < c.maxRev + 1 {
        DrainKeeps(c, v, buf[1..]);
      } else {
        BufferNext(c, v, buf[0]);
        AppendKeeps(c, v, buf[0]);
        AppendWindow(c, buf[0]);
        DrainKeeps(Append(c, buf[0]), v, buf[1..]);
      }
    }
  }

  lemma SamePermutationMembers(a: seq<State>, b: seq<State>)
    requires multiset(a) == multiset(b)
    ensures |a| == |b| && forall s | s in a :: s in b
  {
    forall s | s in a ensures s in b {
      assert s in multiset(a);
    }
    assert |multiset(a)| == |multiset(b)|;
  }

  lemma BufferedInLog(c: Cache, v: seq<State>, batch: seq<State>)
    requires CacheInv(c, v) && forall s | s in batch :: s in v
    ensures |Buffered(c, batch)| <= COMMITTED_CAP
    ensures forall s | s in Buffered(c, batch) :: s in v
  {
  }

  /** commitAppendLog keeps the cache, for every batch of logged states, in
      whatever order concurrent commits reach it, full buffer or not; afterwards
      everything still buffered waits for a revision that is not in the ring. */
  lemma CommitAppendKeeps(c: Cache, v: seq<State>, batch: seq<State>, c': Cache)
    requires CacheInv(c, v) && forall s | s in v :: 0 < s.rev
    requires forall s | s in batch :: s in v
    requires CommitAppended(c, batch, c')
    ensures CacheInv(c', v)
    ensures c.maxRev <= c'.maxRev
    ensures forall s | s in c'.committed :: c'.maxRev + 1 < s.rev
  {
    var buf :| multiset(buf) == multiset(Buffered(c, batch)) && SortedByRev(buf) && c' == Drain(c, buf);
    BufferedInLog(c, v, batch);
    SamePermutationMembers(buf, Buffered(c, batch));
    DrainKeeps(c, v, buf);
  }

  lemma FirstOfPage(c: Cache, v: seq<State>, page: seq<State>, m: int, hi: int)
    requires Ordered(v) && page == Select(v, [], m, hi) && page != []
    requires m <= c.maxRev < page[0].rev
    ensures NoneBetween(c, v, page[0].rev)
  {
    SelectMembers(v, [], m, hi);
    SelectOrdered(v, [], m, hi);
    assert page[0] in page;
    forall i | 0 <= i < |v| && c.maxRev < v[i].rev ensures page[0].rev <= v[i].rev {
      if v[i].rev <= hi {
        assert v[i] in page;
        var k :| 0 <= k < |page| && page[k] == v[i];
      }
    }
  }

  /** A head page fetched when the window ended at or below m <= maxRev, however
      stale by now, keeps the window hole-free; the window then reaches the page's end. */
  lemma {:induction false} FoldPageKeeps(c: Cache, v: seq<State>, page: seq<State>, m: int, hi: int)
    requires CacheInv(c, v) && Ordered(v) && c.size > 0
    requires page == Select(v, [], m, hi) && 0 <= m <= c.maxRev
    ensures CacheInv(FoldPage(c, page), v)
    ensures c.maxRev <= FoldPage(c, page).maxRev
    ensures page != [] ==> page[|page| - 1].rev <= FoldPage(c, page).maxRev
    decreases |page|
  {
    if page != [] {
      SelectMembers(v, [], m, hi);
      SelectOrdered(v, [], m, hi);
      SelectSuffix(v, [], m, hi, 1);
      assert page[0] in page;
      if page[0].rev <= c.maxRev {
        FoldPageKeeps(c, v, page[1..], page[0].rev, hi);
      } else {
        FirstOfPage(c, v, page, m, hi);
        AppendKeeps(c, v, page[0]);
        FoldPageKeeps(Append(c, page[0]), v, page[1..], page[0].rev, hi);
      }
    }
  }

  lemma ApplyPageKeeps(c: Cache, v: seq<State>, page: seq<State>, m: int, hi: int)
    requires CacheInv(c, v) && Ordered(v) && c.size > 0
    requires page == Select(v, [], m, hi) && 0 <= m <= c.maxRev
    ensures CacheInv(ApplyPage(c, page), v)
    ensures c.maxRev <= ApplyPage(c, page).maxRev
  {
    if page != [] {
      var c0 := c.(committed := []);
      assert Window(c0) == Window(c);
      FoldPageKeeps(c0, v, page, m, hi);
    }
  }

  lemma ApplyLatestKeeps(c: Cache, v: seq<State>, s: State)
    requires CacheInv(c, v) && Ordered(v) && s in v && 0 < s.rev
    ensures CacheInv(ApplyLatest(c, s), v)
    ensures c.maxRev <= ApplyLatest(c, s).maxRev
  {
    if c.maxRev == 0 || c.maxRev + 1 == s.rev {
      AppendKeeps(c, v, s);
    }
  }

  lemma GrowNoHole(w: seq<State>, v: seq<State>, lo: int, hi: int, more: seq<State>)
    requires NoHole(w, v, lo, hi)
    requires forall i | 0 <= i < |more| :: hi < more[i].rev
    ensures NoHole(w, v + more, lo, hi)
  {
    var v' := v + more;
    forall i | 0 <= i < |w| ensures InLog(w[i], v') {
      assert InLog(w[i], v);
      var j :| 0 <= j < |v| && StandsFor(w[i], v[j]);
      assert v'[j] == v[j];
    }
    forall i | 0 <= i < |v'| && lo < v'[i].rev <= hi ensures Holds(w, v'[i].rev) {
      assert Holds(w, v[i].rev);
    }
  }

  /** Newer commits underneath leave the invariant alone. */
  lemma GrowKeeps(c: Cache, v: seq<State>, more: seq<State>)
    requires CacheInv(c, v)
    requires forall i | 0 <= i < |more| :: c.maxRev < more[i].rev
    ensures CacheInv(c, v + more)
  {
    GrowNoHole(Window(c), v, c.minRev, c.maxRev, more);
  }

  // --------------------------------------------------------------- answers

  type Key = (Text, int)

  function Keys(states: seq<State>): seq<Key> {
    seq(|states|, i requires 0 <= i < |states| => (states[i].id, states[i].rev))
  }

  /** Every slot matches `q` as the log state it stands for does. */
  ghost predicate Faithful(w: seq<State>, v: seq<State>, q: seq<Dict>) {
    forall i, j {:trigger Agrees(w[i], v[j], q)} | 0 <= i < |w| && 0 <= j < |v| :: Agrees(w[i], v[j], q)
  }

  ghost predicate Agrees(w: State, s: State, q: seq<Dict>) {
    w.rev == s.rev ==> (|q| > 0 ==> CacheMatches(w, q)) == DriverMatches(s, q)
  }

  // The slot of each selected revision, in the same order.
  ghost predicate SameKeys(a: seq<State>, b: seq<State>) {
    |a| == |b| && forall i | 0 <= i < |a| :: a[i].id == b[i].id && a[i].rev == b[i].rev
  }

  lemma {:induction false} FilterMembers(w: seq<State>, q: seq<Dict>, since: int)
    ensures forall s :: s in Filter(w, q, since) <==> s in w && CacheHit(s, q, since)
  {
    if w != [] {
      FilterMembers(w[..|w| - 1], q, since);
      assert w == w[..|w| - 1] + [w[|w| - 1]];
    }
  }

  lemma {:induction false} FilterOrdered(w: seq<State>, q: seq<Dict>, since: int)
    requires Ordered(w)
    ensures Ordered(Filter(w, q, since))
  {
    if w != [] {
      var init, s := w[..|w| - 1], w[|w| - 1];
      FilterOrdered(init, q, since);
      FilterMembers(init, q, since);
      forall x | x in Filter(init, q, since) ensures x.rev < s.rev {
        var i :| 0 <= i < |init| && init[i] == x;
      }
    }
  }

  ghost predicate SameRevs(a: seq<State>, b: seq<State>) {
    && (forall i {:trigger Holds(b, a[i].rev)} | 0 <= i < |a| :: Holds(b, a[i].rev))
    && (forall i {:trigger Holds(a, b[i].rev)} | 0 <= i < |b| :: Holds(a, b[i].rev))
  }

  lemma LastRevsAgree(a: seq<State>, b: seq<State>)
    requires Ordered(a) && Ordered(b) && SameRevs(a, b) && a != [] && b != []
    ensures a[|a| - 1].rev == b[|b| - 1].rev
  {
    assert Holds(b, a[|a| - 1].rev) && Holds(a, b[|b| - 1].rev);
  }

  lemma InitRevsHeld(a: seq<State>, b: seq<State>)
    requires Ordered(a) && Ordered(b) && SameRevs(a, b) && a != [] && b != []
    ensures var a', b' := a[..|a| - 1], b[..|b| - 1];
            forall i {:trigger Holds(b', a'[i].rev)} | 0 <= i < |a'| :: Holds(b', a'[i].rev)
  {
    LastRevsAgree(a, b);
    var a', b' := a[..|a| - 1], b[..|b| - 1];
    forall i | 0 <= i < |a'| ensures Holds(b', a'[i].rev) {
      assert Holds(b, a[i].rev);
      var j :| 0 <= j < |b| && b[j].rev == a[i].rev;
      assert b'[j].rev == a'[i].rev;
    }
  }

  /** Ordered sequences that hold the same revisions line up. */
  lemma {:induction false} SameRevsAlign(a: seq<State>, b: seq<State>)
    requires Ordered(a) && Ordered(b) && SameRevs(a, b)
    ensures |a| == |b| && forall i | 0 <= i < |a| :: a[i].rev == b[i].rev
  {
    if a != [] && b != [] {
      LastRevsAgree(a, b);
      InitRevsHeld(a, b);
      InitRevsHeld(b, a);
      SameRevsAlign(a[..|a| - 1], b[..|b| - 1]);
    } else {
      assert |a| > 0 ==> Holds(b, a[0].rev);
      assert |b| > 0 ==> Holds(a, b[0].rev);
    }
  }

  lemma FilteredSelected(w: seq<State>, v: seq<State>, q: seq<Dict>, lo: int, hi: int, since: int, x: State)
    returns (y: State)
    requires NoHole(w, v, lo, hi) && Faithful(w, v, q) && x in Filter(w, q, since)
    ensures y in Select(v, q, since, hi) && x.rev == y.rev && x.id == y.id
  {
    FilterMembers(w, q, since);
    SelectMembers(v, q, since, hi);
    var k :| 0 <= k < |w| && w[k] == x;
    assert InLog(w[k], v);
    var j :| 0 <= j < |v| && StandsFor(w[k], v[j]);
    assert Agrees(w[k], v[j], q);
    y := v[j];
  }

  lemma SelectedFiltered(w: seq<State>, v: seq<State>, q: seq<Dict>, lo: int, hi: int, since: int, y: State)
    requires NoHole(w, v, lo, hi) && Faithful(w, v, q) && lo <= since && y in Select(v, q, since, hi)
    ensures Holds(Filter(w, q, since), y.rev)
  {
    FilterMembers(w, q, since);
    SelectMembers(v, q, since, hi);
    var j :| 0 <= j < |v| && v[j] == y;
    assert Holds(w, v[j].rev);
    var k :| 0 <= k < |w| && w[k].rev == v[j].rev;
    assert Agrees(w[k], v[j], q);
    assert w[k] in Filter(w, q, since);
  }

  lemma WindowRefines(w: seq<State>, v: seq<State>, q: seq<Dict>, lo: int, hi: int, since: int)
    requires NoHole(w, v, lo, hi) && Ordered(v) && Faithful(w, v, q) && lo <= since
    ensures SameKeys(Filter(w, q, since), Select(v, q, since, hi))
  {
    var a, b := Filter(w, q, since), Select(v, q, since, hi);
    FilterOrdered(w, q, since);
    SelectOrdered(v, q, since, hi);
    forall i | 0 <= i < |a| ensures Holds(b, a[i].rev) {
      var y := FilteredSelected(w, v, q, lo, hi, since, a[i]);
    }
    forall i | 0 <= i < |b| ensures Holds(a, b[i].rev) {
      SelectedFiltered(w, v, q, lo, hi, since, b[i]);
    }
    SameRevsAlign(a, b);
    forall i | 0 <= i < |a| ensures a[i].id == b[i].id {
      var y := FilteredSelected(w, v, q, lo, hi, since, a[i]);
      var k :| 0 <= k < |b| && b[k] == y;
      assert b[k].rev == b[i].rev;
    }
  }

  /** Cache refinement: anywhere in [minRev, maxRev), the ring filtered past
      `since` is the log filtered to (since, maxRev], at every wrap position. */
  lemma FilterRefines(c: Cache, v: seq<State>, q: seq<Dict>, since: int)
    requires CacheInv(c, v) && Ordered(v) && Faithful(Window(c), v, q)
    requires Answers(c, since)
    ensures SameKeys(Filter(Window(c), q, since), Select(v, q, since, c.maxRev))
  {
    WindowRefines(Window(c), v, q, c.minRev, c.maxRev, since);
  }

  /** The page a hit returns: the first `limit` log matches past `since` up to
      maxRev, and More exactly when the limit dropped some of them. */
  lemma AnswerRefines(c: Cache, v: seq<State>, q: seq<Dict>, since: int, limit: int)
    requires CacheInv(c, v) && Ordered(v) && Faithful(Window(c), v, q)
    ensures FromLog(c, q, since, limit).Some? <==> c.size != 0 && c.minRev <= since < c.maxRev
    ensures FromLog(c, q, since, limit).Some? ==>
              var p, all := FromLog(c, q, since, limit).value, Select(v, q, since, c.maxRev);
              var n := if 0 < limit < |all| then limit else |all|;
              SameKeys(p.states, all[..n]) && (p.more <==> n < |all|)
  {
    if Answers(c, since) {
      FilterRefines(c, v, q, since);
    }
  }
}
