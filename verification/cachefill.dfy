/** How far each way of filling the ring of cachedriver.go gets: nothing in order is
    left behind. */
module CacheFill {
  import opened States
  import opened RevLog
  import opened Cache
  import opened CacheProofs

  ghost predicate HasRev(buf: seq<State>, rev: int) {
    exists i :: 0 <= i < |buf| && buf[i].rev == rev
  }

  lemma HasRevTail(buf: seq<State>, rev: int)
    requires buf != []
    ensures HasRev(buf, rev) <==> buf[0].rev == rev || HasRev(buf[1..], rev)
  {
    if HasRev(buf[1..], rev) {
      var i :| 0 <= i < |buf| - 1 && buf[1..][i].rev == rev;
      assert buf[i + 1].rev == rev;
    }
    if HasRev(buf, rev) && buf[0].rev != rev {
      var i :| 0 <= i < |buf| && buf[i].rev == rev;
      assert buf[1..][i - 1].rev == rev;
    }
  }

  // Every revision in (lo, hi] is in the buffer.
  ghost predicate Consecutive(buf: seq<State>, lo: int, hi: int) {
    forall rev {:trigger HasRev(buf, rev)} | lo < rev <= hi :: HasRev(buf, rev)
  }

  /** The drain takes the whole run of consecutive revisions that starts right past the
      ring, and keeps exactly what lies beyond the gap, in order. */
  lemma {:induction false} DrainExactly(c: Cache, buf: seq<State>)
    requires Shape(c) && SortedByRev(buf)
    ensures c.maxRev <= Drain(c, buf).maxRev
    ensures Consecutive(buf, c.maxRev, Drain(c, buf).maxRev) && !HasRev(buf, Drain(c, buf).maxRev + 1)
    ensures exists n :: 0 <= n <= |buf| && IsLeftover(buf, n, Drain(c, buf))
    decreases |buf|
  {
    if buf == [] {
      assert IsLeftover(buf, 0, Drain(c, buf));
    } else if c.maxRev + 1 < buf[0].rev {
      assert buf[0..] == buf;
      assert IsLeftover(buf, 0, Drain(c, buf));
    } else {
      var next := if buf[0].rev < c.maxRev + 1 then c else Append(c, buf[0]);
      AppendedShape(c, buf[0]);
      SortedTail(buf);
      hide Append, SortedByRev;
      DrainExactly(next, buf[1..]);
      var r := Drain(c, buf);
      assert r == Drain(next, buf[1..]);
      hide Drain;
      LeftoverOfTail(buf, r);
      forall rev ensures HasRev(buf, rev) <==> buf[0].rev == rev || HasRev(buf[1..], rev) {
        HasRevTail(buf, rev);
      }
      assert forall rev | next.maxRev < rev <= r.maxRev :: HasRev(buf[1..], rev);
    }
  }

  lemma AppendedShape(c: Cache, s: State)
    requires Shape(c) && s.rev <= c.maxRev + 1
    ensures s.rev == c.maxRev + 1 ==> Shape(Append(c, s)) && Append(c, s).maxRev == s.rev
  {
    if s.rev == c.maxRev + 1 {
      AppendWindow(c, s);
    }
  }

  lemma SortedTail(buf: seq<State>)
    requires SortedByRev(buf) && buf != []
    ensures SortedByRev(buf[1..])
  {
  }

  // The last states of the buffer, from n on, are past the ring and stay buffered.
  ghost predicate IsLeftover(buf: seq<State>, n: int, r: Cache) {
    && 0 <= n <= |buf| && r.committed == buf[n..]
    && (forall i | 0 <= i < n :: buf[i].rev <= r.maxRev)
    && forall i | n <= i < |buf| :: r.maxRev + 1 < buf[i].rev
  }

  lemma LeftoverOfTail(buf: seq<State>, r: Cache)
    requires buf != [] && buf[0].rev <= r.maxRev
    requires exists n :: 0 <= n <= |buf[1..]| && IsLeftover(buf[1..], n, r)
    ensures exists n :: 0 <= n <= |buf| && IsLeftover(buf, n, r)
  {
    var n :| 0 <= n <= |buf[1..]| && IsLeftover(buf[1..], n, r);
    assert buf[1..][n..] == buf[n + 1..];
    forall i | 1 <= i < |buf| ensures buf[i] == buf[1..][i - 1] {
    }
    forall i | n + 1 <= i < |buf| ensures r.maxRev + 1 < buf[i].rev {
      assert buf[i] == buf[1..][i - 1];
    }
    forall i | 0 <= i < n + 1 ensures buf[i].rev <= r.maxRev {
      assert i > 0 ==> buf[i] == buf[1..][i - 1];
    }
    assert IsLeftover(buf, n + 1, r);
  }

  /** Nothing of a commit is dropped while the buffer has room, and what is dropped is
      the end of the batch. */
  lemma BufferedExactly(c: Cache, batch: seq<State>)
    requires |c.committed| <= COMMITTED_CAP
    ensures exists n :: 0 <= n <= |batch| && Buffered(c, batch) == c.committed + batch[..n]
                        && (n < |batch| ==> |Buffered(c, batch)| == COMMITTED_CAP)
  {
    var room := COMMITTED_CAP - |c.committed|;
    var n := if |batch| <= room then |batch| else room;
    assert batch[..|batch|] == batch;
    if room <= 0 {
      assert c.committed + batch[..0] == c.committed;
    }
    assert Buffered(c, batch) == c.committed + batch[..n];
  }

  /** A commit in order is in the ring when its update is done: an empty buffer and a
      batch of the next revisions leave the ring at the batch's last. */
  lemma InOrderIsAppended(c: Cache, batch: seq<State>, c': Cache)
    requires Shape(c) && c.committed == [] && 0 < |batch| <= 100 && CommitAppended(c, batch, c')
    requires forall i | 0 <= i < |batch| :: batch[i].rev == c.maxRev + 1 + i
    ensures c'.maxRev == c.maxRev + |batch| && c'.committed == []
  {
    var buf :| multiset(buf) == multiset(Buffered(c, batch)) && SortedByRev(buf) && c' == Drain(c, buf);
    assert Buffered(c, batch) == batch;
    DrainExactly(c, buf);
    SamePermutationMembers(buf, batch);
    SamePermutationMembers(batch, buf);
    hide Drain, SortedByRev, Buffered;
    forall rev ensures HasRev(buf, rev) <==> c.maxRev < rev <= c.maxRev + |batch| {
      RevsOfBatch(c, batch, buf, rev);
    }
    LeavesNothing(c, buf, c', c.maxRev + |batch|);
  }

  lemma RevsOfBatch(c: Cache, batch: seq<State>, buf: seq<State>, rev: int)
    requires |buf| == |batch| && (forall s | s in buf :: s in batch) && (forall s | s in batch :: s in buf)
    requires forall i | 0 <= i < |batch| :: batch[i].rev == c.maxRev + 1 + i
    ensures HasRev(buf, rev) <==> c.maxRev < rev <= c.maxRev + |batch|
  {
    if HasRev(buf, rev) {
      var i :| 0 <= i < |buf| && buf[i].rev == rev;
      assert buf[i] in buf;
      var j :| 0 <= j < |batch| && batch[j] == buf[i];
    }
    if c.maxRev < rev <= c.maxRev + |batch| {
      var s := batch[rev - c.maxRev - 1];
      assert s in batch && s in buf;
      var i :| 0 <= i < |buf| && buf[i] == s;
    }
  }

  lemma LeavesNothing(c: Cache, buf: seq<State>, c': Cache, to: int)
    requires c.maxRev <= c'.maxRev && Consecutive(buf, c.maxRev, c'.maxRev) && !HasRev(buf, c'.maxRev + 1)
    requires c.maxRev < to && forall rev :: HasRev(buf, rev) <==> c.maxRev < rev <= to
    requires exists n :: 0 <= n <= |buf| && IsLeftover(buf, n, c')
    ensures c'.maxRev == to && c'.committed == []
  {
    assert HasRev(buf, c'.maxRev) || c'.maxRev == c.maxRev;
    var n :| 0 <= n <= |buf| && IsLeftover(buf, n, c');
    if n < |buf| {
      assert HasRev(buf, buf[n].rev);
    }
  }

  // ------------------------------------------------------------- the head poller

  /** A head page is taken in whole: the ring then ends at the page's last state, unless
      it was past it already, and nothing waits in the buffer. */
  lemma PageIsTakenIn(c: Cache, v: seq<State>, page: seq<State>, m: int, hi: int)
    requires CacheInv(c, v) && Ordered(v) && c.size > 0
    requires page == Select(v, [], m, hi) && 0 <= m <= c.maxRev && page != []
    ensures var r, last := ApplyPage(c, page), page[|page| - 1].rev;
            r.maxRev == (if last < c.maxRev then c.maxRev else last) && r.committed == []
  {
    SelectOrdered(v, [], m, hi);
    var c0 := c.(committed := []);
    FoldReaches(c0, page);
  }

  lemma {:induction false} FoldReaches(c: Cache, page: seq<State>)
    requires Shape(c) && Ordered(page)
    ensures FoldPage(c, page).committed == c.committed
    ensures page != [] ==> FoldPage(c, page).maxRev == if page[|page| - 1].rev < c.maxRev then c.maxRev else page[|page| - 1].rev
    ensures page == [] ==> FoldPage(c, page) == c
    decreases |page|
  {
    if page != [] {
      if page[0].rev <= c.maxRev {
        FoldReaches(c, page[1..]);
      } else {
        AppendWindow(c, page[0]);
        FoldReaches(Append(c, page[0]), page[1..]);
      }
    }
  }

  /** Later, the log's latest state is taken exactly when it is the next revision. */
  lemma LatestIsTakenExactly(c: Cache, s: State)
    requires Shape(c) && 0 < c.maxRev && 0 < s.rev
    ensures var r := ApplyLatest(c, s);
            if s.rev == c.maxRev + 1 then r.maxRev == s.rev && r.idx == c.idx + 1 else r == c
  {
    if s.rev == c.maxRev + 1 {
      AppendWindow(c, s);
    }
  }

  /** The latest state of the log starts an empty ring. */
  lemma LatestStartsRing(c: Cache, v: seq<State>, s: State)
    requires CacheInv(c, v) && Ordered(v) && s in v && 0 < s.rev && c.size == 0
    ensures var r := ApplyLatest(c, s); r.size == 1 && r.minRev == s.rev - 1 && r.maxRev == s.rev && StandsFor(Window(r)[0], s)
  {
    AppendWindow(c, s);
    SlotStandsFor(c, s);
    assert Window(Append(c, s))[0] == Slotted(c, s);
  }
}
