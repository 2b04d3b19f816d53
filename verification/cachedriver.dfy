/** The cache driver object of cachedriver.go, each method proved to compute its
    counterpart on `Cache` values. */
module CacheDriverObject {
  import opened States
  import opened RevLog
  import opened Cache
  import opened CacheProofs

  // The states a conflict pre-check reports: the ring already holds a newer revision.
  function Stale(c: Cache, ctxs: seq<StateCtx>): seq<Text>
    requires Shape(c)
  {
    if ctxs == [] then []
    else
      var x := ctxs[|ctxs| - 1];
      Stale(c, ctxs[..|ctxs| - 1]) + if IsStale(c, x) then [x.current.id] else []
  }

  predicate IsStale(c: Cache, x: StateCtx)
    requires Shape(c)
  {
    var found := GetByID(c, x.current.id, 0);
    found.Some? && x.current.rev < found.value.rev
  }

  lemma {:induction false} FilterPrefix(w: seq<State>, q: seq<Dict>, since: int, i: nat)
    requires i <= |w|
    ensures Filter(w[..i], q, since) <= Filter(w, q, since)
    decreases |w| - i
  {
    if i < |w| {
      assert w[..i + 1][..i] == w[..i];
      FilterPrefix(w, q, since, i + 1);
    } else {
      assert w[..i] == w;
    }
  }

  lemma {:induction false} DrainIgnoresBuffer(c: Cache, x: seq<State>, buf: seq<State>)
    requires Shape(c)
    ensures Drain(c.(committed := x), buf) == Drain(c, buf)
    decreases |buf|
  {
    if buf != [] {
      if buf[0].rev < c.maxRev + 1 {
        DrainIgnoresBuffer(c, x, buf[1..]);
      } else if buf[0].rev == c.maxRev + 1 {
        AppendWindow(c, buf[0]);
        assert Append(c.(committed := x), buf[0]) == Append(c, buf[0]).(committed := x);
        DrainIgnoresBuffer(Append(c, buf[0]), x, buf[1..]);
      }
    }
  }

  lemma WindowSlot(c: Cache, i: nat, pos: nat)
    requires Shape(c) && i < c.size && pos == (c.idx - c.size + i) % |c.log|
    ensures Window(c)[i] == c.log[pos]
  {
  }

  lemma SlotFromYoungEnd(c: Cache, i: nat, pos: nat)
    requires Shape(c) && i < c.size && pos == (c.idx - 1 - i + |c.log|) % |c.log|
    ensures pos < |c.log| && Window(c)[c.size - i - 1] == c.log[pos]
  {
    ModShift(c.idx - 1 - i, |c.log|);
  }

  lemma YoungestStep(w: seq<State>, id: Text, rev: int, n: nat)
    requires 0 < n <= |w|
    ensures Youngest(w[..n], id, rev) ==
            if w[n - 1].id == id && (rev == 0 || rev == w[n - 1].rev) then Some(w[n - 1])
            else Youngest(w[..n - 1], id, rev)
  {
    assert w[..n][..n - 1] == w[..n - 1];
  }

  lemma FilterStep(w: seq<State>, q: seq<Dict>, since: int, i: nat)
    requires i < |w|
    ensures Filter(w[..i + 1], q, since) == Filter(w[..i], q, since) + if CacheHit(w[i], q, since) then [w[i]] else []
  {
    assert w[..i + 1][..i] == w[..i];
  }

  // One state past the limit is enough to know the answer.
  lemma CutHere(w: seq<State>, q: seq<Dict>, since: int, limit: int, i: nat)
    requires i < |w| && CacheHit(w[i], q, since) && 0 < limit == |Filter(w[..i], q, since)|
    ensures Cut(Filter(w, q, since), limit) == Page(Filter(w[..i], q, since), true)
  {
    FilterStep(w, q, since, i);
    FilterPrefix(w, q, since, i + 1);
  }

  lemma InsertSorted(r: seq<State>, j: nat, x: State)
    requires j <= |r| && SortedByRev(r)
    requires j > 0 ==> r[j - 1].rev <= x.rev
    requires j < |r| ==> x.rev <= r[j].rev
    ensures SortedByRev(r[..j] + [x] + r[j..])
  {
    var t := r[..j] + [x] + r[j..];
    assert forall k | 0 <= k < |t| :: t[k] == if k < j then r[k] else if k == j then x else r[k - 1];
    forall a, b | 0 <= a < b < |t| ensures t[a].rev <= t[b].rev {
      assert a < j ==> r[a].rev <= r[j - 1].rev;
      assert j < b ==> r[j].rev <= r[b - 1].rev;
    }
  }

  lemma InsertSame(r: seq<State>, j: nat, x: State)
    requires j <= |r|
    ensures multiset(r[..j] + [x] + r[j..]) == multiset(r) + multiset{x}
  {
    assert r == r[..j] + r[j..];
  }

  /** sort.Slice by revision. */
  method SortByRev(s: seq<State>) returns (r: seq<State>)
    ensures multiset(r) == multiset(s) && SortedByRev(r)
  {
    r := [];
    for i := 0 to |s|
      invariant multiset(r) == multiset(s[..i]) && SortedByRev(r)
    {
      var j := |r|;
      while 0 < j && s[i].rev < r[j - 1].rev
        invariant 0 <= j <= |r|
        invariant j < |r| ==> s[i].rev <= r[j].rev
      {
        j := j - 1;
      }
      assert s[..i + 1] == s[..i] + [s[i]];
      InsertSorted(r, j, s[i]);
      InsertSame(r, j, s[i]);
      r := r[..j] + [s[i]] + r[j..];
    }
    assert s[..|s|] == s;
  }

  class CacheDriver {
    var log: array<State>
    var size: nat
    var idx: nat
    var minRev: int
    var maxRev: int
    var committed: seq<State>

    ghost function Model(): Cache
      reads this, log
    {
      Cache(log[..], size, idx, minRev, maxRev, committed)
    }

    ghost predicate Valid()
      reads this, log
    {
      Shape(Model())
    }

    constructor (maxSize: nat)
      requires 0 < maxSize
      ensures Valid() && fresh(log) && log.Length == maxSize && Model() == EmptyCache(maxSize)
    {
      log := new State[maxSize](_ => ZERO_STATE);
      committed := [];
      size, idx, minRev, maxRev := 0, 0, -1, 0;
      new;
      assert log[..] == EmptyCache(maxSize).log;
    }

    /** The precondition on maxRev is the method's BUG panic. */
    method AppendStateLocked(s: State)
      requires Valid() && maxRev < s.rev
      modifies this, log
      ensures Valid() && log == old(log) && Model() == Append(old(Model()), s)
    {
      AppendWindow(Model(), s);
      var pos := idx % log.Length;
      log[pos] := CopyTo(s, log[pos]);
      assert log[..] == old(log[..])[pos := CopyTo(s, old(log[pos]))];

      maxRev := s.rev;

      if size == 0 {
        minRev := s.rev - 1;
      } else if size >= log.Length {
        var oldestPos := (idx + 1) % log.Length;
        minRev := log[oldestPos].rev - 1;
      }

      idx := idx + 1;
      if size < log.Length {
        size := size + 1;
      }
    }

    method GetStateByIDFromLog(id: Text, rev: int) returns (r: Option<State>)
      requires Valid()
      ensures r == GetByID(Model(), id, rev)
    {
      if size == 0 {
        return None;
      }
      if rev != 0 && rev <= minRev {
        return None;
      }
      if rev != 0 && rev > maxRev {
        return None;
      }

      r := ScanYoungest(id, rev);
    }

    // The loop of getStateByIDFromLog, youngest slot first.
    method ScanYoungest(id: Text, rev: int) returns (r: Option<State>)
      requires Valid()
      ensures r == Youngest(Window(Model()), id, rev)
    {
      ghost var w := Window(Model());
      assert w[..size] == w;
      for i := 0 to size
        invariant Youngest(w, id, rev) == Youngest(w[..size - i], id, rev)
      {
        var pos := (idx - 1 - i + log.Length) % log.Length;
        SlotFromYoungEnd(Model(), i, pos);
        YoungestStep(w, id, rev, size - i);
        hide Window;
        hide Youngest;
        var s := log[pos];
        if id == s.id && (rev == 0 || rev == s.rev) {
          return Some(s);
        }
      }
      return None;
    }

    method GetStatesFromLog(q: seq<Dict>, since: int, sinceTime: bool, latestOnly: bool, limit: int)
      returns (min: int, max: int, r: Option<Page>)
      requires Valid()
      ensures min == minRev && max == maxRev
      ensures r == if sinceTime || latestOnly then None else FromLog(Model(), q, since, limit)
    {
      min, max := minRev, maxRev;
      if sinceTime || latestOnly {
        return min, max, None;
      }
      if size == 0 || since < minRev || since >= maxRev {
        return min, max, None;
      }

      var states: seq<State>, more := [], false;
      ghost var w := Window(Model());
      for i := 0 to size
        invariant states == Filter(w[..i], q, since) && !more
        invariant 0 < limit ==> |states| <= limit
      {
        var pos := (idx - size + i) % log.Length;
        var s := log[pos];
        WindowSlot(Model(), i, pos);
        FilterStep(w, q, since, i);
        if s.rev <= since {
          continue;
        }
        if |q| > 0 {
          var ok := CacheMatchLabels(s, q);
          if !ok {
            continue;
          }
        }
        if limit > 0 && |states| >= limit {
          more := true;
          CutHere(w, q, since, limit, i);
          return min, max, Some(Page(states, more));
        }
        states := states + [s];
      }
      assert w[..size] == w;
      return min, max, Some(Page(states, more));
    }

    /** The conflict pre-check; one scratch context is reused for every lookup. */
    method CommitRevMismatch(ctxs: seq<StateCtx>) returns (ids: seq<Text>)
      requires Valid()
      ensures ids == Stale(Model(), ctxs)
    {
      ids := [];
      var copy := ZERO_CTX;
      for i := 0 to |ctxs|
        invariant ids == Stale(Model(), ctxs[..i])
      {
        assert ctxs[..i + 1][..i] == ctxs[..i];
        copy := CopyCtx(ctxs[i], copy);
        var found := GetStateByIDFromLog(ctxs[i].current.id, 0);
        if found.None? {
          continue;
        }
        copy := CopyToCtx(found.value, copy);
        if copy.current.rev > ctxs[i].current.rev {
          ids := ids + [ctxs[i].current.id];
        }
      }
      assert ctxs[..|ctxs|] == ctxs;
    }

    method CommitAppendLog(batch: seq<State>)
      requires Valid()
      modifies this, log
      ensures Valid() && log == old(log) && CommitAppended(old(Model()), batch, Model())
    {
      ghost var c0 := Model();
      for j := 0 to |batch|
        invariant Valid() && log == old(log)
        invariant Model() == c0.(committed := Buffered(c0, batch[..j]))
      {
        if |committed| >= COMMITTED_CAP {
          assert Buffered(c0, batch) == committed;
          break;
        }
        assert batch[..j + 1] == batch[..j] + [batch[j]];
        committed := committed + [batch[j]];
      }
      assert batch[..|batch|] == batch;

      committed := SortByRev(committed);
      ghost var buf := committed;
      DrainIgnoresBuffer(c0, buf, buf);

      var i := 0;
      while i < |committed|
        invariant 0 <= i <= |committed| && committed == buf
        invariant Valid() && log == old(log)
        invariant Drain(c0, buf) == Drain(Model(), committed[i..])
        decreases |committed| - i
      {
        var s := committed[i];
        var expRev := maxRev + 1;
        assert committed[i..][1..] == committed[i + 1..];
        if s.rev < expRev {
          i := i + 1;
          continue;
        }
        if expRev == s.rev {
          AppendStateLocked(s);
          i := i + 1;
          continue;
        }
        break;
      }
      committed := committed[i..];
    }

    /** getHead with the log's latest state, on an empty cache. */
    method TakeLatest(s: State)
      requires Valid() && 0 < s.rev
      modifies this, log
      ensures Valid() && log == old(log) && Model() == ApplyLatest(old(Model()), s)
    {
      if maxRev == 0 || maxRev + 1 == s.rev {
        AppendStateLocked(s);
      }
    }

    /** getHead with a page of newer states. */
    method TakePage(page: seq<State>)
      requires Valid()
      modifies this, log
      ensures Valid() && log == old(log) && Model() == ApplyPage(old(Model()), page)
    {
      if |page| == 0 {
        return;
      }
      committed := [];
      ghost var c0 := Model();
      for i := 0 to |page|
        invariant Valid() && log == old(log)
        invariant FoldPage(c0, page) == FoldPage(Model(), page[i..])
      {
        assert page[i..][1..] == page[i + 1..];
        if page[i].rev <= maxRev {
          continue;
        }
        AppendStateLocked(page[i]);
      }
    }
  }
}
