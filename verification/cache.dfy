/** The head cache of cachedriver.go as a value: the ring, its bounds, and the
    operations that run under its mutex. */
module Cache {
  import opened States
  import opened RevLog

  const COMMITTED_CAP := 100

  /** log is the ring; idx counts writes; (minRev, maxRev] is the window the
      ring claims to hold; committed is the reorder buffer. */
  datatype Cache = Cache(log: seq<State>, size: nat, idx: nat, minRev: int, maxRev: int, committed: seq<State>)

  predicate Shape(c: Cache) {
    && 0 < |c.log|
    && c.size == (if c.idx < |c.log| then c.idx else |c.log|)
  }

  function EmptyCache(maxSize: nat): Cache {
    Cache(seq(maxSize, _ => ZERO_STATE), 0, 0, -1, 0, [])
  }

  /** The ring read oldest first. */
  function Window(c: Cache): (w: seq<State>)
    requires Shape(c)
    ensures |w| == c.size
  {
    seq(c.size, i requires 0 <= i < c.size => c.log[(c.idx - c.size + i) % |c.log|])
  }

  // --------------------------------------------------------------- writing

  function Append(c: Cache, s: State): Cache
    requires Shape(c) && c.maxRev < s.rev
  {
    var n := |c.log|;
    var pos := c.idx % n;
    var log := c.log[pos := CopyTo(s, c.log[pos])];
    var minRev := if c.size == 0 then s.rev - 1
                  else if n <= c.size then log[(c.idx + 1) % n].rev - 1
                  else c.minRev;
    c.(log := log, maxRev := s.rev, minRev := minRev, idx := c.idx + 1,
       size := if c.size < n then c.size + 1 else c.size)
  }

  // The state a write to the ring leaves in its slot.
  function Slotted(c: Cache, s: State): State
    requires Shape(c)
  {
    CopyTo(s, c.log[c.idx % |c.log|])
  }

  lemma ModDistinct(a: nat, b: nat, n: nat)
    requires 0 < n && a < b < a + n
    ensures a % n != b % n
  {
    if a % n == b % n {
      assert a == a / n * n + a % n && b == b / n * n + b % n;
      assert b - a == (b / n - a / n) * n;
      MulGap(b / n - a / n, n);
    }
  }

  lemma MulGap(k: int, n: nat)
    requires 0 < n
    ensures k * n <= 0 || n <= k * n
  {
    if 0 < k {
      assert k * n == (k - 1) * n + n;
    } else {
      assert k * n <= 0 * n;
    }
  }

  /** A write pushes the state at the young end and, when the ring is full,
      drops exactly the oldest one. */
  lemma AppendWindow(c: Cache, s: State)
    requires Shape(c) && c.maxRev < s.rev
    ensures Shape(Append(c, s))
    ensures Window(Append(c, s)) == (if c.size < |c.log| then Window(c) else Window(c)[1..]) + [Slotted(c, s)]
  {
    var n, c', w := |c.log|, Append(c, s), Window(c);
    var kept := if c.size < n then w else w[1..];
    var w' := Window(c');
    assert |w'| == |kept| + 1;
    forall i | 0 <= i < |w'| ensures w'[i] == (kept + [Slotted(c, s)])[i] {
      var at := c'.idx - c'.size + i;
      assert w'[i] == c'.log[at % n];
      if i < |kept| {
        ModDistinct(at, c.idx, n);
        assert kept[i] == c.log[at % n];
      }
    }
  }

  // The minimum the ring publishes is one below its oldest revision.
  lemma AppendMin(c: Cache, s: State)
    requires Shape(c) && c.maxRev < s.rev
    requires 0 < c.size ==> c.minRev == Window(c)[0].rev - 1
    ensures Shape(Append(c, s))
    ensures Append(c, s).minRev == Window(Append(c, s))[0].rev - 1
  {
    AppendWindow(c, s);
    var n, c' := |c.log|, Append(c, s);
    if n <= c.size {
      assert Window(c')[0] == c'.log[(c.idx + 1 - n) % n];
      assert c.idx + 1 == (c.idx + 1 - n) + n;
      ModShift(c.idx + 1 - n, n);
    }
  }

  lemma ModShift(a: nat, n: nat)
    requires 0 < n
    ensures (a + n) % n == a % n
  {
    assert (a + n) % n == a % n by {
      var k := a / n;
      assert a + n == (k + 1) * n + a % n;
      DivModUnique(a + n, k + 1, a % n, n);
    }
  }

  lemma DivModUnique(a: int, k: int, r: int, n: nat)
    requires 0 <= r < n && a == k * n + r
    ensures a % n == r
  {
    var k', r' := a / n, a % n;
    assert a == k' * n + r';
    assert (k - k') * n == r' - r;
    MulGap(k - k', n);
    MulGap(k' - k, n);
    assert (k' - k) * n == r - r';
  }

  /** The drain loop of commitAppendLog over the sorted buffer: skip what the
      ring already has, append while revisions are consecutive, keep the rest. */
  function Drain(c: Cache, buf: seq<State>): Cache
    requires Shape(c)
    decreases |buf|
  {
    if buf == [] then c.(committed := [])
    else if buf[0].rev < c.maxRev + 1 then Drain(c, buf[1..])
    else if buf[0].rev == c.maxRev + 1 then AppendWindow(c, buf[0]); Drain(Append(c, buf[0]), buf[1..])
    else c.(committed := buf)
  }

  // A commit's states enter the buffer until it is full; the rest is dropped.
  function Buffered(c: Cache, batch: seq<State>): seq<State> {
    var room := COMMITTED_CAP - |c.committed|;
    if room <= 0 then c.committed
    else if |batch| <= room then c.committed + batch
    else c.committed + batch[..room]
  }

  ghost predicate SortedByRev(buf: seq<State>) {
    forall i, j | 0 <= i < j < |buf| :: buf[i].rev <= buf[j].rev
  }

  /** commitAppendLog: sort.Slice is not stable, so any sorted order of the
      buffer is a possible outcome. */
  ghost predicate CommitAppended(c: Cache, batch: seq<State>, c': Cache)
    requires Shape(c)
  {
    exists buf :: multiset(buf) == multiset(Buffered(c, batch)) && SortedByRev(buf) && c' == Drain(c, buf)
  }

  function FoldPage(c: Cache, page: seq<State>): (r: Cache)
    requires Shape(c)
    ensures Shape(r)
    decreases |page|
  {
    if page == [] then c
    else if page[0].rev <= c.maxRev then FoldPage(c, page[1..])
    else AppendWindow(c, page[0]); FoldPage(Append(c, page[0]), page[1..])
  }

  /** getHead with a page of newer states: the reorder buffer is emptied first. */
  function ApplyPage(c: Cache, page: seq<State>): Cache
    requires Shape(c)
  {
    if page == [] then c else FoldPage(c.(committed := []), page)
  }

  /** getHead on an empty cache: the log's latest state starts the window. */
  function ApplyLatest(c: Cache, s: State): Cache
    requires Shape(c) && 0 < s.rev
  {
    if c.maxRev == 0 || c.maxRev + 1 == s.rev then Append(c, s) else c
  }

  // --------------------------------------------------------------- reading

  predicate CacheHit(s: State, q: seq<Dict>, since: int) {
    since < s.rev && (|q| > 0 ==> CacheMatches(s, q))
  }

  function Filter(w: seq<State>, q: seq<Dict>, since: int): seq<State> {
    if w == [] then []
    else Filter(w[..|w| - 1], q, since) + if CacheHit(w[|w| - 1], q, since) then [w[|w| - 1]] else []
  }

  predicate Answers(c: Cache, since: int) {
    c.size != 0 && c.minRev <= since < c.maxRev
  }

  /** getStatesFromLog without SinceTime and LatestOnly, which always miss. */
  function FromLog(c: Cache, q: seq<Dict>, since: int, limit: int): Option<Page>
    requires Shape(c)
  {
    if Answers(c, since) then Some(Cut(Filter(Window(c), q, since), limit)) else None
  }

  // The youngest state of `w` with this id (and this revision, unless 0).
  function Youngest(w: seq<State>, id: Text, rev: int): Option<State> {
    if w == [] then None
    else if w[|w| - 1].id == id && (rev == 0 || rev == w[|w| - 1].rev) then Some(w[|w| - 1])
    else Youngest(w[..|w| - 1], id, rev)
  }

  function GetByID(c: Cache, id: Text, rev: int): Option<State>
    requires Shape(c)
  {
    if c.size == 0 || (rev != 0 && (rev <= c.minRev || c.maxRev < rev)) then None
    else Youngest(Window(c), id, rev)
  }

  // ------------------------------------------------------------- invariant

  /** A ring slot stands for the log state with its revision and ID; its maps
      may still hold keys of the slot's earlier occupants. */
  ghost predicate StandsFor(w: State, s: State) {
    w.rev == s.rev && w.id == s.id && exists to :: w == CopyTo(s, to)
  }

  ghost predicate InLog(w: State, v: seq<State>) {
    exists i :: 0 <= i < |v| && StandsFor(w, v[i])
  }

  ghost predicate Holds(w: seq<State>, rev: int) {
    exists i :: 0 <= i < |w| && w[i].rev == rev
  }

  /** Every slot is a log state, and no log revision in (lo, hi] is missing. */
  ghost predicate NoHole(w: seq<State>, v: seq<State>, lo: int, hi: int) {
    && Ordered(w)
    && (forall i | 0 <= i < |w| :: lo < w[i].rev <= hi)
    && (forall i {:trigger InLog(w[i], v)} | 0 <= i < |w| :: InLog(w[i], v))
    && (forall i {:trigger Holds(w, v[i].rev)} | 0 <= i < |v| && lo < v[i].rev <= hi :: Holds(w, v[i].rev))
  }

  ghost predicate CacheInv(c: Cache, v: seq<State>) {
    && Shape(c)
    && (c.size == 0 ==> c.minRev == -1 && c.maxRev == 0)
    && (c.size > 0 ==> 0 <= c.minRev == Window(c)[0].rev - 1 && c.maxRev == Window(c)[c.size - 1].rev)
    && NoHole(Window(c), v, c.minRev, c.maxRev)
    && |c.committed| <= COMMITTED_CAP
    && forall s | s in c.committed :: s in v
  }
}
