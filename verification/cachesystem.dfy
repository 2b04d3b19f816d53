/** The cache driver at work: commits, out-of-order cache updates, the head
    poller and one log iterator, interleaved in any order.

    Each step is one critical section.  `v` is the log the driver publishes and
    `rev` its revision counter; the driver's own scan is two steps (it reads its
    revision counter, and later returns a page). */
module CacheSystem {
  import opened States
  import opened RevLog
  import opened Cache
  import opened CacheProofs
  import opened CacheSlots
  import opened Iteration

  // Where getHead stands between its critical sections.
  datatype HeadPc = HeadIdle | HeadAsked(m: int) | HeadLatest(s: State) | HeadPage(m: int, page: seq<State>)

  // Where the iterator stands between a cache miss and the driver's answer.
  datatype IterPc = Idle | Missed(minRev: int, polling: bool) | Scanning(minRev: int, until: int, polling: bool)

  // What the iterator's last query covered: nothing yet, the ring up to maxRev, or
  // the driver up to its revision counter when the scan started, unless the page was full.
  datatype Looked = Nowhere | RingTo(rev: int) | ScanTo(rev: int, full: bool)

  datatype Sys = Sys(
    v: seq<State>,
    rev: int,
    cache: Cache,
    head: HeadPc,
    it: Iter,
    pc: IterPc,
    last: Looked,
    start: int,
    yielded: seq<Key>)

  datatype Step =
    | Commit(batch: seq<State>, rev: int)
    | CacheAppend(batch: seq<State>)
    | HeadAsk
    | HeadFetchLatest(s: State)
    | HeadFetchPage(page: Page)
    | HeadFetchNothing
    | HeadApply
    | Next
    | Poll
    | ScanStart
    | ScanEnd(page: Page)
    | ScanFail

  // The revision Next delivers, if it delivers one.
  function Delivered(before: Iter, states: seq<State>): seq<Key> {
    if states == [] then [] else [(states[0].id, states[0].rev)]
  }

  ghost predicate Start(s: Sys) {
    && s.v == [] && s.rev == 0
    && (exists maxSize: nat :: 0 < maxSize && s.cache == EmptyCache(maxSize))
    && s.head == HeadIdle && s.pc == Idle && s.last == Nowhere
    && 0 <= s.start && 0 < s.it.limit
    && s.it == NewIter(s.it.q, s.it.limit, s.start)
    && s.yielded == []
  }

  // A commit publishes a batch of newer revisions, or fails and only burns some.
  ghost predicate CommitStep(s: Sys, batch: seq<State>, rev: int, s': Sys) {
    && LogInv(s.v + batch, rev) && s.rev <= rev
    && (forall i | 0 <= i < |batch| :: s.rev < batch[i].rev)
    && s' == s.(v := s.v + batch, rev := rev)
  }

  // commitAppendLog for any states already committed, in any order, any time later.
  ghost predicate CacheAppendStep(s: Sys, batch: seq<State>, s': Sys) {
    && Shape(s.cache)
    && (forall x | x in batch :: x in s.v)
    && CommitAppended(s.cache, batch, s'.cache)
    && s' == s.(cache := s'.cache)
  }

  ghost predicate HeadFetchLatestStep(s: Sys, x: State, s': Sys) {
    && s.head.HeadAsked? && s.head.m <= 0
    && x in s.v
    && s' == s.(head := HeadLatest(x))
  }

  ghost predicate HeadFetchPageStep(s: Sys, p: Page, s': Sys) {
    && s.head.HeadAsked? && 0 < s.head.m
    && var limit := if |s.cache.log| < 100 then |s.cache.log| else 100;
    && IsPage(s.v, [], s.head.m, limit, s.head.m, p)
    && s' == s.(head := HeadPage(s.head.m, p.states))
  }

  ghost predicate HeadApplyStep(s: Sys, s': Sys) {
    && Shape(s.cache)
    && match s.head
       case HeadLatest(x) => 0 < x.rev && s' == s.(cache := ApplyLatest(s.cache, x), head := HeadIdle)
       case HeadPage(_, page) => s' == s.(cache := ApplyPage(s.cache, page), head := HeadIdle)
       case _ => false
  }

  // Next: from the page at hand, or through the cache, which answers or misses.
  ghost predicate NextStep(s: Sys, s': Sys) {
    && s.pc == Idle && Shape(s.cache) && -1 <= s.it.resIdx
    && if !NeedsPage(s.it) then
         s' == s.(it := NextLocal(s.it), yielded := s.yielded + Delivered(s.it, if s.it.failed then [] else Rest(s.it)))
       else match FromLog(s.cache, s.it.q, s.it.sinceRev, s.it.limit)
         case Some(p) => s' == s.(it := TakePage(s.it, p), last := RingTo(s.cache.maxRev), yielded := s.yielded + Delivered(s.it, p.states))
         case None => s' == s.(pc := Missed(s.cache.minRev, false))
  }

  // One round of Wait; it may only be called when the page promised nothing more.
  ghost predicate PollStep(s: Sys, s': Sys) {
    && s.pc == Idle && Shape(s.cache) && !s.it.failed
    && s.it.res.Some? && !s.it.res.value.more
    && match FromLog(s.cache, s.it.q, s.it.sinceRev, s.it.limit)
       case Some(p) => s' == s.(it := PollHit(s.it, p, s.cache.maxRev), last := RingTo(s.cache.maxRev))
       case None => s' == s.(pc := Missed(s.cache.minRev, true))
  }

  ghost predicate ScanStartStep(s: Sys, s': Sys) {
    && s.pc.Missed?
    && s' == s.(pc := Scanning(s.pc.minRev, s.rev, s.pc.polling))
  }

  ghost predicate ScanEndStep(s: Sys, p: Page, s': Sys) {
    && s.pc.Scanning?
    && IsPage(s.v, s.it.q, s.it.sinceRev, s.it.limit, s.pc.until, p)
    && s' == if s.pc.polling then s.(pc := Idle, it := PollScan(s.it, p, s.pc.minRev), last := ScanTo(s.pc.until, |p.states| == s.it.limit))
             else s.(pc := Idle, it := TakePage(s.it, p), last := ScanTo(s.pc.until, |p.states| == s.it.limit), yielded := s.yielded + Delivered(s.it, p.states))
  }

  ghost predicate StepBy(s: Sys, step: Step, s': Sys) {
    match step
    case Commit(batch, rev) => CommitStep(s, batch, rev, s')
    case CacheAppend(batch) => CacheAppendStep(s, batch, s')
    case HeadAsk => s.head == HeadIdle && s' == s.(head := HeadAsked(s.cache.maxRev))
    case HeadFetchLatest(x) => HeadFetchLatestStep(s, x, s')
    case HeadFetchPage(p) => HeadFetchPageStep(s, p, s')
    case HeadFetchNothing => s.head.HeadAsked? && s' == s.(head := HeadIdle)
    case HeadApply => HeadApplyStep(s, s')
    case Next => NextStep(s, s')
    case Poll => PollStep(s, s')
    case ScanStart => ScanStartStep(s, s')
    case ScanEnd(p) => ScanEndStep(s, p, s')
    case ScanFail => s.pc.Scanning? && s' == s.(pc := Idle, it := s.it.(failed := true))
  }

  ghost predicate Steps(s: Sys, s': Sys) {
    exists step :: StepBy(s, step, s')
  }

  ghost predicate Run(t: seq<Sys>) {
    && |t| > 0 && Start(t[0])
    && forall i | 0 < i < |t| :: Steps(t[i - 1], t[i])
  }

  // ------------------------------------------------ the cache, over every run

  // A page in flight is still a gap-free stretch of the log past a revision the ring has.
  ghost predicate HeadInv(s: Sys) {
    match s.head
    case HeadIdle => true
    case HeadAsked(m) => m <= s.cache.maxRev
    case HeadLatest(x) => x in s.v && 0 < x.rev
    case HeadPage(m, page) =>
      0 < m <= s.cache.maxRev && exists hi :: hi <= s.rev && page == Select(s.v, [], m, hi)
  }

  ghost predicate CachedInv(s: Sys) {
    && LogInv(s.v, s.rev)
    && CacheInv(s.cache, s.v)
    && 0 <= s.rev && s.cache.maxRev <= s.rev
    && HeadInv(s)
  }

  lemma MaxRevLogged(c: Cache, v: seq<State>, rev: int)
    requires CacheInv(c, v) && LogInv(v, rev) && 0 <= rev
    ensures c.maxRev <= rev
  {
    if c.size > 0 {
      var w := Window(c);
      assert InLog(w[c.size - 1], v);
    }
  }

  lemma CommitKeepsCached(s: Sys, batch: seq<State>, rev: int, s': Sys)
    requires CachedInv(s) && CommitStep(s, batch, rev, s')
    ensures CachedInv(s')
  {
    GrowKeeps(s.cache, s.v, batch);
    if s.head.HeadPage? {
      var hi :| hi <= s.rev && s.head.page == Select(s.v, [], s.head.m, hi);
      SelectStable(s.v, batch, [], s.head.m, hi);
    }
  }

  lemma CacheAppendKeepsCached(s: Sys, batch: seq<State>, s': Sys)
    requires CachedInv(s) && CacheAppendStep(s, batch, s')
    ensures CachedInv(s')
  {
    CommitAppendKeeps(s.cache, s.v, batch, s'.cache);
    MaxRevLogged(s'.cache, s.v, s.rev);
  }

  lemma HeadKeepsCached(s: Sys, step: Step, s': Sys)
    requires CachedInv(s) && StepBy(s, step, s')
    requires step.HeadFetchLatest? || step.HeadFetchPage? || step.HeadApply?
    ensures CachedInv(s')
  {
    match step {
      case HeadFetchLatest(x) =>
      case HeadFetchPage(p) =>
        var limit := if |s.cache.log| < 100 then |s.cache.log| else 100;
        var hi :| PageUpTo(s.v, [], s.head.m, limit, s.head.m, p, hi);
        if s.rev <= hi {
          SelectClamp(s.v, [], s.head.m, s.rev, hi);
        }
      case HeadApply =>
        if s.head.HeadLatest? {
          ApplyLatestKeeps(s.cache, s.v, s.head.s);
        } else {
          var hi :| hi <= s.rev && s.head.page == Select(s.v, [], s.head.m, hi);
          ApplyPageKeeps(s.cache, s.v, s.head.page, s.head.m, hi);
        }
        MaxRevLogged(s'.cache, s.v, s.rev);
    }
  }

  lemma StepKeepsCached(s: Sys, step: Step, s': Sys)
    requires CachedInv(s) && StepBy(s, step, s')
    ensures CachedInv(s')
  {
    match step {
      case Commit(batch, rev) => CommitKeepsCached(s, batch, rev, s');
      case CacheAppend(batch) => CacheAppendKeepsCached(s, batch, s');
      case HeadFetchLatest(_) => HeadKeepsCached(s, step, s');
      case HeadFetchPage(_) => HeadKeepsCached(s, step, s');
      case HeadApply => HeadKeepsCached(s, step, s');
      case _ =>
    }
  }

  /** No-hole window: in every state of every run the ring holds every committed
      revision of (minRev, maxRev] and nothing that is not in the log. */
  lemma {:induction false} WindowNeverHoles(t: seq<Sys>, n: nat)
    requires Run(t) && n < |t|
    ensures CachedInv(t[n])
  {
    if n == 0 {
      var maxSize: nat :| 0 < maxSize && t[0].cache == EmptyCache(maxSize);
      InitInv(maxSize, []);
    } else {
      WindowNeverHoles(t, n - 1);
      assert Steps(t[n - 1], t[n]);
      var step :| StepBy(t[n - 1], step, t[n]);
      StepKeepsCached(t[n - 1], step, t[n]);
    }
  }

  // --------------------------------------------- the iterator, over every run

  // The undelivered rest of a page is the log's next matches after the cursor.
  ghost predicate PendingInv(s: Sys) {
    var r := Rest(s.it);
    r != [] ==>
      var last := r[|r| - 1].rev;
      last <= s.rev && SameKeys(r, Select(s.v, s.it.q, s.it.sinceRev, last))
  }

  ghost predicate ScanInv(s: Sys) {
    match s.pc
    case Idle => true
    case Missed(minRev, _) => minRev <= s.rev
    case Scanning(minRev, until, _) => minRev <= until <= s.rev
  }

  /** What has been delivered is every match in (start, cursor], in log order. */
  ghost predicate Delivery(s: Sys) {
    s.yielded == Keys(Select(s.v, s.it.q, s.start, s.it.sinceRev))
  }

  ghost predicate IterInv(s: Sys) {
    && 0 < s.it.limit && -1 <= s.it.resIdx
    && 0 <= s.start <= s.it.sinceRev && (s.it.sinceRev == s.start || s.it.sinceRev <= s.rev)
    && Delivery(s) && PendingInv(s) && ScanInv(s)
  }

  /** The ring answers the iterator's labels as the log would. */
  ghost predicate FaithfulNow(s: Sys) {
    Shape(s.cache) && Faithful(Window(s.cache), s.v, s.it.q)
  }

  lemma KeysConcat(a: seq<State>, b: seq<State>)
    ensures Keys(a + b) == Keys(a) + Keys(b)
  {
  }

  lemma SameKeysPrefix(a: seq<State>, b: seq<State>, n: nat)
    requires SameKeys(a, b) && n <= |a|
    ensures SameKeys(a[..n], b[..n]) && SameKeys(a[n..], b[n..])
  {
  }

  /** Delivering the first undelivered state of a good page. */
  lemma DeliverFirst(v: seq<State>, q: seq<Dict>, start: int, since: int, r: seq<State>, yielded: seq<Key>)
    requires Ordered(v) && r != [] && start <= since
    requires SameKeys(r, Select(v, q, since, r[|r| - 1].rev))
    requires yielded == Keys(Select(v, q, start, since))
    ensures yielded + [(r[0].id, r[0].rev)] == Keys(Select(v, q, start, r[0].rev))
    ensures since < r[0].rev <= r[|r| - 1].rev
    ensures |r| > 1 ==> SameKeys(r[1..], Select(v, q, r[0].rev, r[|r| - 1].rev))
  {
    var last := r[|r| - 1].rev;
    var a := Select(v, q, since, last);
    SelectPrefix(v, q, since, last, 1);
    SelectSuffix(v, q, since, last, 1);
    SameKeysPrefix(r, a, 1);
    SelectSplit(v, q, start, since, r[0].rev);
    KeysConcat(Select(v, q, start, since), a[..1]);
    assert Keys(a[..1]) == [(r[0].id, r[0].rev)];
  }

  /** Moving the cursor over a stretch without matches changes nothing. */
  lemma JumpIsSafe(v: seq<State>, q: seq<Dict>, start: int, since: int, to: int, hi: int)
    requires Ordered(v) && start <= since <= to && Select(v, q, since, to) == []
    ensures Select(v, q, start, to) == Select(v, q, start, since)
    ensures Select(v, q, since, hi) != [] ==> Select(v, q, to, hi) == Select(v, q, since, hi)
  {
    SelectSplit(v, q, start, since, to);
    if hi <= to {
      if since <= hi {
        SelectSplit(v, q, since, hi, to);
      } else {
        SelectEmpty(v, q, since, hi);
      }
    } else {
      SelectSplit(v, q, since, to, hi);
    }
  }

  /** A page whose states are the first matches after the cursor, up to `hi`. */
  ghost predicate FreshPage(v: seq<State>, rev: int, q: seq<Dict>, since: int, states: seq<State>) {
    states != [] ==>
      var last := states[|states| - 1].rev;
      last <= rev && SameKeys(states, Select(v, q, since, last))
  }

  lemma PrefixIsFresh(v: seq<State>, rev: int, q: seq<Dict>, since: int, hi: int, n: nat, states: seq<State>)
    requires LogInv(v, rev) && n <= |Select(v, q, since, hi)|
    requires SameKeys(states, Select(v, q, since, hi)[..n])
    ensures FreshPage(v, rev, q, since, states)
  {
    if n > 0 {
      SelectPrefix(v, q, since, hi, n);
      SelectMembers(v, q, since, hi);
      var a := Select(v, q, since, hi);
      assert a[n - 1] in a;
      var k :| 0 <= k < |v| && v[k] == a[n - 1];
    }
  }

  lemma HitIsFresh(s: Sys)
    requires CachedInv(s) && FaithfulNow(s) && 0 < s.it.limit
    requires FromLog(s.cache, s.it.q, s.it.sinceRev, s.it.limit).Some?
    ensures var p := FromLog(s.cache, s.it.q, s.it.sinceRev, s.it.limit).value;
            FreshPage(s.v, s.rev, s.it.q, s.it.sinceRev, p.states)
    ensures var p := FromLog(s.cache, s.it.q, s.it.sinceRev, s.it.limit).value;
            p.states == [] ==> Select(s.v, s.it.q, s.it.sinceRev, s.cache.maxRev) == []
    ensures s.it.sinceRev < s.cache.maxRev
  {
    AnswerRefines(s.cache, s.v, s.it.q, s.it.sinceRev, s.it.limit);
    var p := FromLog(s.cache, s.it.q, s.it.sinceRev, s.it.limit).value;
    var all := Select(s.v, s.it.q, s.it.sinceRev, s.cache.maxRev);
    var n := if 0 < s.it.limit < |all| then s.it.limit else |all|;
    PrefixIsFresh(s.v, s.rev, s.it.q, s.it.sinceRev, s.cache.maxRev, n, p.states);
  }

  lemma ScanIsFresh(s: Sys, p: Page)
    requires LogInv(s.v, s.rev) && 0 < s.it.limit && s.pc.Scanning?
    requires IsPage(s.v, s.it.q, s.it.sinceRev, s.it.limit, s.pc.until, p)
    ensures FreshPage(s.v, s.rev, s.it.q, s.it.sinceRev, p.states)
    ensures p.states == [] ==> Select(s.v, s.it.q, s.it.sinceRev, s.pc.until) == []
  {
    var q, since := s.it.q, s.it.sinceRev;
    var hi :| PageUpTo(s.v, q, since, s.it.limit, s.pc.until, p, hi);
    assert p.states == Select(s.v, q, since, hi)[..|p.states|];
    PrefixIsFresh(s.v, s.rev, q, since, hi, |p.states|, p.states);
    if p.states == [] {
      if s.pc.until <= since {
        SelectEmpty(s.v, q, since, s.pc.until);
      } else {
        SelectSplit(s.v, q, since, s.pc.until, hi);
      }
    }
  }

  lemma CommitKeepsIter(s: Sys, batch: seq<State>, rev: int, s': Sys)
    requires CachedInv(s) && IterInv(s) && CommitStep(s, batch, rev, s')
    ensures IterInv(s')
  {
    var q := s.it.q;
    if s.it.sinceRev <= s.rev {
      SelectStable(s.v, batch, q, s.start, s.it.sinceRev);
    } else {
      SelectEmpty(s.v, q, s.start, s.start);
      SelectEmpty(s'.v, q, s.start, s.start);
    }
    var r := Rest(s.it);
    if r != [] {
      SelectStable(s.v, batch, q, s.it.sinceRev, r[|r| - 1].rev);
    }
  }

  lemma TakeKeepsIter(s: Sys, p: Page, s': Sys)
    requires LogInv(s.v, s.rev) && IterInv(s) && FreshPage(s.v, s.rev, s.it.q, s.it.sinceRev, p.states)
    requires s' == s.(pc := Idle, last := s'.last, it := TakePage(s.it, p), yielded := s.yielded + Delivered(s.it, p.states))
    ensures IterInv(s')
  {
    if p.states != [] {
      DeliverFirst(s.v, s.it.q, s.start, s.it.sinceRev, p.states, s.yielded);
      assert Rest(s'.it) == p.states[1..];
    }
  }

  lemma LoadKeepsIter(s: Sys, p: Page, s': Sys)
    requires LogInv(s.v, s.rev) && IterInv(s) && FreshPage(s.v, s.rev, s.it.q, s.it.sinceRev, p.states)
    requires p.states != [] && s' == s.(pc := Idle, last := s'.last, it := s.it.(res := Some(p), resIdx := -1))
    ensures IterInv(s')
  {
    assert Rest(s'.it) == p.states;
  }

  lemma JumpKeepsIter(s: Sys, to: int, s': Sys)
    requires LogInv(s.v, s.rev) && IterInv(s) && s.it.sinceRev <= to <= s.rev
    requires Select(s.v, s.it.q, s.it.sinceRev, to) == []
    requires s' == s.(pc := Idle, last := s'.last, it := s.it.(sinceRev := to))
    ensures IterInv(s')
  {
    var r := Rest(s.it);
    var last := if r == [] then to else r[|r| - 1].rev;
    JumpIsSafe(s.v, s.it.q, s.start, s.it.sinceRev, to, last);
    assert Rest(s'.it) == r;
  }

  lemma DeliverKeepsIter(s: Sys, s': Sys)
    requires LogInv(s.v, s.rev) && IterInv(s) && !s.it.failed && Rest(s.it) != []
    requires s' == s.(it := NextLocal(s.it), yielded := s.yielded + Delivered(s.it, Rest(s.it)))
    ensures IterInv(s')
  {
    var r, it' := Rest(s.it), s'.it;
    assert r[0] == s.it.res.value.states[s.it.resIdx + 1];
    assert it' == s.it.(resIdx := s.it.resIdx + 1, sinceRev := r[0].rev);
    assert Rest(it') == r[1..];
    DeliverFirst(s.v, s.it.q, s.start, s.it.sinceRev, r, s.yielded);
    if |r| > 1 {
      assert r[1..][|r| - 2] == r[|r| - 1];
    }
  }

  lemma LocalKeepsIter(s: Sys, s': Sys)
    requires LogInv(s.v, s.rev) && IterInv(s) && !NeedsPage(s.it)
    requires s' == s.(it := NextLocal(s.it), yielded := s.yielded + Delivered(s.it, if s.it.failed then [] else Rest(s.it)))
    ensures IterInv(s')
  {
    if !s.it.failed && Rest(s.it) != [] {
      DeliverKeepsIter(s, s');
    } else {
      assert Rest(s'.it) == Rest(s.it);
    }
  }

  lemma NextKeepsIter(s: Sys, s': Sys)
    requires CachedInv(s) && IterInv(s) && FaithfulNow(s) && NextStep(s, s')
    ensures IterInv(s')
  {
    if !NeedsPage(s.it) {
      LocalKeepsIter(s, s');
    } else {
      match FromLog(s.cache, s.it.q, s.it.sinceRev, s.it.limit) {
        case Some(p) =>
          HitIsFresh(s);
          TakeKeepsIter(s, p, s');
        case None => MinBelowRev(s);
      }
    }
  }

  lemma MinBelowRev(s: Sys)
    requires CachedInv(s)
    ensures s.cache.minRev <= s.rev
  {
  }

  lemma PollKeepsIter(s: Sys, s': Sys)
    requires CachedInv(s) && IterInv(s) && FaithfulNow(s) && PollStep(s, s')
    ensures IterInv(s')
  {
    match FromLog(s.cache, s.it.q, s.it.sinceRev, s.it.limit) {
      case Some(p) =>
        HitIsFresh(s);
        if p.states != [] {
          LoadKeepsIter(s, p, s');
        } else {
          JumpKeepsIter(s, s.cache.maxRev, s');
        }
      case None => MinBelowRev(s);
    }
  }

  lemma ScanJumpKeepsIter(s: Sys, minRev: int, until: int, s': Sys)
    requires LogInv(s.v, s.rev) && IterInv(s) && s.it.sinceRev <= minRev <= until <= s.rev
    requires Select(s.v, s.it.q, s.it.sinceRev, until) == []
    requires s' == s.(pc := Idle, last := s'.last, it := s.it.(sinceRev := minRev))
    ensures IterInv(s')
  {
    SelectSplit(s.v, s.it.q, s.it.sinceRev, minRev, until);
    JumpKeepsIter(s, minRev, s');
  }

  lemma ScannedKeepsIter(s: Sys, p: Page, s': Sys)
    requires LogInv(s.v, s.rev) && IterInv(s) && s.pc.Scanning?
    requires FreshPage(s.v, s.rev, s.it.q, s.it.sinceRev, p.states)
    requires p.states == [] ==> Select(s.v, s.it.q, s.it.sinceRev, s.pc.until) == []
    requires s' == if s.pc.polling then s.(pc := Idle, last := s'.last, it := PollScan(s.it, p, s.pc.minRev))
                   else s.(pc := Idle, last := s'.last, it := TakePage(s.it, p), yielded := s.yielded + Delivered(s.it, p.states))
    ensures IterInv(s')
  {
    if !s.pc.polling {
      TakeKeepsIter(s, p, s');
    } else if p.states != [] {
      LoadKeepsIter(s, p, s');
    } else if s.it.sinceRev < s.pc.minRev {
      ScanJumpKeepsIter(s, s.pc.minRev, s.pc.until, s');
    }
  }

  lemma ScanEndKeepsIter(s: Sys, p: Page, s': Sys)
    requires LogInv(s.v, s.rev) && IterInv(s) && ScanEndStep(s, p, s')
    ensures IterInv(s')
  {
    ScanIsFresh(s, p);
    ScannedKeepsIter(s, p, s');
  }

  lemma UnrelatedKeepsIter(s: Sys, s': Sys)
    requires IterInv(s) && ScanInv(s')
    requires s'.v == s.v && s'.rev == s.rev && s'.start == s.start && s'.yielded == s.yielded
    requires s'.it == s.it || s'.it == s.it.(failed := true)
    ensures IterInv(s')
  {
    assert Rest(s'.it) == Rest(s.it);
  }

  lemma OtherStepsKeepIter(s: Sys, step: Step, s': Sys)
    requires IterInv(s) && StepBy(s, step, s')
    requires !step.Commit? && !step.Next? && !step.Poll? && !step.ScanEnd?
    ensures IterInv(s')
  {
    UnrelatedKeepsIter(s, s');
  }

  lemma StepKeepsIter(s: Sys, step: Step, s': Sys)
    requires CachedInv(s) && IterInv(s) && FaithfulNow(s) && StepBy(s, step, s')
    ensures IterInv(s')
  {
    hide CachedInv;
    hide IterInv;
    match step {
      case Commit(batch, rev) => CommitKeepsIter(s, batch, rev, s');
      case Next => NextKeepsIter(s, s');
      case Poll => PollKeepsIter(s, s');
      case ScanEnd(p) => CachedLog(s); ScanEndKeepsIter(s, p, s');
      case _ => OtherStepsKeepIter(s, step, s');
    }
  }

  lemma CachedLog(s: Sys)
    requires CachedInv(s)
    ensures LogInv(s.v, s.rev)
  {
  }

  /** Exactly-once iteration: in every run whose ring answers the query's labels
      faithfully, what Next delivered so far is exactly the matching log states in
      (start, cursor], in revision order, each once. */
  lemma {:induction false} ExactlyOnce(t: seq<Sys>, n: nat)
    requires Run(t) && n < |t|
    requires forall i | 0 <= i < n :: FaithfulNow(t[i])
    ensures IterInv(t[n])
    ensures t[n].yielded == Keys(Select(t[n].v, t[n].it.q, t[n].start, t[n].it.sinceRev))
  {
    if n == 0 {
      SelectEmpty(t[0].v, t[0].it.q, t[0].start, t[0].start);
    } else {
      ExactlyOnce(t, n - 1);
      WindowNeverHoles(t, n - 1);
      assert Steps(t[n - 1], t[n]);
      var step :| StepBy(t[n - 1], step, t[n]);
      StepKeepsIter(t[n - 1], step, t[n]);
    }
  }

  /** Delivered revisions ascend strictly, so none is delivered twice. */
  lemma DeliveredAscends(t: seq<Sys>, n: nat)
    requires Run(t) && n < |t|
    requires forall i | 0 <= i < n :: FaithfulNow(t[i])
    ensures var y := t[n].yielded; forall i, j | 0 <= i < j < |y| :: y[i].1 < y[j].1
  {
    ExactlyOnce(t, n);
    WindowNeverHoles(t, n);
    SelectOrdered(t[n].v, t[n].it.q, t[n].start, t[n].it.sinceRev);
  }

  /** A poll answered by the driver comes back empty only if nothing matched past
      the cursor when it started. */
  lemma PollFindsMatch(s: Sys, p: Page, s': Sys, i: nat)
    requires CachedInv(s) && IterInv(s) && ScanEndStep(s, p, s') && s.pc.polling
    requires i < |s.v| && s.it.sinceRev < s.v[i].rev <= s.pc.until && DriverMatches(s.v[i], s.it.q)
    ensures Rest(s'.it) != [] && Rest(s'.it)[0].rev <= s.v[i].rev
  {
    ScanIsFresh(s, p);
    var q, since := s.it.q, s.it.sinceRev;
    SelectMembers(s.v, q, since, s.pc.until);
    assert s.v[i] in Select(s.v, q, since, s.pc.until);
    var hi :| PageUpTo(s.v, q, since, s.it.limit, s.pc.until, p, hi);
    SelectMembers(s.v, q, since, hi);
    SelectOrdered(s.v, q, since, hi);
    assert Rest(s'.it) == p.states;
    if s.v[i].rev <= hi {
      assert s.v[i] in p.states;
      var k :| 0 <= k < |p.states| && p.states[k] == s.v[i];
    } else {
      assert p.states[0] in p.states;
    }
  }

  // --------------------------------------------------- when answers are faithful

  lemma CacheAppendKeepsRing(c: Cache, v: seq<State>, batch: seq<State>, c': Cache, keys: set<Text>)
    requires CacheInv(c, v) && SlotInv(c, v, keys)
    requires (forall x | x in batch :: x in v) && CommitAppended(c, batch, c')
    ensures SlotInv(c', v, keys) && Later(c, c')
  {
    var buf :| multiset(buf) == multiset(Buffered(c, batch)) && SortedByRev(buf) && c' == Drain(c, buf);
    BufferedInLog(c, v, batch);
    SamePermutationMembers(buf, Buffered(c, batch));
    DrainSlots(c, v, keys, buf);
  }

  lemma HeadApplyKeepsRing(s: Sys, s': Sys, keys: set<Text>)
    requires HeadInv(s) && SlotInv(s.cache, s.v, keys) && HeadApplyStep(s, s')
    ensures SlotInv(s'.cache, s.v, keys) && Later(s.cache, s'.cache)
  {
    if s.head.HeadLatest? {
      if s.cache.maxRev == 0 || s.cache.maxRev + 1 == s.head.s.rev {
        AppendSlots(s.cache, s.v, keys, s.head.s);
      }
    } else {
      var hi :| hi <= s.rev && s.head.page == Select(s.v, [], s.head.m, hi);
      SelectMembers(s.v, [], s.head.m, hi);
      FoldSlots(s.cache.(committed := []), s.v, keys, s.head.page);
    }
  }

  lemma StepKeepsRing(s: Sys, step: Step, s': Sys, keys: set<Text>)
    requires CachedInv(s) && SlotInv(s.cache, s.v, keys) && StepBy(s, step, s')
    ensures SlotInv(s'.cache, s'.v, keys)
    ensures Later(s.cache, s'.cache) && s.v <= s'.v && s'.it.q == s.it.q
  {
    hide CacheInv;
    hide SlotInv;
    match step {
      case Commit(batch, _) => GrowSlots(s.cache, s.v, keys, batch);
      case CacheAppend(batch) => CacheAppendKeepsRing(s.cache, s.v, batch, s'.cache, keys);
      case HeadApply => HeadApplyKeepsRing(s, s', keys);
      case _ =>
    }
  }

  lemma RingStarts(s: Sys, keys: set<Text>)
    requires Start(s)
    ensures SlotInv(s.cache, s.v, keys)
  {
  }

  lemma AnyStepKeepsRing(s: Sys, s': Sys, keys: set<Text>)
    requires CachedInv(s) && SlotInv(s.cache, s.v, keys) && Steps(s, s')
    ensures SlotInv(s'.cache, s'.v, keys)
    ensures Later(s.cache, s'.cache) && s.v <= s'.v && s'.it.q == s.it.q
  {
    hide CachedInv, SlotInv, StepBy, Later;
    var step :| StepBy(s, step, s');
    StepKeepsRing(s, step, s', keys);
  }

  lemma {:induction false} RingAlways(t: seq<Sys>, n: nat, keys: set<Text>)
    requires Run(t) && n < |t|
    ensures SlotInv(t[n].cache, t[n].v, keys)
    ensures forall i | 0 <= i <= n :: Later(t[i].cache, t[n].cache) && t[i].v <= t[n].v && t[i].it.q == t[n].it.q
  {
    if n == 0 {
      RingStarts(t[0], keys);
      hide SlotInv, Start, Steps;
    } else {
      hide SlotInv, CachedInv, Steps, Start;
      RingAlways(t, n - 1, keys);
      WindowNeverHoles(t, n - 1);
      AnyStepKeepsRing(t[n - 1], t[n], keys);
    }
  }

  /** A query without labels is delivered exactly once in every run. */
  lemma ExactlyOnceUnlabelled(t: seq<Sys>, n: nat)
    requires Run(t) && n < |t| && t[n].it.q == []
    ensures t[n].yielded == Keys(Select(t[n].v, [], t[n].start, t[n].it.sinceRev))
  {
    RingAlways(t, n, {});
    forall i | 0 <= i < n ensures FaithfulNow(t[i]) {
      WindowNeverHoles(t, i);
      UnlabelledFaithful(Window(t[i].cache), t[i].v);
    }
    ExactlyOnce(t, n);
  }

  /** So is a labelled query, as long as the ring has not wrapped. */
  lemma ExactlyOnceUnwrapped(t: seq<Sys>, n: nat)
    requires Run(t) && n < |t| && NoEmptySet(t[n].it.q)
    requires t[n].cache.idx <= |t[n].cache.log|
    ensures t[n].yielded == Keys(Select(t[n].v, t[n].it.q, t[n].start, t[n].it.sinceRev))
  {
    RingAlways(t, n, {});
    forall i | 0 <= i < n ensures FaithfulNow(t[i]) {
      WindowNeverHoles(t, i);
      RingAlways(t, i, {});
      UnwrappedFaithful(t[i].cache, t[i].v, t[i].it.q);
    }
    ExactlyOnce(t, n);
  }

  /** And at every wrap position, when all states carry one label-key set. */
  lemma ExactlyOnceUniform(t: seq<Sys>, n: nat, keys: set<Text>)
    requires Run(t) && n < |t| && NoEmptySet(t[n].it.q)
    requires forall x | x in t[n].v :: x.labels.Keys == keys
    ensures t[n].yielded == Keys(Select(t[n].v, t[n].it.q, t[n].start, t[n].it.sinceRev))
  {
    RingAlways(t, n, keys);
    forall i | 0 <= i < n ensures FaithfulNow(t[i]) {
      WindowNeverHoles(t, i);
      RingAlways(t, i, keys);
      UniformFaithful(t[i].cache, t[i].v, keys, t[i].it.q);
    }
    ExactlyOnce(t, n);
  }
}
