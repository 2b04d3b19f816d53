/** What it means that Next returned false: the page promised nothing more, and
    everything the last query covered has been delivered. */
module CacheDrain {
  import opened States
  import opened RevLog
  import opened Cache
  import opened CacheProofs
  import opened CacheSlots
  import opened Iteration
  import opened CacheSystem

  ghost predicate InRest(it: Iter, rev: int) {
    exists k :: 0 <= k < |Rest(it)| && Rest(it)[k].rev == rev
  }

  // How far the iterator's last query looked.
  function Reach(s: Sys): int {
    match s.last
    case Nowhere => 0
    case RingTo(rev) => rev
    case ScanTo(rev, _) => rev
  }

  // The driver's page was cut at the limit, which is when More may be falsely false.
  predicate CutShort(s: Sys) {
    s.last.ScanTo? && s.last.full
  }

  /** Every match past the cursor that the query covered waits in the page. */
  ghost predicate Waiting(s: Sys) {
    forall i {:trigger s.v[i]} | 0 <= i < |s.v| && Hit(s.v[i], s.it.q, s.it.sinceRev, Reach(s)) :: InRest(s.it, s.v[i].rev)
  }

  ghost predicate DrainInv(s: Sys) {
    && (s.last == Nowhere <==> s.it.res.None?) && Reach(s) <= s.rev
    && (CutShort(s) ==> s.it.res.Some? && |s.it.res.value.states| == s.it.limit)
    && (s.it.res.Some? ==>
          && (s.it.res.value.states == [] ==> !s.it.res.value.more)
          && (!s.it.res.value.more && !CutShort(s) ==> Waiting(s)))
  }

  // ------------------------------------------------------------- what a query covers

  // The page holds every match past `since` up to `to`.
  ghost predicate HoldsAll(v: seq<State>, q: seq<Dict>, since: int, to: int, states: seq<State>) {
    forall i {:trigger v[i]} | 0 <= i < |v| && Hit(v[i], q, since, to) :: Holds(states, v[i].rev)
  }

  lemma SelectHoldsAll(v: seq<State>, q: seq<Dict>, since: int, to: int, hi: int, states: seq<State>)
    requires SameKeys(states, Select(v, q, since, hi)) && to <= hi
    ensures HoldsAll(v, q, since, to, states)
  {
    var all := Select(v, q, since, hi);
    SelectMembers(v, q, since, hi);
    forall i | 0 <= i < |v| && Hit(v[i], q, since, to) ensures Holds(states, v[i].rev) {
      assert v[i] in all;
      var k :| 0 <= k < |all| && all[k] == v[i];
      assert states[k].rev == v[i].rev;
    }
  }

  lemma HitCovers(s: Sys)
    requires CachedInv(s) && FaithfulNow(s) && 0 < s.it.limit
    requires FromLog(s.cache, s.it.q, s.it.sinceRev, s.it.limit).Some?
    ensures var p := FromLog(s.cache, s.it.q, s.it.sinceRev, s.it.limit).value;
            !p.more ==> HoldsAll(s.v, s.it.q, s.it.sinceRev, s.cache.maxRev, p.states)
    ensures var p := FromLog(s.cache, s.it.q, s.it.sinceRev, s.it.limit).value; p.states == [] ==> !p.more
  {
    AnswerRefines(s.cache, s.v, s.it.q, s.it.sinceRev, s.it.limit);
    var p := FromLog(s.cache, s.it.q, s.it.sinceRev, s.it.limit).value;
    var all := Select(s.v, s.it.q, s.it.sinceRev, s.cache.maxRev);
    if !p.more {
      assert all[..|all|] == all;
      SelectHoldsAll(s.v, s.it.q, s.it.sinceRev, s.cache.maxRev, s.cache.maxRev, p.states);
    }
  }

  lemma ScanCovers(v: seq<State>, q: seq<Dict>, since: int, limit: int, until: int, p: Page)
    requires 0 < limit && IsPage(v, q, since, limit, until, p)
    ensures |p.states| != limit ==> HoldsAll(v, q, since, until, p.states)
    ensures p.states == [] ==> !p.more
  {
    var hi :| PageUpTo(v, q, since, limit, until, p, hi);
    if |p.states| != limit {
      SelectHoldsAll(v, q, since, until, hi, p.states);
    }
  }

  // ------------------------------------------------------------- every step

  lemma CommitKeepsDrain(s: Sys, batch: seq<State>, rev: int, s': Sys)
    requires CachedInv(s) && DrainInv(s) && CommitStep(s, batch, rev, s')
    ensures DrainInv(s')
  {
    assert Rest(s'.it) == Rest(s.it);
    forall i | 0 <= i < |s'.v| && Hit(s'.v[i], s'.it.q, s'.it.sinceRev, Reach(s')) && Waiting(s)
      ensures InRest(s'.it, s'.v[i].rev)
    {
      assert i < |s.v| && s'.v[i] == s.v[i];
      assert InRest(s.it, s.v[i].rev);
    }
  }

  lemma TakeKeepsDrain(s: Sys, p: Page, s': Sys)
    requires LogInv(s.v, s.rev) && s'.last != Nowhere && Reach(s') <= s.rev && (p.states == [] ==> !p.more)
    requires FreshPage(s.v, s.rev, s.it.q, s.it.sinceRev, p.states)
    requires !p.more && !CutShort(s') ==> HoldsAll(s.v, s.it.q, s.it.sinceRev, Reach(s'), p.states)
    requires CutShort(s') ==> |p.states| == s.it.limit
    requires s' == s.(pc := Idle, it := TakePage(s.it, p), last := s'.last, yielded := s'.yielded)
    ensures DrainInv(s')
  {
    if !p.more && !CutShort(s') {
      forall i | 0 <= i < |s'.v| && Hit(s'.v[i], s'.it.q, s'.it.sinceRev, Reach(s')) ensures InRest(s'.it, s'.v[i].rev) {
        assert Hit(s.v[i], s.it.q, s.it.sinceRev, Reach(s')) by { FirstIsPast(s, p); }
        assert Holds(p.states, s.v[i].rev);
        var k :| 0 <= k < |p.states| && p.states[k].rev == s.v[i].rev;
        assert Rest(s'.it) == p.states[1..];
        assert Rest(s'.it)[k - 1].rev == s.v[i].rev;
      }
    }
  }

  lemma FirstIsPast(s: Sys, p: Page)
    requires FreshPage(s.v, s.rev, s.it.q, s.it.sinceRev, p.states)
    ensures p.states != [] ==> s.it.sinceRev < p.states[0].rev
  {
    if p.states != [] {
      var all := Select(s.v, s.it.q, s.it.sinceRev, p.states[|p.states| - 1].rev);
      SelectMembers(s.v, s.it.q, s.it.sinceRev, p.states[|p.states| - 1].rev);
      assert all[0] in all;
    }
  }

  lemma LoadKeepsDrain(s: Sys, p: Page, s': Sys)
    requires s'.last != Nowhere && Reach(s') <= s.rev && p.states != []
    requires !p.more && !CutShort(s') ==> HoldsAll(s.v, s.it.q, s.it.sinceRev, Reach(s'), p.states)
    requires CutShort(s') ==> |p.states| == s.it.limit
    requires s' == s.(pc := Idle, it := s.it.(res := Some(p), resIdx := -1), last := s'.last)
    ensures DrainInv(s')
  {
    assert Rest(s'.it) == p.states;
    if !p.more && !CutShort(s') {
      forall i | 0 <= i < |s'.v| && Hit(s'.v[i], s'.it.q, s'.it.sinceRev, Reach(s')) ensures InRest(s'.it, s'.v[i].rev) {
        assert Holds(p.states, s.v[i].rev);
      }
    }
  }

  // A poll that found nothing leaves the page, which then has nothing to hold.
  lemma JumpKeepsDrain(s: Sys, to: int, s': Sys)
    requires DrainInv(s) && s.it.res.Some? && s'.last != Nowhere && Reach(s') <= s.rev && s.it.sinceRev <= to
    requires HoldsAll(s.v, s.it.q, s.it.sinceRev, Reach(s'), []) && !CutShort(s')
    requires s' == s.(pc := Idle, it := s.it.(sinceRev := to), last := s'.last)
    ensures DrainInv(s')
  {
    NothingHit(s.v, s.it.q, s.it.sinceRev, Reach(s'));
  }

  lemma NothingHit(v: seq<State>, q: seq<Dict>, since: int, to: int)
    requires HoldsAll(v, q, since, to, [])
    ensures forall i | 0 <= i < |v| :: !Hit(v[i], q, since, to)
  {
  }

  lemma {:induction false} NothingSelected(v: seq<State>, q: seq<Dict>, since: int, to: int)
    requires forall i | 0 <= i < |v| :: !Hit(v[i], q, since, to)
    ensures Select(v, q, since, to) == []
  {
    if v != [] {
      NothingSelected(v[..|v| - 1], q, since, to);
    }
  }

  lemma LocalKeepsDrain(s: Sys, s': Sys)
    requires IterInv(s) && DrainInv(s) && !NeedsPage(s.it)
    requires s' == s.(it := NextLocal(s.it), yielded := s'.yielded)
    ensures DrainInv(s')
  {
    var r := Rest(s.it);
    if !s.it.failed && r != [] {
      assert r[0] == s.it.res.value.states[s.it.resIdx + 1];
      assert Rest(s'.it) == r[1..];
      if Waiting(s) && s.it.sinceRev < r[0].rev {
        forall i | 0 <= i < |s'.v| && Hit(s'.v[i], s'.it.q, s'.it.sinceRev, Reach(s')) ensures InRest(s'.it, s'.v[i].rev) {
          assert InRest(s.it, s.v[i].rev);
          var k :| 0 <= k < |r| && r[k].rev == s.v[i].rev;
          assert Rest(s'.it)[k - 1].rev == s.v[i].rev;
        }
      }
      PendingIsPast(s);
    } else {
      assert Rest(s'.it) == r;
    }
  }

  lemma PendingIsPast(s: Sys)
    requires PendingInv(s) && Rest(s.it) != []
    ensures s.it.sinceRev < Rest(s.it)[0].rev
  {
    var r := Rest(s.it);
    var all := Select(s.v, s.it.q, s.it.sinceRev, r[|r| - 1].rev);
    SelectMembers(s.v, s.it.q, s.it.sinceRev, r[|r| - 1].rev);
    assert all[0] in all;
  }

  lemma NextKeepsDrain(s: Sys, s': Sys)
    requires CachedInv(s) && IterInv(s) && FaithfulNow(s) && DrainInv(s) && NextStep(s, s')
    ensures DrainInv(s')
  {
    if !NeedsPage(s.it) {
      LocalKeepsDrain(s, s');
    } else if FromLog(s.cache, s.it.q, s.it.sinceRev, s.it.limit).Some? {
      HitCovers(s);
      HitIsFresh(s);
      TakeKeepsDrain(s, FromLog(s.cache, s.it.q, s.it.sinceRev, s.it.limit).value, s');
    }
  }

  lemma PollKeepsDrain(s: Sys, s': Sys)
    requires CachedInv(s) && IterInv(s) && FaithfulNow(s) && DrainInv(s) && PollStep(s, s')
    ensures DrainInv(s')
  {
    if FromLog(s.cache, s.it.q, s.it.sinceRev, s.it.limit).Some? {
      var p := FromLog(s.cache, s.it.q, s.it.sinceRev, s.it.limit).value;
      HitCovers(s);
      HitIsFresh(s);
      if p.states != [] {
        LoadKeepsDrain(s, p, s');
      } else {
        JumpKeepsDrain(s, s.cache.maxRev, s');
      }
    }
  }

  lemma ScanEndKeepsDrain(s: Sys, p: Page, s': Sys)
    requires LogInv(s.v, s.rev) && IterInv(s) && DrainInv(s) && ScanEndStep(s, p, s')
    requires s.pc.polling ==> s.it.res.Some?
    ensures DrainInv(s')
  {
    ScanCovers(s.v, s.it.q, s.it.sinceRev, s.it.limit, s.pc.until, p);
    ScanIsFresh(s, p);
    if !s.pc.polling {
      TakeKeepsDrain(s, p, s');
    } else if p.states != [] {
      LoadKeepsDrain(s, p, s');
    } else {
      JumpKeepsDrain(s, s'.it.sinceRev, s');
    }
  }

  // Only Wait polls, and Wait needs a page.
  ghost predicate PollsHavePage(s: Sys) {
    (s.pc.Missed? && s.pc.polling) || (s.pc.Scanning? && s.pc.polling) ==> s.it.res.Some?
  }

  lemma OtherStepsKeepDrain(s: Sys, step: Step, s': Sys)
    requires DrainInv(s) && StepBy(s, step, s')
    requires !step.Commit? && !step.Next? && !step.Poll? && !step.ScanEnd?
    ensures DrainInv(s')
  {
    assert s'.it == s.it || s'.it == s.it.(failed := true);
    assert Rest(s'.it) == Rest(s.it);
    if Waiting(s) {
      forall i | 0 <= i < |s'.v| && Hit(s'.v[i], s'.it.q, s'.it.sinceRev, Reach(s')) ensures InRest(s'.it, s'.v[i].rev) {
        assert InRest(s.it, s.v[i].rev);
      }
    }
  }

  lemma StepKeepsDrain(s: Sys, step: Step, s': Sys)
    requires CachedInv(s) && IterInv(s) && FaithfulNow(s) && DrainInv(s) && PollsHavePage(s) && StepBy(s, step, s')
    ensures DrainInv(s')
  {
    hide CachedInv;
    hide IterInv, DrainInv;
    match step {
      case Commit(batch, rev) => CommitKeepsDrain(s, batch, rev, s');
      case Next => NextKeepsDrain(s, s');
      case Poll => PollKeepsDrain(s, s');
      case ScanEnd(p) => CachedLog(s); ScanEndKeepsDrain(s, p, s');
      case _ => OtherStepsKeepDrain(s, step, s');
    }
  }

  lemma StepKeepsPolls(s: Sys, step: Step, s': Sys)
    requires PollsHavePage(s) && StepBy(s, step, s')
    ensures PollsHavePage(s')
  {
  }

  lemma StartDrained(s: Sys)
    requires Start(s)
    ensures DrainInv(s) && PollsHavePage(s)
  {
  }

  lemma AnyStepKeepsDrain(s: Sys, s': Sys)
    requires CachedInv(s) && IterInv(s) && FaithfulNow(s) && DrainInv(s) && PollsHavePage(s) && Steps(s, s')
    ensures DrainInv(s') && PollsHavePage(s')
  {
    hide DrainInv, CachedInv, IterInv, FaithfulNow, PollsHavePage, StepBy;
    var step :| StepBy(s, step, s');
    StepKeepsDrain(s, step, s');
    StepKeepsPolls(s, step, s');
  }

  lemma {:induction false} DrainAlways(t: seq<Sys>, n: nat)
    requires Run(t) && n < |t|
    requires forall i | 0 <= i < n :: FaithfulNow(t[i])
    ensures DrainInv(t[n]) && PollsHavePage(t[n])
  {
    if n == 0 {
      StartDrained(t[0]);
    } else {
      hide DrainInv, CachedInv, IterInv, FaithfulNow, PollsHavePage, Steps, Start;
      DrainAlways(t, n - 1);
      ExactlyOnce(t, n - 1);
      WindowNeverHoles(t, n - 1);
      AnyStepKeepsDrain(t[n - 1], t[n]);
    }
  }

  // ------------------------------------------------------------- when Next returns false

  /** The step ends a call of Next that delivers nothing and meets no error: it
      answered from the page at hand, from the ring, or from the driver's page. */
  ghost predicate NextReturnsFalse(s: Sys, step: Step, s': Sys) {
    && StepBy(s, step, s') && (step.Next? || (step.ScanEnd? && !s.pc.polling))
    && s'.pc == Idle && !s'.it.failed && s'.yielded == s.yielded
  }

  lemma FalseEndsPage(s: Sys, step: Step, s': Sys)
    requires DrainInv(s) && DrainInv(s') && IterInv(s) && NextReturnsFalse(s, step, s')
    ensures s'.it.res.Some? && !s'.it.res.value.more && Rest(s'.it) == []
  {
  }

  lemma NothingWaits(s: Sys)
    requires IterInv(s) && LogInv(s.v, s.rev) && Waiting(s) && Rest(s.it) == []
    ensures s.it.sinceRev <= Reach(s) ==> s.yielded == Keys(Select(s.v, s.it.q, s.start, Reach(s)))
    ensures Reach(s) <= s.it.sinceRev ==> s.yielded == Keys(Select(s.v, s.it.q, s.start, s.it.sinceRev))
  {
    if s.it.sinceRev <= Reach(s) {
      forall i | 0 <= i < |s.v| ensures !Hit(s.v[i], s.it.q, s.it.sinceRev, Reach(s)) {
      }
      NothingSelected(s.v, s.it.q, s.it.sinceRev, Reach(s));
      SelectSplit(s.v, s.it.q, s.start, s.it.sinceRev, Reach(s));
    }
  }

  /** Once Next returns false the page promises nothing more, so Wait may be called,
      and everything up to where the last query looked has been delivered, unless the
      driver cut its page at the limit. */
  lemma FalseMeansDrained(t: seq<Sys>, n: nat, step: Step)
    requires Run(t) && 0 < n < |t| && NextReturnsFalse(t[n - 1], step, t[n])
    requires forall i | 0 <= i < n :: FaithfulNow(t[i])
    ensures t[n].it.res.Some? && !t[n].it.res.value.more && t[n].last != Nowhere
    ensures CutShort(t[n]) ==> |t[n].it.res.value.states| == t[n].it.limit
    ensures var to := if Reach(t[n]) < t[n].it.sinceRev then t[n].it.sinceRev else Reach(t[n]);
            CutShort(t[n]) || t[n].yielded == Keys(Select(t[n].v, t[n].it.q, t[n].start, to))
  {
    DrainAlways(t, n - 1);
    DrainAlways(t, n);
    ExactlyOnce(t, n - 1);
    ExactlyOnce(t, n);
    WindowNeverHoles(t, n);
    FalseEndsPage(t[n - 1], step, t[n]);
    if !CutShort(t[n]) {
      NothingWaits(t[n]);
    }
  }

  /** A log that has stopped growing is drained: when the last query looked past all
      of it, nothing that matches is left undelivered. */
  lemma QuietLogIsDrained(t: seq<Sys>, n: nat, step: Step)
    requires Run(t) && 0 < n < |t| && NextReturnsFalse(t[n - 1], step, t[n])
    requires forall i | 0 <= i < n :: FaithfulNow(t[i])
    requires forall x | x in t[n].v :: x.rev <= Reach(t[n])
    ensures CutShort(t[n]) || forall i | 0 <= i < |t[n].v| && t[n].start < t[n].v[i].rev && DriverMatches(t[n].v[i], t[n].it.q) ::
              (t[n].v[i].id, t[n].v[i].rev) in t[n].yielded
  {
    FalseMeansDrained(t, n, step);
    var s := t[n];
    var to := if Reach(s) < s.it.sinceRev then s.it.sinceRev else Reach(s);
    var all := Select(s.v, s.it.q, s.start, to);
    SelectMembers(s.v, s.it.q, s.start, to);
    if !CutShort(s) {
      forall i | 0 <= i < |s.v| && s.start < s.v[i].rev && DriverMatches(s.v[i], s.it.q) ensures (s.v[i].id, s.v[i].rev) in s.yielded {
        assert s.v[i] in s.v && s.v[i] in all;
        var k :| 0 <= k < |all| && all[k] == s.v[i];
        assert Keys(all)[k] == (s.v[i].id, s.v[i].rev);
      }
    }
  }

  lemma LoadedRest(it: Iter, p: Page)
    ensures Rest(it.(res := Some(p), resIdx := -1)) == p.states
  {
  }

  // The first states of an answer begin at or before any match it covers.
  lemma FirstIsAtOrBefore(v: seq<State>, q: seq<Dict>, since: int, to: int, n: nat, states: seq<State>, i: nat)
    requires Ordered(v) && 0 < n <= |Select(v, q, since, to)| && SameKeys(states, Select(v, q, since, to)[..n])
    requires i < |v| && Hit(v[i], q, since, to)
    ensures states != [] && states[0].rev <= v[i].rev
  {
    var all := Select(v, q, since, to);
    SelectMembers(v, q, since, to);
    SelectOrdered(v, q, since, to);
    assert v[i] in all;
    var k :| 0 <= k < |all| && all[k] == v[i];
  }

  lemma MatchIsSelected(v: seq<State>, q: seq<Dict>, since: int, to: int, i: nat)
    requires i < |v| && Hit(v[i], q, since, to)
    ensures Select(v, q, since, to) != []
  {
    SelectMembers(v, q, since, to);
    assert v[i] in Select(v, q, since, to);
  }

  /** A poll the ring answers finds the matches it holds past the cursor. */
  lemma HitFindsMatch(s: Sys, s': Sys, i: nat)
    requires CachedInv(s) && IterInv(s) && FaithfulNow(s) && PollStep(s, s') && s'.pc == Idle
    requires i < |s.v| && s.it.sinceRev < s.v[i].rev <= s.cache.maxRev && DriverMatches(s.v[i], s.it.q)
    ensures Rest(s'.it) != [] && Rest(s'.it)[0].rev <= s.v[i].rev && s'.it.sinceRev == s.it.sinceRev
  {
    var q, since, to := s.it.q, s.it.sinceRev, s.cache.maxRev;
    var p, all := FromLog(s.cache, q, since, s.it.limit).value, Select(s.v, q, since, to);
    AnswerRefines(s.cache, s.v, q, since, s.it.limit);
    MatchIsSelected(s.v, q, since, to, i);
    hide Select, SameKeys, CacheInv, Faithful, FromLog, Rest, Delivery, PendingInv, ScanInv, HeadInv;
    FirstIsAtOrBefore(s.v, q, since, to, if 0 < s.it.limit < |all| then s.it.limit else |all|, p.states, i);
    LoadedRest(s.it, p);
  }

  /** A poll that finds nothing still moves the cursor: to maxRev when the ring answered. */
  lemma EmptyHitMoves(s: Sys, s': Sys)
    requires CachedInv(s) && PollStep(s, s') && s'.pc == Idle && Rest(s'.it) == []
    ensures s'.it.sinceRev == s.cache.maxRev > s.it.sinceRev
  {
    LoadedRest(s.it, FromLog(s.cache, s.it.q, s.it.sinceRev, s.it.limit).value);
  }

  /** And up to its minRev when the driver did. */
  lemma EmptyScanMoves(s: Sys, p: Page, s': Sys)
    requires ScanEndStep(s, p, s') && s.pc.polling && Rest(s'.it) == []
    ensures s'.it.sinceRev == if s.it.sinceRev < s.pc.minRev then s.pc.minRev else s.it.sinceRev
  {
    LoadedRest(s.it, p);
  }
}
