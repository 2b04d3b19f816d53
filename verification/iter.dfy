/** The Iter object of iter.go over a cache driver and the driver behind it. */
module IterObject {
  import opened States
  import opened RevLog
  import opened Cache
  import opened CacheProofs
  import opened MemScan
  import opened CacheDriverObject
  import opened MemDriver
  import opened Iteration

  // What Next and Wait rely on between calls: a page lies past the cursor it was
  // asked for, and an empty one promises nothing more.
  predicate PageOK(p: Page, since: int) {
    && (forall i | 0 <= i < |p.states| :: since < p.states[i].rev)
    && (p.states == [] ==> !p.more)
  }

  lemma AnswerIsOK(c: Cache, q: seq<Dict>, since: int, limit: nat, until: int, v: seq<State>, p: Page)
    requires 0 < limit && IsAnswerOf(c, q, since, limit, until, v, p)
    ensures PageOK(p, since)
  {
    if FromLog(c, q, since, limit).Some? {
      FilterMembers(Window(c), q, since);
      var all := Filter(Window(c), q, since);
      forall i | 0 <= i < |p.states| ensures since < p.states[i].rev {
        assert p.states[i] == all[i] && all[i] in all;
      }
    } else {
      var hi :| PageUpTo(v, q, since, limit, until, p, hi);
      SelectMembers(v, q, since, hi);
      forall i | 0 <= i < |p.states| ensures since < p.states[i].rev {
        assert p.states[i] in p.states;
      }
    }
  }

  /** A page from the cache, or from a scan of the log while others commit. */
  ghost predicate IsAnswerOf(c: Cache, q: seq<Dict>, since: int, limit: nat, until: int, v: seq<State>, p: Page) {
    Shape(c) &&
    match FromLog(c, q, since, limit)
    case Some(hit) => p == hit
    case None => IsPage(v, q, since, limit, until, p)
  }

  class LogIter {
    const q: seq<Dict>
    const limit: nat
    const cd: CacheDriver
    const d: Driver
    var sinceRev: int
    var res: Option<Page>
    var resIdx: int

    // The driver behind the cache is the in-memory one, whose queries do not fail.
    ghost function Model(): Iter
      reads this
    {
      Iter(q, limit, sinceRev, res, resIdx, false)
    }

    ghost predicate Valid()
      reads this, cd, cd.log, d, d.stateLog
    {
      && cd.Valid() && d.Valid() && 0 < limit && 0 <= sinceRev && -1 <= resIdx
      && (res.Some? ==> PageOK(res.value, -1))
    }

    constructor (cd: CacheDriver, d: Driver, q: seq<Dict>, limit: nat, sinceRev: int)
      requires cd.Valid() && d.Valid() && 0 < limit && 0 <= sinceRev
      ensures Valid() && this.cd == cd && this.d == d && Model() == NewIter(q, limit, sinceRev)
    {
      this.cd, this.d, this.q, this.limit, this.sinceRev := cd, d, q, limit, sinceRev;
      res, resIdx := None, 0;
    }

    ghost predicate IsAnswer(c: Cache, until: int, v: seq<State>, since: int, p: Page)
      reads this
    {
      IsAnswerOf(c, q, since, limit, until, v, p)
    }

    /** Next: from the page at hand without a query, or with a new page.  When it
        returns true State may be called; when it returns false Wait may be. */
    method Next(others: seq<Batch>) returns (ok: bool)
      requires Valid()
      modifies this, d, d.stateLog
      ensures Valid()
      ensures ok ==> res.Some? && 0 <= resIdx < |res.value.states| && sinceRev == res.value.states[resIdx].rev
      ensures !ok ==> res.Some? && !res.value.more && sinceRev == old(sinceRev)
      ensures !NeedsPage(old(Model())) ==> Model() == NextLocal(old(Model())) && ok == (Rest(old(Model())) != [])
      ensures NeedsPage(old(Model())) ==> res.Some? && ok == (res.value.states != [])
      ensures NeedsPage(old(Model())) ==>
                && Model() == Iteration.TakePage(old(Model()), res.value)
                && IsAnswer(cd.Model(), old(d.stateLog.rev), d.stateLog.V(), old(sinceRev), res.value)
    {
      if res == None {
        ok := More(others);
        return;
      }
      if |res.value.states| == 0 {
        return false;
      }
      resIdx := resIdx + 1;
      if resIdx >= |res.value.states| {
        if res.value.more {
          ok := More(others);
          return;
        }
        return false;
      }
      sinceRev := res.value.states[resIdx].rev;
      return true;
    }

    method More(others: seq<Batch>) returns (ok: bool)
      requires Valid()
      modifies this, d, d.stateLog
      ensures Valid() && resIdx == 0 && res.Some? && PageOK(res.value, old(sinceRev))
      ensures ok == (res.value.states != [])
      ensures sinceRev == if ok then res.value.states[0].rev else old(sinceRev)
      ensures IsAnswer(cd.Model(), old(d.stateLog.rev), d.stateLog.V(), old(sinceRev), res.value)
    {
      ghost var until := d.stateLog.rev;
      var _, _, hit := cd.GetStatesFromLog(q, sinceRev, false, false, limit);
      var page := if hit.Some? then hit.value else Page([], false);
      if hit.None? {
        page := Scan(others);
      }
      AnswerIsOK(cd.Model(), q, sinceRev, limit, until, d.stateLog.V(), page);
      res := Some(page);
      resIdx := 0;
      if |page.states| == 0 {
        return false;
      }
      sinceRev := page.states[0].rev;
      return true;
    }

    // The driver's own GetStates, past the cache.
    method Scan(others: seq<Batch>) returns (p: Page)
      requires Valid()
      modifies d, d.stateLog
      ensures Valid() && IsPage(d.stateLog.V(), q, sinceRev, limit, old(d.stateLog.rev), p)
    {
      ghost var until := d.stateLog.rev;
      p := d.GetStates(q, sinceRev, limit, false, others);
      AnsweredIsPage(d.stateLog.V(), q, sinceRev, limit, until, false, p);
    }

    /** One round of Wait: true when there are states to deliver; otherwise the
        cursor has moved to where the cache or the scan found nothing. */
    method GetStates(others: seq<Batch>) returns (ok: bool)
      requires Valid()
      modifies this, d, d.stateLog
      ensures Valid()
      ensures ok ==> res.Some? && resIdx == -1 && res.value.states != []
      ensures match old(FromLog(cd.Model(), q, sinceRev, limit))
              case Some(p) => Model() == PollHit(old(Model()), p, cd.maxRev) && ok == (p.states != [])
              case None =>
                exists p :: IsPage(d.stateLog.V(), q, old(sinceRev), limit, old(d.stateLog.rev), p)
                            && Model() == PollScan(old(Model()), p, cd.minRev) && ok == (p.states != [])
    {
      var minRev, maxRev, hit := cd.GetStatesFromLog(q, sinceRev, false, false, limit);
      if hit.Some? {
        AnswerIsOK(cd.Model(), q, sinceRev, limit, 0, [], hit.value);
        if |hit.value.states| > 0 {
          res, resIdx := hit, -1;
          return true;
        }
        sinceRev := maxRev;
        return false;
      }
      ghost var until := d.stateLog.rev;
      var page := Scan(others);
      AnswerIsOK(cd.Model(), q, sinceRev, limit, until, d.stateLog.V(), page);
      if |page.states| > 0 {
        res, resIdx := Some(page), -1;
        return true;
      }
      if sinceRev < minRev {
        sinceRev := minRev;
      }
      return false;
    }
  }
}
