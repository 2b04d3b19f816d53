/** Recoverers at work on one log, with everybody else committing to it: any
    number of them, taking over, retrying, checkpointing, crashing and restarting. */
module RecoverySystem {
  import opened States
  import opened RevLog
  import opened MemLog
  import opened Recovery

  datatype Sys = Sys(log: seq<State>, recs: map<nat, Rec>)

  // ------------------------------------------------------------- retries

  // The state doRetry commits for an attempt: the same transition, the attempt counted in it.
  ghost predicate IsRetried(s: State, s': State) {
    && s'.id == s.id && s'.annotations == s.annotations && s'.transition.to == s.transition.to
    && Attempt(s') == Attempt(s) + 1
  }

  ghost predicate IsGivenUp(s: State, s': State) {
    s'.id == s.id && s'.annotations == s.annotations && Parked(s')
  }

  ghost predicate RetryOf(s: State, s': State) {
    if Attempt(s) + 1 > MaxAttempts(s) then IsGivenUp(s, s') else IsRetried(s, s')
  }

  // ------------------------------------------------------------- steps

  /** Other: a commit by anybody on another state.  Start: a new recoverer that
      finds the META state at index m; StartFresh: one that found none.  Each of
      the rest is one recoverer's. */
  datatype Step =
    | Other(s: State)
    | Start(i: nat, m: nat)
    | StartFresh(i: nat, rev: int, now: int)
    | Head(i: nat, a: nat, page: seq<State>)
    | Idle(i: nat)
    | Take(i: nat, ids: set<Text>, taken: seq<State>)
    | Retry(i: nat, s: State)
    | Fail(i: nat)
    | Tail(i: nat, tail: int)
    | Checkpoint(i: nat, rev: int, now: int)
    | Takeover(i: nat, rev: int, now: int)
    | Shutdown(i: nat, rev: int, now: int)
    | Crash(i: nat)

  function Put(x: Sys, i: nat, r: Rec): Sys {
    x.(recs := x.recs[i := r])
  }

  function Drop(x: Sys, i: nat): Sys {
    x.(recs := map j | j in x.recs && j != i :: x.recs[j])
  }

  function Append(x: Sys, s: State): Sys {
    x.(log := x.log + [s])
  }

  // The driver accepts a commit that names the latest revision.
  predicate Accepts(log: seq<State>, id: Text, rev: int) {
    LatestRev(log, id) == rev
  }

  /** The test doUpdateTail makes before a checkpoint, whatever the time is. */
  predicate Due(r: Rec) {
    r.tailRev > r.metaSince + 1000 || NextSince(r.tailRev) > r.metaSince
  }

  /** The shutdowns whose checkpoint cannot pass unfinished work, told from the
      recoverer's own fields: it is active, or its checkpoint would not go past the
      one it knows of, or only onto the revision of the META state itself. */
  predicate HarmlessShutdown(r: Rec) {
    || r.active
    || NextSince(r.tailRev) <= r.metaSince
    || NextSince(r.tailRev) == r.metaSince + 1 == r.metaRev
  }

  /** What a step must not do to keep work: read a state as disabled that is not,
      lose unfinished work to a failing commit, shut down a standby that is ahead of
      its checkpoint; and to keep counts: misread an attempt count or its bound. */
  ghost predicate KeptStep(x: Sys, step: Step, kept: Kept) {
    match step
    case Head(_, a, page) => a + |page| <= |x.log| && KeepsRead(page, x.log, a, kept)
    case Fail(i) => kept.work && i in x.recs ==> NothingDue(x.log, x.recs[i])
    case Shutdown(i, _, _) => kept.work && i in x.recs ==> HarmlessShutdown(x.recs[i])
    case _ => true
  }

  ghost predicate StepBy(x: Sys, step: Step, x': Sys) {
    match step
    case Other(s) => s.id != META && LastRev(x.log) < s.rev && x' == Append(x, s)
    case Start(i, m) =>
      && i !in x.recs && IsMeta(x.log, m)
      && x' == Put(x, i, Reset(x.log[m].rev, Since(x.log[m]), Tag(x.log[m]) != "active"))
    case StartFresh(i, rev, now) =>
      && i !in x.recs && LastRev(x.log) < rev
      && x' == if Accepts(x.log, META, 0) then Put(Append(x, MetaState(rev, 0, "active", now)), i, Reset(rev, 0, true))
               else Put(x, i, Reset(0, 0, false))
    case Crash(i) => i in x.recs && x' == Drop(x, i)
    case _ => step.i in x.recs && RecStep(x, step, x.recs[step.i], x')
  }

  ghost predicate RecStep(x: Sys, step: Step, r: Rec, x': Sys)
    requires !step.Other?
  {
    match step
    case Head(i, a, page) =>
      && r.taken == [] && UnreadFrom(x.log, r, a) && PageReads(page, x.log, a)
      && x' == Put(x, i, SeeAll(r, page))
    case Idle(i) => r.states == map[] && r.taken == [] && x' == Put(x, i, r.(tailRev := r.headRev))
    case Take(i, ids, taken) =>
      && r.active && r.taken == [] && Takes(r, ids, taken)
      && x' == Put(x, i, r.(states := r.states - ids, taken := taken))
    case Retry(i, s) =>
      && r.taken != [] && LastRev(x.log) < s.rev && RetryOf(r.taken[0], s)
      && var done := Put(x, i, r.(taken := r.taken[1..]));
         x' == if Accepts(x.log, r.taken[0].id, r.taken[0].rev) then Append(done, s) else done
    case Fail(i) => x' == Put(x, i, Forgets(r))
    case Tail(i, tail) => r.active && r.taken == [] && IsTail(r, tail) && x' == Put(x, i, r.(tailRev := tail))
    case Checkpoint(i, rev, now) =>
      && r.active && r.taken == [] && IsTail(r, r.tailRev) && Due(r) && LastRev(x.log) < rev
      && x' == if Accepts(x.log, META, r.metaRev) then
                 Put(Append(x, MetaState(rev, NextSince(r.tailRev), "active", now)), i,
                     r.(metaRev := rev, metaSince := NextSince(r.tailRev)))
               else Put(x, i, Reset(r.metaRev, r.metaSince, false))
    case Takeover(i, rev, now) =>
      && !r.active && LastRev(x.log) < rev
      && x' == if Accepts(x.log, META, r.metaRev) then
                 Put(Append(x, MetaState(rev, r.metaSince, "active", now)), i, Reset(r.metaRev, r.metaSince, true))
               else Put(x, i, Reset(r.metaRev, r.metaSince, false))
    case Shutdown(i, rev, now) =>
      && r.taken == [] && LastRev(x.log) < rev
      && x' == Drop(if Accepts(x.log, META, r.metaRev) then Append(x, MetaState(rev, NextSince(r.tailRev), "inactive", now)) else x, i)
    case _ => false
  }

  // ------------------------------------------------------------- the invariant

  /** What every run keeps; with `kept`, what runs of kept steps do. */
  ghost predicate Inv(x: Sys, kept: Kept) {
    && LogOK(x.log) && (kept.work ==> Safe(x.log))
    && forall i {:trigger x.recs[i]} | i in x.recs :: RecOK(x.log, x.recs[i], kept)
  }

  lemma PutKeeps(x: Sys, i: nat, r: Rec, kept: Kept)
    requires Inv(x, kept) && RecOK(x.log, r, kept)
    ensures Inv(Put(x, i, r), kept)
  {
    hide LogOK, Safe, RecOK;
  }

  lemma DropKeeps(x: Sys, i: nat, kept: Kept)
    requires Inv(x, kept)
    ensures Inv(Drop(x, i), kept)
  {
    hide LogOK, Safe, RecOK;
  }

  lemma AppendKeeps(x: Sys, s: State, kept: Kept)
    requires Inv(x, kept) && LastRev(x.log) < s.rev
    requires s.id == META ==> CarriesSince(s) && (kept.work ==> NonePending(x.log, Since(s)))
    ensures Inv(Append(x, s), kept)
  {
    LogGrows(x.log, s);
    if kept.work {
      SafeGrows(x.log, s);
    }
    hide LogOK, Safe, RecOK;
    forall i {:trigger x.recs[i]} | i in x.recs ensures RecOK(x.log + [s], x.recs[i], kept) {
      RecGrows(x.log, s, x.recs[i], kept);
    }
  }

  // A checkpoint written under META.
  lemma MetaKeeps(x: Sys, rev: int, since: int, tag: Text, now: int, kept: Kept)
    requires Inv(x, kept) && LastRev(x.log) < rev && 0 <= since <= LastRev(x.log)
    requires kept.work ==> NonePending(x.log, since)
    ensures Inv(Append(x, MetaState(rev, since, tag, now)), kept)
    ensures Faithful(Append(x, MetaState(rev, since, tag, now)).log, rev, since)
  {
    MetaStateReads(rev, since, tag, now);
    AppendKeeps(x, MetaState(rev, since, tag, now), kept);
    var grown := Append(x, MetaState(rev, since, tag, now)).log;
    assert IsMeta(grown, |x.log|) && grown[|x.log|] == MetaState(rev, since, tag, now);
  }

  lemma FaithfulIsBelow(log: seq<State>, metaRev: int, metaSince: int)
    requires LogOK(log) && Faithful(log, metaRev, metaSince)
    ensures 0 <= metaSince <= LastRev(log)
    ensures if metaRev == 0 then metaSince == 0 else metaSince < metaRev
    ensures Safe(log) ==> NonePending(log, metaSince)
  {
    LastIsGreatest(log);
    if !(metaRev == 0 && metaSince == 0) {
      var m: nat {:trigger IsMeta(log, m)} :| IsMeta(log, m) && log[m].rev == metaRev && Since(log[m]) == metaSince;
    }
  }

  // ------------------------------------------------------------- step by step

  /** The latest entry of an ID is the one the driver accepts a commit on. */
  lemma LastIsAccepted(log: seq<State>, k: nat)
    requires LogInv(log, LastRev(log)) && k < |log| && IsLast(log, k)
    ensures LatestRev(log, log[k].id) == log[k].rev
  {
    LatestRevIsGreatest(log, log[k].id, LastRev(log));
    assert log[k].rev <= LatestRev(log, log[k].id);
    var i :| 0 <= i < |log| && log[i].id == log[k].id && log[i].rev == LatestRev(log, log[k].id);
    assert i <= k;
  }

  // The log entry a copy was read from.
  lemma Origin(log: seq<State>, t: State, counts: bool) returns (i: nat)
    requires LogOK(log) && ReadFrom(log, t, counts)
    ensures i < |log| && Reads(t, log[i]) && (counts ==> SameCounters(t, log[i])) && log[i].id == t.id && log[i].rev == t.rev
    ensures forall k | 0 <= k < |log| && log[k].rev == t.rev :: k == i
  {
    i :| 0 <= i < |log| && Reads(t, log[i]) && (counts ==> SameCounters(t, log[i]));
    ReadsScalars(t, log[i]);
  }

  lemma RejectedIsDone(log: seq<State>, t: State, counts: bool)
    requires LogOK(log) && ReadFrom(log, t, counts) && !Accepts(log, t.id, t.rev)
    ensures NotPending(log, t.rev)
  {
    var i := Origin(log, t, counts);
    forall k: nat {:trigger Pending(log, k)} | Pending(log, k) ensures log[k].rev != t.rev {
      LastIsAccepted(log, k);
    }
  }

  lemma ReplacedIsDone(log: seq<State>, t: State, s: State, counts: bool)
    requires LogOK(log) && ReadFrom(log, t, counts) && s.id == t.id && LastRev(log) < s.rev
    ensures NotPending(log + [s], t.rev)
  {
    LastIsGreatest(log);
    var grown := log + [s];
    var i := Origin(log, t, counts);
    forall k: nat {:trigger Pending(grown, k)} | Pending(grown, k) ensures grown[k].rev != t.rev {
      if k < |log| {
        assert IsLast(grown, k) && grown[|log|].id == s.id;
      }
    }
  }

  lemma RetryKeeps(x: Sys, i: nat, s: State, x': Sys, kept: Kept)
    requires Inv(x, kept) && i in x.recs && RecStep(x, Retry(i, s), x.recs[i], x')
    ensures Inv(x', kept)
  {
    var r := x.recs[i];
    var t, left := r.taken[0], r.(taken := r.taken[1..]);
    assert RecOK(x.log, r, kept) && Retryable(x.log, r.sinceRev, t, kept.counts);
    if Accepts(x.log, t.id, t.rev) {
      AppendKeeps(x, s, kept);
      ReplacedIsDone(x.log, t, s, kept.counts);
      DoneIsOK(x.log + [s], r, kept);
      PutKeeps(Append(x, s), i, left, kept);
    } else {
      RejectedIsDone(x.log, t, kept.counts);
      DoneIsOK(x.log, r, kept);
      PutKeeps(x, i, left, kept);
    }
  }

  lemma CheckpointKeeps(x: Sys, i: nat, rev: int, now: int, x': Sys, kept: Kept)
    requires Inv(x, kept) && i in x.recs && RecStep(x, Checkpoint(i, rev, now), x.recs[i], x')
    ensures Inv(x', kept)
  {
    var r := x.recs[i];
    if Accepts(x.log, META, r.metaRev) {
      var since := NextSince(r.tailRev);
      var meta := MetaState(rev, since, "active", now);
      TailIsBelow(x.log, r, r.tailRev, kept);
      if kept.work {
        NextSinceIsBelow(x.log, r.tailRev);
      }
      MetaKeeps(x, rev, since, "active", now, kept);
      RecGrows(x.log, meta, r, kept);
      hide Holds, CoversAll, Faithful, LogOK, Safe;
      assert RecOK(x.log + [meta], r.(metaRev := rev, metaSince := since), kept) by {
        SameCover(x.log + [meta], r, rev, since, kept);
      }
      PutKeeps(Append(x, meta), i, r.(metaRev := rev, metaSince := since), kept);
    } else {
      ResetIsOK(x.log, r.metaRev, r.metaSince, false, kept);
      PutKeeps(x, i, Reset(r.metaRev, r.metaSince, false), kept);
    }
  }

  lemma SameCover(log: seq<State>, r: Rec, metaRev: int, metaSince: int, kept: Kept)
    requires RecOK(log, r, kept) && Faithful(log, metaRev, metaSince)
    ensures RecOK(log, r.(metaRev := metaRev, metaSince := metaSince), kept)
  {
    var r' := r.(metaRev := metaRev, metaSince := metaSince);
    forall s: State ensures Covered(r, s) == Covered(r', s) {
    }
  }

  lemma TakeoverKeeps(x: Sys, i: nat, rev: int, now: int, x': Sys, kept: Kept)
    requires Inv(x, kept) && i in x.recs && RecStep(x, Takeover(i, rev, now), x.recs[i], x')
    ensures Inv(x', kept)
  {
    var r := x.recs[i];
    FaithfulIsBelow(x.log, r.metaRev, r.metaSince);
    if Accepts(x.log, META, r.metaRev) {
      MetaKeeps(x, rev, r.metaSince, "active", now, kept);
      FaithfulGrows(x.log, MetaState(rev, r.metaSince, "active", now), r.metaRev, r.metaSince);
      var y := Append(x, MetaState(rev, r.metaSince, "active", now));
      ResetIsOK(y.log, r.metaRev, r.metaSince, true, kept);
      PutKeeps(y, i, Reset(r.metaRev, r.metaSince, true), kept);
    } else {
      ResetIsOK(x.log, r.metaRev, r.metaSince, false, kept);
      PutKeeps(x, i, Reset(r.metaRev, r.metaSince, false), kept);
    }
  }

  /** A harmless shutdown's checkpoint reaches no unfinished work. */
  lemma HarmlessIsBelow(log: seq<State>, r: Rec, kept: Kept)
    requires LogOK(log) && Safe(log) && RecOK(log, r, kept) && kept.work && HarmlessShutdown(r) && Accepts(log, META, r.metaRev)
    ensures NonePending(log, NextSince(r.tailRev))
  {
    FaithfulIsBelow(log, r.metaRev, r.metaSince);
    if r.active {
      NextSinceIsBelow(log, r.tailRev);
    } else if r.metaRev > 0 {
      LatestRevIsGreatest(log, META, LastRev(log));
      var m :| 0 <= m < |log| && log[m].id == META && log[m].rev == r.metaRev;
      forall k: nat {:trigger Pending(log, k)} | Pending(log, k) ensures log[k].rev != r.metaRev {
      }
    }
  }

  lemma ShutdownKeeps(x: Sys, i: nat, rev: int, now: int, x': Sys, kept: Kept)
    requires Inv(x, kept) && i in x.recs && RecStep(x, Shutdown(i, rev, now), x.recs[i], x')
    requires kept.work ==> HarmlessShutdown(x.recs[i])
    ensures Inv(x', kept)
  {
    var r := x.recs[i];
    assert RecOK(x.log, r, kept);
    if Accepts(x.log, META, r.metaRev) {
      if kept.work {
        HarmlessIsBelow(x.log, r, kept);
      }
      MetaKeeps(x, rev, NextSince(r.tailRev), "inactive", now, kept);
      DropKeeps(Append(x, MetaState(rev, NextSince(r.tailRev), "inactive", now)), i, kept);
    } else {
      DropKeeps(x, i, kept);
    }
  }

  lemma StartKeeps(x: Sys, step: Step, x': Sys, kept: Kept)
    requires Inv(x, kept) && StepBy(x, step, x') && (step.Start? || step.StartFresh?)
    ensures Inv(x', kept)
  {
    match step {
      case Start(i, m) =>
        ResetIsOK(x.log, x.log[m].rev, Since(x.log[m]), Tag(x.log[m]) != "active", kept);
        PutKeeps(x, i, Reset(x.log[m].rev, Since(x.log[m]), Tag(x.log[m]) != "active"), kept);
      case StartFresh(i, rev, now) =>
        FaithfulIsBelow(x.log, 0, 0);
        if Accepts(x.log, META, 0) {
          MetaKeeps(x, rev, 0, "active", now, kept);
          var y := Append(x, MetaState(rev, 0, "active", now));
          ResetIsOK(y.log, rev, 0, true, kept);
          PutKeeps(y, i, Reset(rev, 0, true), kept);
        } else {
          ResetIsOK(x.log, 0, 0, false, kept);
          PutKeeps(x, i, Reset(0, 0, false), kept);
        }
    }
  }

  lemma StepKeeps(x: Sys, step: Step, x': Sys, kept: Kept)
    requires Inv(x, kept) && StepBy(x, step, x') && KeptStep(x, step, kept)
    ensures Inv(x', kept)
  {
    hide LogOK, Safe, RecOK, Holds, CoversAll, Faithful, RetryOf, UnreadFrom, Takes, IsTail, PageReads, KeepsRead, NothingDue, HarmlessShutdown;
    match step {
      case Other(s) => AppendKeeps(x, s, kept);
      case Start(_, _) => StartKeeps(x, step, x', kept);
      case StartFresh(_, _, _) => StartKeeps(x, step, x', kept);
      case Head(i, a, page) =>
        SeeAllIsOK(x.log, x.recs[i], a, page, kept);
        PutKeeps(x, i, SeeAll(x.recs[i], page), kept);
      case Idle(i) =>
        IdleIsOK(x.log, x.recs[i], kept);
        PutKeeps(x, i, x.recs[i].(tailRev := x.recs[i].headRev), kept);
      case Take(i, ids, taken) =>
        TakeIsOK(x.log, x.recs[i], ids, taken, kept);
        PutKeeps(x, i, x.recs[i].(states := x.recs[i].states - ids, taken := taken), kept);
      case Retry(i, s) => RetryKeeps(x, i, s, x', kept);
      case Fail(i) =>
        FailIsOK(x.log, x.recs[i], kept);
        PutKeeps(x, i, Forgets(x.recs[i]), kept);
      case Tail(i, tail) =>
        TailIsBelow(x.log, x.recs[i], tail, kept);
        PutKeeps(x, i, x.recs[i].(tailRev := tail), kept);
      case Checkpoint(i, rev, now) => CheckpointKeeps(x, i, rev, now, x', kept);
      case Takeover(i, rev, now) => TakeoverKeeps(x, i, rev, now, x', kept);
      case Shutdown(i, rev, now) => ShutdownKeeps(x, i, rev, now, x', kept);
      case Crash(i) => DropKeeps(x, i, kept);
    }
  }

  // ------------------------------------------------------------- pages

  // The first n entries are those up to revision x.
  ghost predicate UpTo(v: seq<State>, x: int, n: nat) {
    n <= |v| && (forall k | 0 <= k < n :: v[k].rev <= x) && forall k | n <= k < |v| :: x < v[k].rev
  }

  lemma {:induction false} BoundaryOf(v: seq<State>, x: int) returns (n: nat)
    requires Ordered(v)
    ensures UpTo(v, x, n)
  {
    n := 0;
    while n < |v| && v[n].rev <= x
      invariant n <= |v| && forall k | 0 <= k < n :: v[k].rev <= x
    {
      n := n + 1;
    }
  }

  /** The pages a driver answers with are what a head step reads: the stretch of
      the log after the cursor, up to where the page ends. */
  lemma {:induction false} PageIsStretch(v: seq<State>, lo: int, hi: int, a: nat, b: nat)
    requires Ordered(v) && UpTo(v, lo, a) && UpTo(v, hi, b) && lo <= hi
    ensures a <= b <= |v| && Select(v, [], lo, hi) == v[a..b]
  {
    if b < |v| {
      assert hi < v[b].rev;
    }
    forall s ensures s in v[a..b] <==> s in v && Hit(s, [], lo, hi) {
      if s in v && Hit(s, [], lo, hi) {
        var k :| 0 <= k < |v| && v[k] == s;
        assert v[a..b][k - a] == s;
      }
    }
    SelectUnique(v, [], lo, hi, v[a..b]);
  }

  // ------------------------------------------------------------- runs

  datatype Run = Run(states: seq<Sys>, steps: seq<Step>)

  ghost predicate IsRun(t: Run) {
    && |t.states| == |t.steps| + 1 && t.states[0] == Sys([], map[])
    && forall i | 0 <= i < |t.steps| :: StepBy(t.states[i], t.steps[i], t.states[i + 1])
  }

  /** Every step of the run keeps what `kept` says. */
  ghost predicate Keeps(t: Run, kept: Kept)
    requires |t.states| == |t.steps| + 1
  {
    forall i | 0 <= i < |t.steps| :: KeptStep(t.states[i], t.steps[i], kept)
  }

  const WORK := Kept(true, false)

  lemma AnyRunKeepsNothing(t: Run)
    requires IsRun(t)
    ensures Keeps(t, NOTHING)
  {
    forall i | 0 <= i < |t.steps| ensures KeptStep(t.states[i], t.steps[i], NOTHING) {
      assert StepBy(t.states[i], t.steps[i], t.states[i + 1]);
    }
  }

  lemma {:induction false} InvAt(t: Run, n: nat, kept: Kept)
    requires IsRun(t) && Keeps(t, kept) && n < |t.states|
    ensures Inv(t.states[n], kept)
  {
    if n > 0 {
      InvAt(t, n - 1, kept);
      StepKeeps(t.states[n - 1], t.steps[n - 1], t.states[n], kept);
    }
  }

  /** Checkpoint safety: at every moment of every such run, unfinished work lies
      past every checkpoint ever persisted. */
  lemma CheckpointSafety(t: Run, n: nat, k: nat, m: nat)
    requires IsRun(t) && Keeps(t, WORK) && n < |t.states| && Pending(t.states[n].log, k) && IsMeta(t.states[n].log, m)
    ensures Since(t.states[n].log[m]) < t.states[n].log[k].rev
  {
    InvAt(t, n, WORK);
  }

  /** So a recoverer that starts again, from whichever checkpoint it finds, has all
      unfinished work still to read. */
  lemma RestartRereads(t: Run, n: nat, k: nat)
    requires IsRun(t) && Keeps(t, WORK) && n < |t.steps| && (t.steps[n].Start? || t.steps[n].StartFresh?)
    requires Pending(t.states[n + 1].log, k)
    ensures t.steps[n].i in t.states[n + 1].recs
    ensures t.states[n + 1].recs[t.steps[n].i].sinceRev < t.states[n + 1].log[k].rev
  {
    InvAt(t, n + 1, WORK);
    assert StepBy(t.states[n], t.steps[n], t.states[n + 1]);
    var x, i := t.states[n + 1], t.steps[n].i;
    assert RecOK(x.log, x.recs[i], WORK);
    FaithfulIsBelow(x.log, x.recs[i].metaRev, x.recs[i].metaSince);
  }

  // The checkpoint in force.
  ghost predicate IsCurrentMeta(log: seq<State>, m: nat) {
    IsMeta(log, m) && IsLast(log, m)
  }

  /** A checkpoint the driver accepts strictly raises the persisted one, in every run. */
  lemma CheckpointRaises(t: Run, n: nat, m: nat)
    requires IsRun(t) && n < |t.steps| && t.steps[n].Checkpoint?
    requires IsCurrentMeta(t.states[n].log, m) && |t.states[n + 1].log| > |t.states[n].log|
    ensures var log := t.states[n + 1].log;
            IsCurrentMeta(log, |log| - 1) && Since(t.states[n].log[m]) < Since(log[|log| - 1])
  {
    AnyRunKeepsNothing(t);
    InvAt(t, n, NOTHING);
    var x, step := t.states[n], t.steps[n];
    assert StepBy(x, step, t.states[n + 1]);
    var r := x.recs[step.i];
    assert RecOK(x.log, r, NOTHING);
    MetaStateReads(step.rev, NextSince(r.tailRev), "active", step.now);
    KnowsCurrent(x.log, r, m);
  }

  /** One that takes over persists the checkpoint in force as it is, in every run. */
  lemma TakeoverKeepsCheckpoint(t: Run, n: nat, m: nat)
    requires IsRun(t) && n < |t.steps| && t.steps[n].Takeover?
    requires IsCurrentMeta(t.states[n].log, m) && |t.states[n + 1].log| > |t.states[n].log|
    ensures var log := t.states[n + 1].log;
            IsCurrentMeta(log, |log| - 1) && Since(log[|log| - 1]) == Since(t.states[n].log[m]) && Tag(log[|log| - 1]) == "active"
  {
    AnyRunKeepsNothing(t);
    InvAt(t, n, NOTHING);
    var x, step := t.states[n], t.steps[n];
    assert StepBy(x, step, t.states[n + 1]);
    var r := x.recs[step.i];
    assert RecOK(x.log, r, NOTHING);
    MetaStateReads(step.rev, r.metaSince, "active", step.now);
    KnowsCurrent(x.log, r, m);
  }

  // A recoverer whose commit would be accepted knows the checkpoint in force.
  lemma KnowsCurrent(log: seq<State>, r: Rec, m: nat)
    requires LogOK(log) && Faithful(log, r.metaRev, r.metaSince)
    requires IsCurrentMeta(log, m) && Accepts(log, META, r.metaRev)
    ensures r.metaSince == Since(log[m])
  {
    LastIsAccepted(log, m);
    LastIsGreatest(log);
    assert r.metaRev == log[m].rev > 0;
    var f: nat {:trigger IsMeta(log, f)} :| IsMeta(log, f) && log[f].rev == r.metaRev && Since(log[f]) == r.metaSince;
    assert f == m;
  }

  // ------------------------------------------------------------- when the reads are good

  /** In a log whose states all say whether recovery is enabled, no read hides one. */
  ghost predicate AllSay(log: seq<State>) {
    forall i | 0 <= i < |log| :: ENABLED in log[i].annotations
  }

  lemma SaidIsKept(page: seq<State>, log: seq<State>, a: nat)
    requires PageReads(page, log, a) && AllSay(log)
    ensures KeepsEnabled(page, log, a)
  {
    forall k | 0 <= k < |page| ensures Enabled(page[k]) == Enabled(log[a + k]) {
      KeyedIsKept(page[k], log[a + k]);
    }
  }

  // No step loses work otherwise than by reading.
  ghost predicate CarefulStep(x: Sys, step: Step) {
    step.Head? || KeptStep(x, step, WORK)
  }

  ghost predicate ExactStep(x: Sys, step: Step) {
    step.Head? ==> step.a + |step.page| <= |x.log| && step.page == x.log[step.a..step.a + |step.page|]
  }

  /** Checkpoint safety whatever slots pages are read through, when every state of
      the log says itself whether recovery is enabled. */
  lemma CheckpointSafetyUniform(t: Run, n: nat, k: nat, m: nat)
    requires IsRun(t) && n < |t.states| && Pending(t.states[n].log, k) && IsMeta(t.states[n].log, m)
    requires forall i | 0 <= i < |t.steps| :: CarefulStep(t.states[i], t.steps[i]) && AllSay(t.states[i].log)
    ensures Since(t.states[n].log[m]) < t.states[n].log[k].rev
  {
    forall i | 0 <= i < |t.steps| ensures KeptStep(t.states[i], t.steps[i], WORK) {
      assert StepBy(t.states[i], t.steps[i], t.states[i + 1]);
      if t.steps[i].Head? {
        SaidIsKept(t.steps[i].page, t.states[i].log, t.steps[i].a);
      }
    }
    CheckpointSafety(t, n, k, m);
  }

  /** And when every page is exactly what is in the log, as the driver and a ring
      that has not wrapped answer. */
  lemma CheckpointSafetyExact(t: Run, n: nat, k: nat, m: nat)
    requires IsRun(t) && n < |t.states| && Pending(t.states[n].log, k) && IsMeta(t.states[n].log, m)
    requires forall i | 0 <= i < |t.steps| :: CarefulStep(t.states[i], t.steps[i]) && ExactStep(t.states[i], t.steps[i])
    ensures Since(t.states[n].log[m]) < t.states[n].log[k].rev
  {
    forall i | 0 <= i < |t.steps| ensures KeptStep(t.states[i], t.steps[i], WORK) {
      assert StepBy(t.states[i], t.steps[i], t.states[i + 1]);
    }
    CheckpointSafety(t, n, k, m);
  }
}
