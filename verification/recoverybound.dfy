/** How often recovery.go retries a state, what its commits publish, and what is
    lost where its assumptions fail. */
module RecoveryBound {
  import opened States
  import opened RevLog
  import opened MemLog
  import opened Decimal
  import opened Recovery
  import opened RecoverySystem

  // ------------------------------------------------------------- what a retry publishes

  /** The context doRetry commits: Transit with the attempt counted up, or Park when
      the attempts are used up. */
  function RetryCtx(s: State): StateCtx {
    var c := CopyToCtx(s, ZERO_CTX);
    var counted := c.current.transition.annotations[ATTEMPT := FormatInt(Attempt(s) + 1)];
    c.(current := c.current.(transition :=
         if Attempt(s) + 1 > MaxAttempts(s) then ZERO_TRANSITION else Transition(s.transition.to, counted)))
  }

  // Every entry the driver makes carries in its context no annotation its state lacks.
  ghost predicate Consistent(e: StateCtx) {
    e.current.annotations.Keys <= e.committed.annotations.Keys
  }

  lemma EntriesAreConsistent(prev: Option<StateCtx>, ctx: StateCtx, rev: int, now: int)
    ensures Consistent(Entry(prev, ctx, rev, now))
  {
  }

  /** Made from what was read of the latest entry and committed over it, it publishes
      the next attempt or the parked state, with the annotations that were read. */
  lemma RetryPublishes(e: StateCtx, w: State, rev: int, now: int)
    requires Consistent(e) && Reads(w, e.committed) && !Parked(w)
    ensures RetryOf(w, Entry(Some(e), RetryCtx(w), rev, now).committed)
    ensures Entry(Some(e), RetryCtx(w), rev, now).committed.rev == rev
  {
    ReadsScalars(w, e.committed);
    ReadsKeys(w, e.committed);
    CountedReads(w);
    RetryCtxOf(w);
    PublishedParts(e, RetryCtx(w), rev, now);
    hide Entry, RetryCtx, Atoi, Reads;
    MergedBack(w.annotations, e.committed.annotations, e.current.annotations);
  }

  /** And everything else the read transition and labels say is published with it. */
  lemma RetryCarriesOn(e: StateCtx, w: State, rev: int, now: int)
    requires Attempt(w) + 1 <= MaxAttempts(w)
    ensures var s := Entry(Some(e), RetryCtx(w), rev, now).committed;
            && s.transition.to == w.transition.to
            && (forall k | k in w.transition.annotations && k != ATTEMPT ::
                  k in s.transition.annotations && s.transition.annotations[k] == w.transition.annotations[k])
            && forall k | k in w.labels :: k in s.labels && s.labels[k] == w.labels[k]
  {
    hide Attempt, MaxAttempts;
  }

  lemma ReadsKeys(w: State, s: State)
    requires Reads(w, s)
    ensures s.annotations.Keys <= w.annotations.Keys
  {
  }

  lemma RetryCtxOf(w: State)
    ensures var c := RetryCtx(w);
            && c.current.id == w.id && c.current.annotations == map[] + w.annotations
            && c.committed.annotations.Keys <= w.annotations.Keys
            && (c.committed.annotations == map[] || c.committed.annotations == map[] + w.annotations)
            && (if Attempt(w) + 1 > MaxAttempts(w) then c.current.transition == ZERO_TRANSITION
                else c.current.transition.to == w.transition.to
                     && Lookup(c.current.transition.annotations, ATTEMPT) == FormatInt(Attempt(w) + 1)
                     && ATTEMPT in c.current.transition.annotations)
  {
  }

  lemma PublishedParts(e: StateCtx, ctx: StateCtx, rev: int, now: int)
    ensures var s := Entry(Some(e), ctx, rev, now).committed;
            && s.id == ctx.current.id && s.rev == rev && s.transition.to == ctx.current.transition.to
            && s.annotations == (e.committed.annotations + ctx.committed.annotations) + (e.current.annotations + ctx.current.annotations)
            && (ATTEMPT in ctx.current.transition.annotations ==>
                  Lookup(s.transition.annotations, ATTEMPT) == Lookup(ctx.current.transition.annotations, ATTEMPT))
  {
  }

  lemma CountedReads(s: State)
    ensures Atoi(FormatInt(Attempt(s) + 1)) == Attempt(s) + 1
  {
    FormatIntParses(Attempt(s) + 1);
  }

  lemma MergedBack(m: Dict, outer: Dict, inner: Dict)
    requires inner.Keys <= m.Keys && outer.Keys <= m.Keys
    ensures (outer + (map[] + m)) + (inner + (map[] + m)) == m
    ensures (outer + map[]) + (inner + (map[] + m)) == m
  {
  }

  // ------------------------------------------------------------- the budget

  /** How many commits recoverers have left on a state: max + 1 - attempt, at least
      one while it is not parked. */
  function Budget(s: State): (n: int)
    ensures n >= 0 && (n == 0 <==> Parked(s))
  {
    if Parked(s) then 0
    else if Attempt(s) >= MaxAttempts(s) then 1
    else MaxAttempts(s) + 1 - Attempt(s)
  }

  /** The entry after a retry: parked when the attempts are used up, otherwise one
      attempt further with the same bound. */
  ghost predicate NextAttempt(s: State, s': State) {
    if Attempt(s) + 1 > MaxAttempts(s) then Parked(s')
    else !Parked(s') && Attempt(s') == Attempt(s) + 1 && MaxAttempts(s') == MaxAttempts(s)
  }

  lemma RetrySpends(s: State, s': State)
    requires NextAttempt(s, s') && !Parked(s)
    ensures Budget(s') == Budget(s) - 1
  {
  }

  // A retry made from a copy that counts right is a retry of the entry itself.
  lemma CountedRetry(s: State, w: State, s': State)
    requires SameCounters(w, s) && !Parked(w) && RetryOf(w, s')
    ensures NextAttempt(s, s')
  {
  }

  // The entries of one ID, oldest first.
  function History(log: seq<State>, id: Text): seq<State> {
    if log == [] then []
    else History(log[..|log| - 1], id) + if log[|log| - 1].id == id then [log[|log| - 1]] else []
  }

  lemma HistoryGrows(log: seq<State>, s: State, id: Text)
    ensures History(log + [s], id) == if s.id == id then History(log, id) + [s] else History(log, id)
  {
    assert (log + [s])[..|log|] == log;
  }

  lemma {:induction false} HistoryLast(log: seq<State>, t: State)
    requires Ordered(log) && In(log, t) && LatestRev(log, t.id) == t.rev
    ensures History(log, t.id) != [] && History(log, t.id)[|History(log, t.id)| - 1] == t
  {
    var last, init := log[|log| - 1], log[..|log| - 1];
    var i :| 0 <= i < |log| && log[i] == t;
    if last.id == t.id {
      assert i == |log| - 1;
    } else {
      assert init[i] == t;
      HistoryLast(init, t);
    }
  }

  // ------------------------------------------------------------- over runs

  /** Nobody but recoverers commits the state from step p on. */
  ghost predicate OnlyRecoverers(t: Run, id: Text, p: nat) {
    id != META && forall i | p <= i < |t.steps| && t.steps[i].Other? :: t.steps[i].s.id != id
  }

  // Entry i of a history retries the one before it.
  ghost predicate Retried(h: seq<State>, i: nat) {
    0 < i < |h| && !Parked(h[i - 1]) && NextAttempt(h[i - 1], h[i])
  }

  function Last(h: seq<State>): State
    requires h != []
  {
    h[|h| - 1]
  }

  /** The later history extends the earlier by retries only, and the budget says how many. */
  ghost predicate Retries(h: seq<State>, h': seq<State>) {
    && h != [] && h <= h'
    && (forall i: nat {:trigger Retried(h', i)} | |h| <= i < |h'| :: Retried(h', i))
    && Budget(Last(h')) == Budget(Last(h)) - (|h'| - |h|)
  }

  lemma OneRetry(h: seq<State>, h': seq<State>, s: State)
    requires Retries(h, h') && !Parked(Last(h')) && NextAttempt(Last(h'), s)
    ensures Retries(h, h' + [s])
  {
    RetrySpends(Last(h'), s);
    var grown := h' + [s];
    hide NextAttempt, Parked, Budget;
    forall i: nat | |h| <= i < |grown| ensures Retried(grown, i) {
      if i < |h'| {
        assert Retried(h', i);
      }
    }
  }

  // One step adds to an ID's history nothing, or a retry of its last entry.
  lemma StepRetries(x: Sys, step: Step, x': Sys, id: Text, h: seq<State>)
    requires Inv(x, COUNTS) && StepBy(x, step, x') && id != META && (step.Other? ==> step.s.id != id)
    requires Retries(h, History(x.log, id))
    ensures Retries(h, History(x'.log, id))
  {
    hide Inv, Retries, RecOK, LogOK, Safe, NextAttempt, RetryOf;
    if step.Retry? && step.i in x.recs && x'.log != x.log {
      RetryExtends(x, step, x', id, h);
    } else if x'.log != x.log {
      OtherwiseUntouched(x, step, x', id);
    }
  }

  lemma OtherwiseUntouched(x: Sys, step: Step, x': Sys, id: Text)
    requires StepBy(x, step, x') && id != META && (step.Other? ==> step.s.id != id) && !step.Retry? && x'.log != x.log
    ensures History(x'.log, id) == History(x.log, id)
  {
    var s := x'.log[|x.log|];
    assert x'.log == x.log + [s] && s.id != id;
    HistoryGrows(x.log, s, id);
  }

  lemma RetryExtends(x: Sys, step: Step, x': Sys, id: Text, h: seq<State>)
    requires Inv(x, COUNTS) && step.Retry? && StepBy(x, step, x') && x'.log != x.log
    requires Retries(h, History(x.log, id))
    ensures Retries(h, History(x'.log, id))
  {
    var taken := RetriedEntry(x, step, x');
    hide *;
    HistoryExtends(x.log, step.s, taken, id, h);
  }

  lemma HistoryExtends(log: seq<State>, s: State, taken: State, id: Text, h: seq<State>)
    requires Ordered(log) && In(log, taken) && LatestRev(log, taken.id) == taken.rev
    requires s.id == taken.id && !Parked(taken) && NextAttempt(taken, s)
    requires Retries(h, History(log, id))
    ensures Retries(h, History(log + [s], id))
  {
    hide *;
    HistoryGrows(log, s, id);
    if taken.id == id {
      HistoryLast(log, taken);
      LastIs(History(log, id), taken);
      OneRetry(h, History(log, id), s);
    }
  }

  lemma LastIs(h: seq<State>, s: State)
    requires h != [] && h[|h| - 1] == s
    ensures Last(h) == s
  {
  }

  // An accepted retry replaces the latest entry of its ID, unparked.
  lemma RetriedEntry(x: Sys, step: Step, x': Sys) returns (s: State)
    requires Inv(x, COUNTS) && step.Retry? && StepBy(x, step, x') && x'.log != x.log
    ensures x'.log == x.log + [step.s] && step.s.id == s.id
    ensures Ordered(x.log) && In(x.log, s) && LatestRev(x.log, s.id) == s.rev
    ensures !Parked(s) && NextAttempt(s, step.s)
  {
    var r := x.recs[step.i];
    assert RecOK(x.log, r, COUNTS);
    var w := r.taken[0];
    assert Retryable(x.log, r.sinceRev, w, true);
    var i := Origin(x.log, w, true);
    s := x.log[i];
    ReadsScalars(w, s);
    CountedRetry(s, w, step.s);
  }

  const COUNTS := Kept(false, true)

  /** Bounded recovery, over every run whose reads keep the counts: of a state only
      recoverers commit, any number of recoverers together commit at most
      max + 1 - attempt further revisions, each retrying the one before it with the
      attempt one higher, and the state is parked exactly when the budget is spent,
      for good. */
  lemma {:induction false} BoundedRecovery(t: Run, id: Text, p: nat, q: nat)
    requires IsRun(t) && Keeps(t, COUNTS) && OnlyRecoverers(t, id, p) && p <= q < |t.states|
    requires History(t.states[p].log, id) != []
    ensures Retries(History(t.states[p].log, id), History(t.states[q].log, id))
    ensures var h, h' := History(t.states[p].log, id), History(t.states[q].log, id);
            |h'| - |h| <= Budget(Last(h)) && (Parked(Last(h')) <==> |h'| - |h| == Budget(Last(h)))
    decreases q - p
  {
    hide Inv, StepBy, OnlyRecoverers, History, Retries, NextAttempt, Budget, Parked, Last;
    if p < q {
      BoundedRecovery(t, id, p, q - 1);
      InvAt(t, q - 1, COUNTS);
      assert StepBy(t.states[q - 1], t.steps[q - 1], t.states[q]);
      NotOthers(t, id, p, q - 1);
      StepRetries(t.states[q - 1], t.steps[q - 1], t.states[q], id, History(t.states[p].log, id));
    } else {
      NoRetriesYet(History(t.states[p].log, id));
    }
    RetriesAreBounded(History(t.states[p].log, id), History(t.states[q].log, id));
  }

  lemma NoRetriesYet(h: seq<State>)
    requires h != []
    ensures Retries(h, h)
  {
  }

  lemma RetriesAreBounded(h: seq<State>, h': seq<State>)
    requires Retries(h, h')
    ensures h' != [] && |h'| - |h| <= Budget(Last(h)) && (Parked(Last(h')) <==> |h'| - |h| == Budget(Last(h)))
  {
  }

  lemma NotOthers(t: Run, id: Text, p: nat, i: nat)
    requires OnlyRecoverers(t, id, p) && p <= i < |t.steps|
    ensures id != META && (t.steps[i].Other? ==> t.steps[i].s.id != id)
  {
  }

  /** A state never retried before gets MaxRecoveryAttempts retries and is then parked. */
  lemma FreshBudget(s: State)
    requires !Parked(s) && Attempt(s) == 0
    ensures Budget(s) == MaxAttempts(s) + 1
    ensures MAX_ATTEMPTS !in s.annotations ==> MaxAttempts(s) == 3
  {
  }

  /** And whatever slots pages are read through, when every unparked state of the
      log carries its attempt count and its bound itself. */
  lemma BoundedRecoveryUniform(t: Run, id: Text, p: nat, q: nat)
    requires IsRun(t) && OnlyRecoverers(t, id, p) && p <= q < |t.states|
    requires History(t.states[p].log, id) != []
    requires forall n | 0 <= n < |t.steps| :: AllCount(t.states[n].log)
    ensures Retries(History(t.states[p].log, id), History(t.states[q].log, id))
  {
    forall n | 0 <= n < |t.steps| ensures KeptStep(t.states[n], t.steps[n], COUNTS) {
      assert StepBy(t.states[n], t.steps[n], t.states[n + 1]);
      if t.steps[n].Head? {
        CountedIsKept(t.steps[n].page, t.states[n].log, t.steps[n].a);
      }
    }
    BoundedRecovery(t, id, p, q);
  }

  ghost predicate AllCount(log: seq<State>) {
    forall i | 0 <= i < |log| && !Parked(log[i]) :: MAX_ATTEMPTS in log[i].annotations && ATTEMPT in log[i].transition.annotations
  }

  lemma CountedIsKept(page: seq<State>, log: seq<State>, a: nat)
    requires PageReads(page, log, a) && AllCount(log)
    ensures KeepsCounters(page, log, a)
  {
    forall k | 0 <= k < |page| && !Parked(page[k]) ensures SameCounters(page[k], log[a + k]) {
      ReadsScalars(page[k], log[a + k]);
      KeyedIsKept(page[k], log[a + k]);
    }
  }

  /** Or when every page is exactly what is in the log. */
  lemma BoundedRecoveryExact(t: Run, id: Text, p: nat, q: nat)
    requires IsRun(t) && OnlyRecoverers(t, id, p) && p <= q < |t.states|
    requires History(t.states[p].log, id) != []
    requires forall n | 0 <= n < |t.steps| :: ExactStep(t.states[n], t.steps[n])
    ensures Retries(History(t.states[p].log, id), History(t.states[q].log, id))
  {
    forall n | 0 <= n < |t.steps| ensures KeptStep(t.states[n], t.steps[n], COUNTS) {
      assert StepBy(t.states[n], t.steps[n], t.states[n + 1]);
    }
    BoundedRecovery(t, id, p, q);
  }

  // ------------------------------------------------------------- misread counts

  /** A state that carries no attempt count, read through a slot whose last
      transition had used up the attempts, is parked by its next retry, whatever
      budget it has. */
  lemma StaleAttemptParks(s: State, slot: State, s': State)
    requires ATTEMPT !in s.transition.annotations && RetryOf(CopyTo(s, slot), s')
    ensures Parked(s') <==> Parked(s) || Attempt(slot) >= MaxAttempts(CopyTo(s, slot))
  {
    assert Lookup(CopyTo(s, slot).transition.annotations, ATTEMPT) == Lookup(slot.transition.annotations, ATTEMPT);
  }

  /** So a fresh state with a budget of four commits is parked without one retry. */
  lemma FreshStateParkedAtOnce(s': State)
    requires RetryOf(CopyTo(Job("x", 2), ZERO_STATE.(transition := Transition("flow", map[ATTEMPT := "3"]))), s')
    ensures Budget(Job("x", 2)) == 4 && Parked(s')
  {
    var slot := ZERO_STATE.(transition := Transition("flow", map[ATTEMPT := "3"]));
    ThreeReads();
    assert Attempt(slot) == 3;
    StaleAttemptParks(Job("x", 2), slot, s');
  }

  lemma ThreeReads()
    ensures Atoi("3") == 3
  {
    assert FormatInt(3) == "3";
    FormatIntParses(3);
  }

  /** What a commit publishes of the attempt count: the driver merges transition
      annotations over the entry before, so an ordinary transit that says nothing
      inherits the count of the retries before it. */
  lemma TransitInheritsAttempt(e: StateCtx, ctx: StateCtx, rev: int, now: int)
    ensures Attempt(Entry(Some(e), ctx, rev, now).committed) ==
            if ATTEMPT in ctx.current.transition.annotations then Attempt(ctx.current)
            else if ATTEMPT in e.current.transition.annotations then Attempt(e.current)
            else if ATTEMPT in ctx.committed.transition.annotations then Attempt(ctx.committed)
            else Attempt(e.committed)
  {
    var c := Entry(Some(e), ctx, rev, now).committed;
    assert c.transition.annotations ==
           (e.committed.transition.annotations + ctx.committed.transition.annotations) +
           (e.current.transition.annotations + ctx.current.transition.annotations);
  }

  // ------------------------------------------------------------- where work is lost

  function Job(id: Text, rev: int): State {
    State(id, rev, map[], map[], None, Transition("flow", map[]))
  }

  function Finished(id: Text, rev: int): State {
    State(id, rev, map[], map[], None, ZERO_TRANSITION)
  }

  /** Reading X, disabled, then Y through X's slot, then Z: the recoverer's tail is
      at Z while Y is unfinished, and the checkpoint it may write passes Y. */
  lemma StaleSlotHidesWork(r: Rec)
    requires var x := Job("x", 2).(annotations := map[ENABLED := "false"]);
             r == SeeOne(SeeOne(SeeOne(Reset(1, 0, true), x), CopyTo(Job("y", 3), x)), Job("z", 4))
    ensures var log := [MetaState(1, 0, "active", 0), Job("x", 2).(annotations := map[ENABLED := "false"]), Job("y", 3), Job("z", 4)];
            && LogOK(log) && Safe(log) && Pending(log, 2) && IsTail(r, 4)
            && !Safe(log + [MetaState(5, NextSince(4), "active", 0)])
  {
    var x := Job("x", 2).(annotations := map[ENABLED := "false"]);
    var log := [MetaState(1, 0, "active", 0), x, Job("y", 3), Job("z", 4)];
    MetaStateReads(1, 0, "active", 0);
    MetaStateReads(5, 3, "active", 0);
    assert log[0].rev == 1 && log[1].rev == 2 && log[2].rev == 3 && log[3].rev == 4;
    assert LogOK(log) && Safe(log);
    assert Pending(log, 2);
    assert !Enabled(CopyTo(Job("y", 3), x));
    assert r.states == map["z" := Job("z", 4)];
    assert r.states["z"].rev == 4 && r.headRev == 4;
    UnsafeCheckpoint(log, MetaState(5, 3, "active", 0), 2);
  }

  // A checkpoint and two unfinished states.
  function TwoJobs(): seq<State> {
    [MetaState(1, 0, "active", 0), Job("a", 2), Job("b", 3)]
  }

  lemma TwoJobsAreFine()
    ensures LogOK(TwoJobs()) && Safe(TwoJobs()) && Pending(TwoJobs(), 1)
  {
    MetaStateReads(1, 0, "active", 0);
    var log := TwoJobs();
    assert log[0].rev == 1 && log[1].rev == 2 && log[2].rev == 3;
  }

  lemma CheckpointAtTwoIsUnsafe(tag: Text)
    ensures !Safe(TwoJobs() + [MetaState(4, 2, tag, 0)])
  {
    MetaStateReads(4, 2, tag, 0);
    TwoJobsAreFine();
    UnsafeCheckpoint(TwoJobs(), MetaState(4, 2, tag, 0), 1);
  }

  /** A standby that has read the log and shuts down writes the checkpoint after its
      head, past the work of the recoverer that was active. */
  lemma StandbyShutdownLosesWork()
    ensures var r := SeeAll(Reset(1, 0, false), TwoJobs()[1..]);
            !HarmlessShutdown(r) && r.metaRev == 1 && LogOK(TwoJobs()) && Safe(TwoJobs())
            && !Safe(TwoJobs() + [MetaState(4, NextSince(r.tailRev), "inactive", 0)])
  {
    TwoJobsAreFine();
    var page := TwoJobs()[1..];
    assert page == [Job("a", 2)] + [Job("b", 3)] && page[..1] == [Job("a", 2)] && page[..1][..0] == [];
    var r1 := SeeOne(Reset(1, 0, false), Job("a", 2));
    assert SeeAll(Reset(1, 0, false), page[..1]) == r1;
    var r := SeeOne(r1, Job("b", 3));
    assert SeeAll(Reset(1, 0, false), page) == r && r.tailRev == 3;
    CheckpointAtTwoIsUnsafe("inactive");
  }

  /** doRetry deletes before it commits: where a commit fails with anything but a
      revision mismatch, the next checkpoint of an active recoverer may pass the
      state it was retrying. */
  lemma FailedRetryLosesWork(r: Rec)
    requires r == Rec(true, 1, 0, 3, 3, 2, map["b" := Job("b", 3)], [Job("a", 2)])
    ensures RecOK(TwoJobs(), r, ALL) && IsTail(Forgets(r), 3) && !NothingDue(TwoJobs(), r)
    ensures !Safe(TwoJobs() + [MetaState(4, NextSince(3), "active", 0)])
  {
    RetryingIsFine(r);
    TwoJobsAreFine();
    assert r.taken[0].rev == TwoJobs()[1].rev && !NotPending(TwoJobs(), r.taken[0].rev);
    CheckpointAtTwoIsUnsafe("active");
    hide *;
    assert Forgets(r).headRev == 3 && Forgets(r).states["b"] == Job("b", 3) by {
      ForgetsLittle(r);
    }
    HeadIsTail(Forgets(r));
  }

  lemma ForgetsLittle(r: Rec)
    ensures Forgets(r).headRev == r.headRev && Forgets(r).states == r.states
  {
  }

  lemma RetryingIsFine(r: Rec)
    requires r == Rec(true, 1, 0, 3, 3, 2, map["b" := Job("b", 3)], [Job("a", 2)])
    ensures RecOK(TwoJobs(), r, ALL)
  {
    FaithfulTwo();
    JobsAreRetryable();
    CoversTwo(r);
    hide TwoJobs, Retryable, Faithful, CoversAll, Job, MetaState;
    assert "a" !in r.states;
  }

  lemma FaithfulTwo()
    ensures Faithful(TwoJobs(), 1, 0) && LastRev(TwoJobs()) == 3
  {
    MetaStateReads(1, 0, "active", 0);
    assert IsMeta(TwoJobs(), 0);
  }

  lemma JobsAreRetryable()
    ensures Retryable(TwoJobs(), 3, Job("a", 2), true) && Job("a", 2).id == "a"
    ensures Retryable(TwoJobs(), 3, Job("b", 3), true) && Job("b", 3).id == "b"
  {
    var log := TwoJobs();
    assert log[1] == Job("a", 2) && log[2] == Job("b", 3);
    JobIsRetryable(log, 1, "a", 3);
    JobIsRetryable(log, 2, "b", 3);
  }

  lemma JobIsRetryable(log: seq<State>, i: nat, id: Text, sinceRev: int)
    requires i < |log| && log[i] == Job(id, log[i].rev) && id != META && log[i].rev <= sinceRev
    ensures Retryable(log, sinceRev, log[i], true)
  {
    ExactIsRead(log[i]);
  }

  lemma CoversTwo(r: Rec)
    requires r == Rec(true, 1, 0, 3, 3, 2, map["b" := Job("b", 3)], [Job("a", 2)])
    ensures CoversAll(TwoJobs(), r)
  {
    assert r.taken[0].rev == 2 && r.states["b"].rev == 3;
    assert HasRev(r.taken, 2);
  }

  lemma HeadIsTail(r: Rec)
    requires r.headRev == 3 && forall id | id in r.states :: r.states[id].rev == 3
    ensures IsTail(r, 3)
  {
  }

  // ------------------------------------------------------------- shutdowns

  // The log is one the recoverer may be working on, with a shutdown about to be accepted.
  ghost predicate MayWorkOn(log: seq<State>, r: Rec) {
    LogOK(log) && Safe(log) && RecOK(log, r, ALL) && Accepts(log, META, r.metaRev)
  }

  ghost predicate ShutdownIsSafe(r: Rec) {
    forall log, rev, now {:trigger MayWorkOn(log, r), MetaState(rev, NextSince(r.tailRev), "inactive", now)} |
      MayWorkOn(log, r) && LastRev(log) < rev :: Safe(log + [MetaState(rev, NextSince(r.tailRev), "inactive", now)])
  }

  lemma HarmlessIsSafe(log: seq<State>, r: Rec, rev: int, now: int)
    requires MayWorkOn(log, r) && LastRev(log) < rev && HarmlessShutdown(r)
    ensures Safe(log + [MetaState(rev, NextSince(r.tailRev), "inactive", now)])
  {
    HarmlessIsBelow(log, r, ALL);
    MetaStateReads(rev, NextSince(r.tailRev), "inactive", now);
    SafeGrows(log, MetaState(rev, NextSince(r.tailRev), "inactive", now));
  }

  // Unfinished work at revision p, with a log around it that the standby may know.
  function AroundJob(metaRev: int, metaSince: int, p: int, q: int): seq<State> {
    if metaRev == 0 then [Job("job", p), Finished("done", q)]
    else if metaRev < p then [MetaState(metaRev, metaSince, "active", 0), Job("job", p), Finished("done", q)]
    else [Job("job", p), MetaState(metaRev, metaSince, "active", 0), Finished("done", q)]
  }

  lemma AroundJobIsOK(metaRev: int, metaSince: int, p: int, q: int) returns (j: nat)
    requires 0 <= metaSince < p < q && metaRev != p && metaRev < q
    requires if metaRev == 0 then metaSince == 0 else metaSince < metaRev
    ensures var log := AroundJob(metaRev, metaSince, p, q);
            && LogOK(log) && Safe(log) && LastRev(log) == q && Pending(log, j) && log[j] == Job("job", p)
            && Faithful(log, metaRev, metaSince)
  {
    var log := AroundJob(metaRev, metaSince, p, q);
    MetaStateReads(metaRev, metaSince, "active", 0);
    j := if metaRev == 0 || metaRev > p then 0 else 1;
    assert log[j] == Job("job", p) && log[|log| - 1] == Finished("done", q);
    if metaRev != 0 {
      assert log[1 - j] == MetaState(metaRev, metaSince, "active", 0);
      assert IsMeta(log, 1 - j);
    }
    assert Pending(log, j);
  }

  lemma AroundJobAccepts(metaRev: int, metaSince: int, p: int, q: int)
    requires 0 <= metaSince < p < q && metaRev != p && metaRev < q
    requires if metaRev == 0 then metaSince == 0 else metaSince < metaRev
    ensures Accepts(AroundJob(metaRev, metaSince, p, q), META, metaRev)
  {
    var log := AroundJob(metaRev, metaSince, p, q);
    var j := AroundJobIsOK(metaRev, metaSince, p, q);
    LatestRevIsGreatest(log, META, q);
    if metaRev != 0 {
      assert log[1 - j] == MetaState(metaRev, metaSince, "active", 0);
      assert IsLast(log, 1 - j);
      LastIsAccepted(log, 1 - j);
    }
  }

  lemma HarmfulIsUnsafe(r: Rec)
    requires !HarmlessShutdown(r) && r.states == map[] && r.taken == []
    requires 0 <= r.tailRev <= r.headRev <= r.sinceRev && 0 <= r.metaSince
    requires if r.metaRev == 0 then r.metaSince == 0 else r.metaSince < r.metaRev
    ensures !ShutdownIsSafe(r)
  {
    var since := NextSince(r.tailRev);
    var p := if since == r.metaRev then since - 1 else since;
    var q := r.sinceRev + r.metaRev + 1;
    var log := AroundJob(r.metaRev, r.metaSince, p, q);
    var j := AroundJobIsOK(r.metaRev, r.metaSince, p, q);
    AroundJobAccepts(r.metaRev, r.metaSince, p, q);
    hide LogOK, Safe, Faithful, AroundJob, Accepts;
    assert RecOK(log, r, ALL);
    MetaStateReads(q + 1, since, "inactive", 0);
    UnsafeCheckpoint(log, MetaState(q + 1, since, "inactive", 0), j);
    assert MayWorkOn(log, r);
  }

  /** Shutdown, exactly: from what a recoverer holds, its shutdown checkpoint keeps
      every log it may be working on safe if and only if it is active, or the
      checkpoint does not go past the one it knows (save onto the META state). */
  lemma ShutdownIsSafeExactly(log0: seq<State>, r: Rec)
    requires MayWorkOn(log0, r)
    ensures ShutdownIsSafe(r) <==> HarmlessShutdown(r)
  {
    if HarmlessShutdown(r) {
      forall log, rev, now {:trigger MayWorkOn(log, r), MetaState(rev, NextSince(r.tailRev), "inactive", now)} |
        MayWorkOn(log, r) && LastRev(log) < rev
        ensures Safe(log + [MetaState(rev, NextSince(r.tailRev), "inactive", now)])
      {
        HarmlessIsSafe(log, r, rev, now);
      }
    } else {
      FaithfulIsBelow(log0, r.metaRev, r.metaSince);
      HarmfulIsUnsafe(r);
    }
  }

  /** The checkpoint a context holds after reading a META state is that state's,
      whatever it held before: the pair the model keeps of it. */
  lemma MetaIsCopied(rev: int, since: int, tag: Text, now: int, to: StateCtx)
    requires rev > 0
    ensures var c := CopyToCtx(MetaState(rev, since, tag, now), to);
            c.committed.rev == rev && Since(c.current) == since
  {
    MetaStateReads(rev, since, tag, now);
  }
}
