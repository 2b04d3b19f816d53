/** One recoverer of recovery.go: what it reads from the log, what it keeps to
    retry and what it may write as its checkpoint. */
module Recovery {
  import opened States
  import opened RevLog
  import opened Decimal

  // ------------------------------------------------------------- reading states

  const META := "flowstate.recovery.meta"
  const ENABLED := "flowstate.recovery.enabled"
  const ATTEMPT := "flowstate.recovery.attempt"
  const MAX_ATTEMPTS := "flowstate.recovery.max_attempts"
  const SINCE_REV := "flowstate.recovery.since_rev"
  const DEFAULT_MAX_ATTEMPTS := 3

  predicate Enabled(s: State) {
    Lookup(s.annotations, ENABLED) != "false"
  }

  predicate Parked(s: State) {
    s.transition.to == ""
  }

  // strconv's value, 0 on a syntax error.
  function Atoi(t: Text): int {
    if ParseInt(t).Some? then ParseInt(t).value else 0
  }

  function Attempt(s: State): int {
    Atoi(Lookup(s.transition.annotations, ATTEMPT))
  }

  function MaxAttempts(s: State): (n: int)
    ensures n > 0
  {
    var n := Atoi(Lookup(s.annotations, MAX_ATTEMPTS));
    if n <= 0 then DEFAULT_MAX_ATTEMPTS else n
  }

  // getRecoverySinceRev.
  function Since(s: State): int {
    Atoi(Lookup(s.annotations, SINCE_REV))
  }

  // State.Annotation: the transition's annotations first.
  function Tag(s: State): Text {
    if "state" in s.transition.annotations then s.transition.annotations["state"] else Lookup(s.annotations, "state")
  }

  /** The state a recoverer parks under META with its checkpoint. */
  function MetaState(rev: int, since: int, tag: Text, now: int): State {
    State(META, rev, map[SINCE_REV := FormatInt(since)], map[], Some(now), Transition("", map["state" := tag]))
  }

  lemma MetaStateReads(rev: int, since: int, tag: Text, now: int)
    ensures Since(MetaState(rev, since, tag, now)) == since && Tag(MetaState(rev, since, tag, now)) == tag
  {
    FormatIntParses(since);
  }

  // ------------------------------------------------------------- the recoverer

  /** metaRev and metaSince are the revision its context of the META state was last
      committed or read at, and the checkpoint in it.  `taken` are the entries
      doRetry has deleted and not yet committed. */
  datatype Rec = Rec(
    active: bool, metaRev: int, metaSince: int,
    sinceRev: int, headRev: int, tailRev: int,
    states: map<Text, State>, taken: seq<State>)

  function Reset(metaRev: int, metaSince: int, active: bool): Rec {
    Rec(active, metaRev, metaSince, metaSince, metaSince, metaSince, map[], [])
  }

  /** doUpdateHead on one state of a page.  Its test whether the META state is newer
      than the context compares the revision just copied with itself, so it never
      resets. */
  function SeeOne(r: Rec, s: State): Rec {
    var r1 := r.(sinceRev := s.rev);
    if s.id == META then r1.(metaRev := s.rev, metaSince := Since(s))
    else if !Enabled(s) then r1
    else
      var r2 := r1.(headRev := s.rev, tailRev := if r.states == map[] then s.rev else r.tailRev);
      if !r.active then r2
      else if Parked(s) then r2.(states := r.states - {s.id})
      else r2.(states := r.states[s.id := s])
  }

  function SeeAll(r: Rec, page: seq<State>): Rec {
    if page == [] then r else SeeOne(SeeAll(r, page[..|page| - 1]), page[|page| - 1])
  }

  /** The tail doUpdateTail computes: the least revision it holds, at most the head. */
  ghost predicate IsTail(r: Rec, tail: int) {
    && tail <= r.headRev
    && (tail == r.headRev || exists id :: id in r.states && r.states[id].rev == tail)
    && forall id | id in r.states :: tail <= r.states[id].rev
  }

  function NextSince(tail: int): int {
    if tail == 0 then 0 else tail - 1
  }

  // ------------------------------------------------------------- reading through the cache

  /** What a recoverer may read for a log state: a copy merged into some slot of
      the engine's cache, or into a zero slot when the driver answers. */
  ghost predicate Reads(w: State, s: State) {
    exists slot :: w == CopyTo(s, slot)
  }

  ghost predicate PageReads(page: seq<State>, log: seq<State>, i: nat) {
    i + |page| <= |log| && forall k | 0 <= k < |page| :: Reads(page[k], log[i + k])
  }

  /** The copies still say whether recovery is enabled. */
  ghost predicate KeepsEnabled(page: seq<State>, log: seq<State>, i: nat)
    requires i + |page| <= |log|
  {
    forall k | 0 <= k < |page| :: Enabled(page[k]) == Enabled(log[i + k])
  }

  /** The copy of an entry that is retried still says how often it was and may be. */
  ghost predicate SameCounters(w: State, s: State) {
    Attempt(w) == Attempt(s) && MaxAttempts(w) == MaxAttempts(s)
  }

  ghost predicate KeepsCounters(page: seq<State>, log: seq<State>, i: nat)
    requires i + |page| <= |log|
  {
    forall k | 0 <= k < |page| && !Parked(page[k]) :: SameCounters(page[k], log[i + k])
  }

  /** Which promises the reads of a run keep: `work`, that no state is taken for
      disabled (and that nothing else loses work); `counts`, that attempts are read right. */
  datatype Kept = Kept(work: bool, counts: bool)

  const ALL := Kept(true, true)
  const NOTHING := Kept(false, false)

  ghost predicate KeepsRead(page: seq<State>, log: seq<State>, i: nat, kept: Kept)
    requires i + |page| <= |log|
  {
    && (kept.work ==> KeepsEnabled(page, log, i))
    && (kept.counts ==> KeepsCounters(page, log, i))
  }

  // What merging cannot change.
  lemma ReadsScalars(w: State, s: State)
    requires Reads(w, s)
    ensures w.id == s.id && w.rev == s.rev && Parked(w) == Parked(s)
    ensures Enabled(w) ==> Enabled(s)
    ensures SINCE_REV in s.annotations ==> Since(w) == Since(s)
  {
  }

  /** A copy keeps whether recovery is enabled exactly unless the state says nothing
      itself and the slot still says "false". */
  lemma EnabledSurvives(s: State, slot: State)
    ensures Enabled(CopyTo(s, slot)) == Enabled(s) <==>
            ENABLED in s.annotations || Lookup(slot.annotations, ENABLED) != "false"
  {
  }

  /** It keeps the attempt count exactly unless the transition carries none itself
      and the slot's transition carries one. */
  lemma AttemptSurvives(s: State, slot: State)
    ensures Attempt(CopyTo(s, slot)) == Attempt(s) <==>
            ATTEMPT in s.transition.annotations || Attempt(slot) == 0
  {
    if ATTEMPT !in s.transition.annotations {
      assert Lookup(CopyTransition(s.transition, slot.transition).annotations, ATTEMPT) == Lookup(slot.transition.annotations, ATTEMPT);
    }
  }

  /** And the bound on attempts exactly unless the state sets none itself and the
      slot still sets another than the default. */
  lemma MaxAttemptsSurvives(s: State, slot: State)
    ensures MaxAttempts(CopyTo(s, slot)) == MaxAttempts(s) <==>
            MAX_ATTEMPTS in s.annotations || MaxAttempts(slot) == DEFAULT_MAX_ATTEMPTS
  {
  }

  /** A state that says all three itself is never misread. */
  lemma KeyedIsKept(w: State, s: State)
    requires Reads(w, s)
    ensures ENABLED in s.annotations ==> Enabled(w) == Enabled(s)
    ensures MAX_ATTEMPTS in s.annotations && ATTEMPT in s.transition.annotations ==> SameCounters(w, s)
  {
    var slot :| w == CopyTo(s, slot);
    EnabledSurvives(s, slot);
    AttemptSurvives(s, slot);
    MaxAttemptsSurvives(s, slot);
  }

  /** Nor is one the driver itself answers with. */
  lemma ExactIsRead(s: State)
    ensures Reads(s, s)
  {
    CopyIsExact(s, s);
    assert s == CopyTo(s, s);
  }

  // ------------------------------------------------------------- unfinished work

  ghost predicate In(log: seq<State>, s: State) {
    exists i :: 0 <= i < |log| && log[i] == s
  }

  ghost predicate HasRev(states: seq<State>, rev: int) {
    exists i :: 0 <= i < |states| && states[i].rev == rev
  }

  ghost predicate IsLast(log: seq<State>, k: nat)
    requires k < |log|
  {
    forall j | k < j < |log| :: log[j].id != log[k].id
  }

  /** The entry is unfinished work: the latest of its ID, not parked, recovery not disabled. */
  ghost predicate Pending(log: seq<State>, k: nat) {
    k < |log| && log[k].id != META && Enabled(log[k]) && !Parked(log[k]) && IsLast(log, k)
  }

  function LastRev(log: seq<State>): int {
    if log == [] then 0 else log[|log| - 1].rev
  }

  ghost predicate IsMeta(log: seq<State>, m: nat) {
    m < |log| && log[m].id == META
  }

  // A META state says its checkpoint itself, and that lies before it.
  ghost predicate CarriesSince(s: State) {
    SINCE_REV in s.annotations && 0 <= Since(s) < s.rev
  }

  ghost predicate LogOK(log: seq<State>) {
    && LogInv(log, LastRev(log))
    && forall m: nat {:trigger IsMeta(log, m)} | IsMeta(log, m) :: CarriesSince(log[m])
  }

  /** No unfinished work at or below a revision. */
  ghost predicate NonePending(log: seq<State>, since: int) {
    forall k: nat {:trigger Pending(log, k)} | Pending(log, k) :: since < log[k].rev
  }

  /** No checkpoint ever written reaches unfinished work. */
  ghost predicate Safe(log: seq<State>) {
    forall k: nat, m: nat {:trigger Pending(log, k), IsMeta(log, m)} | Pending(log, k) && IsMeta(log, m) :: Since(log[m]) < log[k].rev
  }

  // ------------------------------------------------------------- the invariant of one recoverer

  ghost predicate Faithful(log: seq<State>, metaRev: int, metaSince: int) {
    || (metaRev == 0 && metaSince == 0)
    || exists m: nat {:trigger IsMeta(log, m)} :: IsMeta(log, m) && log[m].rev == metaRev && Since(log[m]) == metaSince
  }

  // The recoverer still knows of the state: unread, held, or being retried.
  ghost predicate Covered(r: Rec, s: State) {
    s.rev > r.sinceRev || (s.id in r.states && r.states[s.id].rev == s.rev) || HasRev(r.taken, s.rev)
  }

  ghost predicate ReadFrom(log: seq<State>, w: State, counts: bool) {
    exists i :: 0 <= i < |log| && Reads(w, log[i]) && (counts ==> SameCounters(w, log[i]))
  }

  // A copy of a log state, read already, that is worth retrying.
  ghost predicate Retryable(log: seq<State>, sinceRev: int, w: State, counts: bool) {
    ReadFrom(log, w, counts) && w.rev <= sinceRev && w.id != META && Enabled(w) && !Parked(w)
  }

  ghost predicate CoversAll(log: seq<State>, r: Rec) {
    forall k: nat {:trigger Pending(log, k)} | Pending(log, k) :: Covered(r, log[k]) && r.tailRev <= log[k].rev
  }

  ghost predicate Holds(log: seq<State>, r: Rec, counts: bool) {
    && (forall id {:trigger r.states[id]} | id in r.states :: r.states[id].id == id && Retryable(log, r.sinceRev, r.states[id], counts))
    && forall i | 0 <= i < |r.taken| :: r.taken[i].id !in r.states && Retryable(log, r.sinceRev, r.taken[i], counts)
  }

  /** What holds of every recoverer.  Where work is kept, an active one knows of all
      unfinished work; where counts are, what it holds counts attempts as the log does. */
  ghost predicate RecOK(log: seq<State>, r: Rec, kept: Kept) {
    && Faithful(log, r.metaRev, r.metaSince)
    && 0 <= r.tailRev <= r.headRev <= r.sinceRev <= LastRev(log)
    && Holds(log, r, kept.counts)
    && (kept.work && r.active ==> CoversAll(log, r))
    && (!r.active ==> r.states == map[] && r.taken == [])
  }

  // ------------------------------------------------------------- when the log grows

  lemma PendingShrinks(log: seq<State>, s: State, k: nat)
    requires Pending(log + [s], k) && k < |log|
    ensures Pending(log, k) && (log + [s])[k] == log[k]
  {
    assert forall j | 0 <= j < |log| :: (log + [s])[j] == log[j];
  }

  lemma InGrows(log: seq<State>, s: State, x: State)
    requires In(log, x)
    ensures In(log + [s], x)
  {
    var i :| 0 <= i < |log| && log[i] == x;
    assert (log + [s])[i] == x;
  }

  lemma ReadFromGrows(log: seq<State>, s: State, w: State, counts: bool)
    requires ReadFrom(log, w, counts)
    ensures ReadFrom(log + [s], w, counts)
  {
    var i :| 0 <= i < |log| && Reads(w, log[i]) && (counts ==> SameCounters(w, log[i]));
    assert (log + [s])[i] == log[i];
  }

  lemma FaithfulGrows(log: seq<State>, s: State, metaRev: int, metaSince: int)
    requires Faithful(log, metaRev, metaSince)
    ensures Faithful(log + [s], metaRev, metaSince)
  {
    if !(metaRev == 0 && metaSince == 0) {
      var m: nat {:trigger IsMeta(log, m)} :| IsMeta(log, m) && log[m].rev == metaRev && Since(log[m]) == metaSince;
      assert IsMeta(log + [s], m) && (log + [s])[m] == log[m];
    }
  }

  lemma CoversGrows(log: seq<State>, s: State, r: Rec)
    requires CoversAll(log, r) && LastRev(log) < s.rev && r.sinceRev <= LastRev(log) && r.tailRev <= r.sinceRev
    ensures CoversAll(log + [s], r)
  {
    forall k: nat | Pending(log + [s], k) ensures Covered(r, (log + [s])[k]) && r.tailRev <= (log + [s])[k].rev {
      if k < |log| {
        PendingShrinks(log, s, k);
      } else {
        assert (log + [s])[k] == s;
      }
    }
  }

  /** Whatever anybody appends, a recoverer's invariant holds. */
  lemma RecGrows(log: seq<State>, s: State, r: Rec, kept: Kept)
    requires RecOK(log, r, kept) && LastRev(log) < s.rev
    ensures RecOK(log + [s], r, kept)
  {
    FaithfulGrows(log, s, r.metaRev, r.metaSince);
    if kept.work && r.active {
      CoversGrows(log, s, r);
    }
    hide CoversAll, Faithful;
    forall id | id in r.states ensures r.states[id].id == id && Retryable(log + [s], r.sinceRev, r.states[id], kept.counts) {
      ReadFromGrows(log, s, r.states[id], kept.counts);
    }
    forall i | 0 <= i < |r.taken| ensures r.taken[i].id !in r.states && Retryable(log + [s], r.sinceRev, r.taken[i], kept.counts) {
      ReadFromGrows(log, s, r.taken[i], kept.counts);
    }
  }

  lemma LogGrows(log: seq<State>, s: State)
    requires LogOK(log) && LastRev(log) < s.rev && (s.id == META ==> CarriesSince(s))
    ensures LogOK(log + [s])
  {
    LastIsGreatest(log);
    var grown := log + [s];
    forall m: nat {:trigger IsMeta(grown, m)} | IsMeta(grown, m) ensures CarriesSince(grown[m]) {
      if m < |log| {
        assert IsMeta(log, m) && grown[m] == log[m];
      }
    }
  }

  lemma LastIsGreatest(log: seq<State>)
    requires LogInv(log, LastRev(log))
    ensures forall i | 0 <= i < |log| :: 0 < log[i].rev <= LastRev(log)
    ensures 0 <= LastRev(log)
  {
    if log != [] {
      assert 0 < log[|log| - 1].rev;
    }
  }

  /** An appended state keeps the log safe, if a checkpoint in it reaches no unfinished work. */
  lemma SafeGrows(log: seq<State>, s: State)
    requires LogOK(log) && Safe(log) && LastRev(log) < s.rev
    requires s.id == META ==> NonePending(log, Since(s))
    ensures Safe(log + [s])
  {
    LastIsGreatest(log);
    var grown := log + [s];
    forall k: nat, m: nat | Pending(grown, k) && IsMeta(grown, m) ensures Since(grown[m]) < grown[k].rev {
      if k < |log| {
        PendingShrinks(log, s, k);
      }
      if m < |log| {
        assert IsMeta(log, m) && grown[m] == log[m];
      }
    }
  }

  /** And only then. */
  lemma UnsafeCheckpoint(log: seq<State>, s: State, k: nat)
    requires s.id == META && Pending(log, k) && log[k].rev <= Since(s)
    ensures !Safe(log + [s])
  {
    var grown := log + [s];
    assert forall j | 0 <= j < |log| :: grown[j] == log[j];
    assert Pending(grown, k) && IsMeta(grown, |log|);
  }

  // ------------------------------------------------------------- the recoverer's own steps

  /** A recoverer that starts from a checkpoint in the log covers all unfinished work. */
  lemma ResetIsOK(log: seq<State>, metaRev: int, metaSince: int, active: bool, kept: Kept)
    requires LogOK(log) && (kept.work ==> Safe(log)) && Faithful(log, metaRev, metaSince)
    ensures RecOK(log, Reset(metaRev, metaSince, active), kept)
  {
    LastIsGreatest(log);
    var r := Reset(metaRev, metaSince, active);
    assert 0 <= metaSince <= LastRev(log);
    if kept.work {
      forall k: nat {:trigger Pending(log, k)} | Pending(log, k) ensures metaSince < log[k].rev {
      }
    }
  }

  // The states at or past index i are the unread ones.
  ghost predicate UnreadFrom(log: seq<State>, r: Rec, i: nat) {
    && i <= |log|
    && (forall k | 0 <= k < i :: log[k].rev <= r.sinceRev)
    && forall k | i <= k < |log| :: r.sinceRev < log[k].rev
  }

  lemma SeeCovers(log: seq<State>, r: Rec, i: nat, w: State)
    requires LogOK(log) && CoversAll(log, r) && r.tailRev <= r.sinceRev && r.taken == []
    requires UnreadFrom(log, r, i) && i < |log| && r.active && Reads(w, log[i]) && Enabled(w) == Enabled(log[i])
    ensures CoversAll(log, SeeOne(r, w))
  {
    ReadsScalars(w, log[i]);
    var r' := SeeOne(r, w);
    forall k: nat {:trigger Pending(log, k)} | Pending(log, k) ensures Covered(r', log[k]) && r'.tailRev <= log[k].rev {
      assert Covered(r, log[k]);
      if k < i {
        assert log[k].id != log[i].id;
      } else {
        assert log[i].rev <= log[k].rev;
      }
    }
  }

  /** A pending entry whose copy says recovery is disabled is lost sight of. */
  lemma HiddenIsLost(log: seq<State>, r: Rec, i: nat, w: State)
    requires LogOK(log) && Holds(log, r, false) && r.taken == [] && UnreadFrom(log, r, i) && Pending(log, i)
    requires Reads(w, log[i]) && !Enabled(w)
    ensures !Covered(SeeOne(r, w), log[i])
  {
    ReadsScalars(w, log[i]);
    var s := log[i];
    if s.id in r.states {
      assert r.states[s.id].rev <= r.sinceRev < s.rev;
    }
  }

  ghost predicate HoldsMap(log: seq<State>, states: map<Text, State>, sinceRev: int, counts: bool) {
    forall id {:trigger states[id]} | id in states :: states[id].id == id && Retryable(log, sinceRev, states[id], counts)
  }

  lemma HoldsLater(log: seq<State>, states: map<Text, State>, sinceRev: int, later: int, counts: bool)
    requires HoldsMap(log, states, sinceRev, counts) && sinceRev <= later
    ensures HoldsMap(log, states, later, counts)
  {
    hide ReadFrom, Enabled, Parked;
  }

  lemma HoldsMore(log: seq<State>, states: map<Text, State>, sinceRev: int, w: State, counts: bool)
    requires HoldsMap(log, states, sinceRev, counts) && Retryable(log, sinceRev, w, counts)
    ensures HoldsMap(log, states[w.id := w], sinceRev, counts)
  {
    hide Retryable;
    assert forall id | id in states && id != w.id :: states[w.id := w][id] == states[id];
  }

  lemma HoldsLess(log: seq<State>, states: map<Text, State>, sinceRev: int, id: Text, counts: bool)
    requires HoldsMap(log, states, sinceRev, counts)
    ensures HoldsMap(log, states - {id}, sinceRev, counts)
  {
    hide Retryable;
  }

  lemma SeeHolds(log: seq<State>, r: Rec, i: nat, w: State, kept: Kept)
    requires LogOK(log) && RecOK(log, r, kept) && r.taken == [] && i < |log| && Reads(w, log[i]) && r.sinceRev < w.rev
    requires kept.counts && !Parked(w) ==> SameCounters(w, log[i])
    ensures Holds(log, SeeOne(r, w), kept.counts)
  {
    assert !Parked(w) ==> ReadFrom(log, w, kept.counts);
    assert HoldsMap(log, r.states, r.sinceRev, kept.counts);
    hide Reads, ReadFrom, Enabled, Parked, Since, Faithful, LogOK, SameCounters, CoversAll;
    HoldsLater(log, r.states, r.sinceRev, w.rev, kept.counts);
    HoldsLess(log, r.states, w.rev, w.id, kept.counts);
    if SeeOne(r, w).states == r.states[w.id := w] && w.id != META && Enabled(w) && !Parked(w) {
      HoldsMore(log, r.states, w.rev, w, kept.counts);
    }
    assert HoldsMap(log, SeeOne(r, w).states, w.rev, kept.counts);
  }

  lemma SeeFaithful(log: seq<State>, r: Rec, i: nat, w: State)
    requires LogOK(log) && Faithful(log, r.metaRev, r.metaSince) && i < |log| && Reads(w, log[i])
    ensures Faithful(log, SeeOne(r, w).metaRev, SeeOne(r, w).metaSince)
  {
    ReadsScalars(w, log[i]);
    assert log[i].id == META ==> IsMeta(log, i);
  }

  /** Reading the next state of the log. */
  lemma SeeIsOK(log: seq<State>, r: Rec, i: nat, w: State, kept: Kept)
    requires LogOK(log) && RecOK(log, r, kept) && r.taken == [] && UnreadFrom(log, r, i) && i < |log|
    requires Reads(w, log[i]) && (kept.work ==> Enabled(w) == Enabled(log[i]))
    requires kept.counts && !Parked(w) ==> SameCounters(w, log[i])
    ensures RecOK(log, SeeOne(r, w), kept) && UnreadFrom(log, SeeOne(r, w), i + 1)
    ensures SeeOne(r, w).taken == [] && SeeOne(r, w).active == r.active
  {
    LastIsGreatest(log);
    ReadsScalars(w, log[i]);
    SeeFaithful(log, r, i, w);
    SeeHolds(log, r, i, w, kept);
    if kept.work && r.active {
      SeeCovers(log, r, i, w);
    }
    hide Faithful, Holds, CoversAll, Reads, Enabled, Parked, Since, SameCounters;
    assert SeeOne(r, w).sinceRev == log[i].rev;
    assert r.sinceRev < log[i].rev <= LastRev(log);
  }

  /** Reading a page: copies of any number of the next states. */
  lemma {:induction false} SeeAllIsOK(log: seq<State>, r: Rec, i: nat, page: seq<State>, kept: Kept)
    requires LogOK(log) && RecOK(log, r, kept) && r.taken == [] && UnreadFrom(log, r, i)
    requires PageReads(page, log, i) && KeepsRead(page, log, i, kept)
    ensures RecOK(log, SeeAll(r, page), kept) && UnreadFrom(log, SeeAll(r, page), i + |page|)
    ensures SeeAll(r, page).taken == [] && SeeAll(r, page).active == r.active
    decreases |page|
  {
    hide RecOK, LogOK, SeeOne, UnreadFrom, Reads, Enabled, Parked, SameCounters;
    if page != [] {
      var n := |page| - 1;
      SeeAllIsOK(log, r, i, page[..n], kept);
      SeeIsOK(log, SeeAll(r, page[..n]), i + n, page[n], kept);
    }
  }

  /** With nothing held, the tail may be moved up to the head. */
  lemma IdleIsOK(log: seq<State>, r: Rec, kept: Kept)
    requires RecOK(log, r, kept) && r.states == map[] && r.taken == []
    ensures RecOK(log, r.(tailRev := r.headRev), kept)
  {
    if kept.work && r.active {
      forall k: nat {:trigger Pending(log, k)} | Pending(log, k) ensures r.headRev <= log[k].rev {
        assert Covered(r, log[k]);
      }
    }
  }

  // The entries with these IDs, deleted and listed in any order.
  ghost predicate Takes(r: Rec, ids: set<Text>, taken: seq<State>) {
    && ids <= r.states.Keys
    && (forall i | 0 <= i < |taken| :: taken[i].id in ids && taken[i] == r.states[taken[i].id])
    && forall id | id in ids :: In(taken, r.states[id])
  }

  lemma TakeCovers(log: seq<State>, r: Rec, ids: set<Text>, taken: seq<State>)
    requires CoversAll(log, r) && r.taken == [] && Takes(r, ids, taken)
    ensures CoversAll(log, r.(states := r.states - ids, taken := taken))
  {
    var r' := r.(states := r.states - ids, taken := taken);
    forall k: nat {:trigger Pending(log, k)} | Pending(log, k) ensures Covered(r', log[k]) && r'.tailRev <= log[k].rev {
      assert Covered(r, log[k]);
      var id := log[k].id;
      if id in ids {
        var i :| 0 <= i < |taken| && taken[i] == r.states[id];
        assert taken[i].rev == r.states[id].rev;
      }
    }
  }

  /** doRetry deletes the due entries before it commits any. */
  lemma TakeIsOK(log: seq<State>, r: Rec, ids: set<Text>, taken: seq<State>, kept: Kept)
    requires RecOK(log, r, kept) && r.active && r.taken == [] && Takes(r, ids, taken)
    ensures RecOK(log, r.(states := r.states - ids, taken := taken), kept)
  {
    var r' := r.(states := r.states - ids, taken := taken);
    if kept.work {
      TakeCovers(log, r, ids, taken);
    }
    hide Faithful, CoversAll, Retryable, In;
    forall id {:trigger r'.states[id]} | id in r'.states ensures r'.states[id].id == id && Retryable(log, r.sinceRev, r'.states[id], kept.counts) {
      assert r'.states[id] == r.states[id];
    }
    forall i | 0 <= i < |taken| ensures taken[i].id !in r'.states && Retryable(log, r.sinceRev, taken[i], kept.counts) {
      assert taken[i].id in r.states && r.states[taken[i].id] == taken[i];
    }
  }

  // No unfinished work among the taken entries with these indices.
  ghost predicate NotPending(log: seq<State>, rev: int) {
    forall k: nat {:trigger Pending(log, k)} | Pending(log, k) :: log[k].rev != rev
  }

  lemma DoneCovers(log: seq<State>, r: Rec)
    requires CoversAll(log, r) && r.taken != [] && NotPending(log, r.taken[0].rev)
    ensures CoversAll(log, r.(taken := r.taken[1..]))
  {
    var r' := r.(taken := r.taken[1..]);
    forall k: nat {:trigger Pending(log, k)} | Pending(log, k) ensures Covered(r', log[k]) && r'.tailRev <= log[k].rev {
      assert Covered(r, log[k]);
      if HasRev(r.taken, log[k].rev) {
        var i :| 0 <= i < |r.taken| && r.taken[i].rev == log[k].rev;
        assert r.taken[1..][i - 1].rev == log[k].rev;
      }
    }
  }

  /** A taken entry that is no longer unfinished work can be forgotten. */
  lemma DoneIsOK(log: seq<State>, r: Rec, kept: Kept)
    requires RecOK(log, r, kept) && r.taken != [] && (kept.work ==> NotPending(log, r.taken[0].rev))
    ensures RecOK(log, r.(taken := r.taken[1..]), kept)
  {
    var r' := r.(taken := r.taken[1..]);
    if kept.work && r.active {
      DoneCovers(log, r);
    }
    hide Faithful, CoversAll, Retryable;
    forall i | 0 <= i < |r'.taken| ensures r'.taken[i].id !in r'.states && Retryable(log, r'.sinceRev, r'.taken[i], kept.counts) {
      assert r'.taken[i] == r.taken[i + 1];
    }
  }

  // A retry that fails otherwise than by a mismatch: what was taken and not yet
  // committed is gone.
  function Forgets(r: Rec): Rec {
    r.(taken := [])
  }

  ghost predicate NothingDue(log: seq<State>, r: Rec) {
    forall i | 0 <= i < |r.taken| :: NotPending(log, r.taken[i].rev)
  }

  lemma ForgetCovers(log: seq<State>, r: Rec)
    requires CoversAll(log, r) && NothingDue(log, r)
    ensures CoversAll(log, Forgets(r))
  {
    forall k: nat {:trigger Pending(log, k)} | Pending(log, k) ensures Covered(Forgets(r), log[k]) {
      assert Covered(r, log[k]);
    }
  }

  lemma ForgottenIsLost(log: seq<State>, r: Rec, i: nat, k: nat, counts: bool)
    requires LogOK(log) && Holds(log, r, counts) && i < |r.taken| && Pending(log, k) && log[k].rev == r.taken[i].rev
    ensures !Covered(Forgets(r), log[k])
  {
    var t := r.taken[i];
    assert Retryable(log, r.sinceRev, t, counts);
    var j :| 0 <= j < |log| && Reads(t, log[j]);
    ReadsScalars(t, log[j]);
    assert j == k;
  }

  /** What is left after such a failure is in order exactly when none of the
      forgotten entries was unfinished work. */
  lemma FailIsOKExactly(log: seq<State>, r: Rec, kept: Kept)
    requires LogOK(log) && RecOK(log, r, kept) && kept.work && r.active
    ensures RecOK(log, Forgets(r), kept) <==> NothingDue(log, r)
  {
    if NothingDue(log, r) {
      ForgetCovers(log, r);
    } else {
      var i :| 0 <= i < |r.taken| && !NotPending(log, r.taken[i].rev);
      var k: nat {:trigger Pending(log, k)} :| Pending(log, k) && log[k].rev == r.taken[i].rev;
      ForgottenIsLost(log, r, i, k, kept.counts);
    }
  }

  lemma FailIsOK(log: seq<State>, r: Rec, kept: Kept)
    requires LogOK(log) && RecOK(log, r, kept) && (kept.work ==> NothingDue(log, r))
    ensures RecOK(log, Forgets(r), kept)
  {
    if kept.work && r.active {
      ForgetCovers(log, r);
    }
  }

  /** The tail just computed is at or below all unfinished work. */
  lemma TailIsBelow(log: seq<State>, r: Rec, tail: int, kept: Kept)
    requires LogOK(log) && RecOK(log, r, kept) && r.active && r.taken == [] && IsTail(r, tail)
    ensures kept.work ==> NonePending(log, tail - 1)
    ensures 0 <= tail && RecOK(log, r.(tailRev := tail), kept)
  {
    TailIsReached(log, r, tail, kept);
    if kept.work {
      forall k: nat {:trigger Pending(log, k)} | Pending(log, k) ensures tail <= log[k].rev {
        assert Covered(r, log[k]);
      }
    }
  }

  lemma TailIsReached(log: seq<State>, r: Rec, tail: int, kept: Kept)
    requires LogOK(log) && RecOK(log, r, kept) && IsTail(r, tail)
    ensures 0 <= tail
  {
    LastIsGreatest(log);
    if tail != r.headRev {
      var id :| id in r.states && r.states[id].rev == tail;
      assert Retryable(log, r.sinceRev, r.states[id], kept.counts);
      var i :| 0 <= i < |log| && Reads(r.states[id], log[i]);
      ReadsScalars(r.states[id], log[i]);
    }
  }

  /** The checkpoint written for a tail reaches no unfinished work. */
  lemma NextSinceIsBelow(log: seq<State>, tail: int)
    requires LogOK(log) && 0 <= tail && NonePending(log, tail - 1)
    ensures NonePending(log, NextSince(tail))
  {
  }
}
