/** The in-memory driver of memdriver/driver.go: its state log object, Commit and
    GetStates. */
module MemDriver {
  import opened States
  import opened RevLog
  import opened MemLog
  import opened MemScan

  // A *StateCtx: commits write into the caller's context.
  class Cell {
    var v: StateCtx

    constructor (v: StateCtx)
      ensures this.v == v
    {
      this.v := v;
    }
  }

  // The sub-commands whose Do touches nothing but their own context.
  datatype SubCmd =
    | Transit(ctx: Cell, to: Text, annotations: Dict)
    | Park(ctx: Cell, annotations: Dict)
    | Noop

  predicate ValidFlow(cmd: SubCmd) {
    cmd.Transit? ==> cmd.to != []
  }

  function NextTransition(cmd: SubCmd): Transition
    requires !cmd.Noop?
  {
    match cmd
    case Transit(_, to, annotations) => Transition(to, annotations)
    case Park(_, annotations) => Transition([], annotations)
  }

  // The context after the sub-command's Do.
  function Done(cmd: SubCmd, v: StateCtx): StateCtx
    requires !cmd.Noop?
  {
    v.(transitions := v.transitions + [v.current.transition],
       current := v.current.(transition := NextTransition(cmd)))
  }

  function Cells(cmds: seq<SubCmd>): set<Cell> {
    set i | 0 <= i < |cmds| && !cmds[i].Noop? :: cmds[i].ctx
  }

  // The contexts of a commit's sub-commands, as they are now.
  function Ctxs(cmds: seq<SubCmd>): (r: seq<StateCtx>)
    reads Cells(cmds)
    ensures |r| == |cmds|
  {
    seq(|cmds|, i requires 0 <= i < |cmds| reads Cells(cmds) => if cmds[i].Noop? then ZERO_CTX else cmds[i].ctx.v)
  }

  function CheckOne(cmd: SubCmd, ctx: StateCtx, v: seq<State>): CommitResult {
    if !ValidFlow(cmd) then EmptyFlow
    else if ctx.current.id == [] then EmptyID
    else if LatestRev(v, ctx.current.id) != ctx.committed.rev then RevMismatch(ctx.current.id)
    else Committed
  }

  /** The outcome of a commit: the first sub-command that fails decides, and a
      context used twice fails the second time.  `ctxs` are the contexts as they
      were before the commit, `seen` those of the sub-commands before position i. */
  function Verdict(cmds: seq<SubCmd>, ctxs: seq<StateCtx>, i: nat, seen: set<Cell>, v: seq<State>): CommitResult
    requires i <= |cmds| == |ctxs|
    decreases |cmds| - i
  {
    if i == |cmds| then Committed
    else if cmds[i].Noop? then Verdict(cmds, ctxs, i + 1, seen, v)
    else
      var r := CheckOne(cmds[i], ctxs[i], v);
      if r == Committed && cmds[i].ctx in seen then RevMismatch(ctxs[i].current.id)
      else if r != Committed then r
      else Verdict(cmds, ctxs, i + 1, seen + {cmds[i].ctx}, v)
  }

  /** The entries the first n sub-commands of an accepted commit publish, from
      the contexts as they were before it. */
  function Staged(cmds: seq<SubCmd>, ctxs: seq<StateCtx>, n: nat, entries: seq<StateCtx>, rev: int, now: int): seq<StateCtx>
    requires n <= |cmds| == |ctxs|
  {
    if n == 0 then []
    else
      var init := Staged(cmds, ctxs, n - 1, entries, rev, now);
      if cmds[n - 1].Noop? then init else init + [StageOf(cmds[n - 1], ctxs[n - 1], entries, rev + |init| + 1, now)]
  }

  function StageOf(cmd: SubCmd, ctx: StateCtx, entries: seq<StateCtx>, rev: int, now: int): StateCtx
    requires !cmd.Noop?
  {
    Entry(Latest(entries, ctx.current.id), Done(cmd, ctx), rev, now)
  }

  lemma {:induction false} VerdictNext(cmds: seq<SubCmd>, ctxs: seq<StateCtx>, i: nat, seen: set<Cell>, v: seq<State>)
    requires i < |cmds| == |ctxs|
    ensures Verdict(cmds, ctxs, i, seen, v) ==
            if cmds[i].Noop? then Verdict(cmds, ctxs, i + 1, seen, v)
            else
              var r := CheckOne(cmds[i], ctxs[i], v);
              if r == Committed && cmds[i].ctx in seen then RevMismatch(ctxs[i].current.id)
              else if r != Committed then r
              else Verdict(cmds, ctxs, i + 1, seen + {cmds[i].ctx}, v)
  {
  }

  /** Where a commit stops: at the sub-command its verdict is about, or past the last. */
  function FailAt(cmds: seq<SubCmd>, ctxs: seq<StateCtx>, i: nat, seen: set<Cell>, v: seq<State>): (f: nat)
    requires i <= |cmds| == |ctxs|
    ensures i <= f <= |cmds|
    decreases |cmds| - i
  {
    if i == |cmds| then i
    else if cmds[i].Noop? then FailAt(cmds, ctxs, i + 1, seen, v)
    else if CheckOne(cmds[i], ctxs[i], v) != Committed || cmds[i].ctx in seen then i
    else FailAt(cmds, ctxs, i + 1, seen + {cmds[i].ctx}, v)
  }

  lemma {:induction false} FailAtNext(cmds: seq<SubCmd>, ctxs: seq<StateCtx>, i: nat, seen: set<Cell>, v: seq<State>)
    requires i < |cmds| == |ctxs|
    ensures FailAt(cmds, ctxs, i, seen, v) ==
            if cmds[i].Noop? then FailAt(cmds, ctxs, i + 1, seen, v)
            else if CheckOne(cmds[i], ctxs[i], v) != Committed || cmds[i].ctx in seen then i
            else FailAt(cmds, ctxs, i + 1, seen + {cmds[i].ctx}, v)
  {
  }

  lemma {:induction false} FailAtVerdict(cmds: seq<SubCmd>, ctxs: seq<StateCtx>, i: nat, seen: set<Cell>, v: seq<State>)
    requires i <= |cmds| == |ctxs|
    ensures FailAt(cmds, ctxs, i, seen, v) == |cmds| <==> Verdict(cmds, ctxs, i, seen, v) == Committed
    decreases |cmds| - i
  {
    if i < |cmds| {
      if cmds[i].Noop? {
        FailAtVerdict(cmds, ctxs, i + 1, seen, v);
      } else {
        FailAtVerdict(cmds, ctxs, i + 1, seen + {cmds[i].ctx}, v);
      }
    }
  }

  // What comes before the failing sub-command was accepted.
  lemma {:induction false} AcceptedBefore(cmds: seq<SubCmd>, ctxs: seq<StateCtx>, i: nat, seen: set<Cell>, v: seq<State>, j: nat)
    requires i <= j < |cmds| == |ctxs| && j < FailAt(cmds, ctxs, i, seen, v) && !cmds[j].Noop?
    ensures CheckOne(cmds[j], ctxs[j], v) == Committed
    decreases |cmds| - i
  {
    if i < j {
      AcceptedBefore(cmds, ctxs, i + 1, if cmds[i].Noop? then seen else seen + {cmds[i].ctx}, v, j);
    }
  }

  ghost predicate UsedBefore(cmds: seq<SubCmd>, c: Cell, f: nat) {
    exists j :: 0 <= j < f && j < |cmds| && !cmds[j].Noop? && cmds[j].ctx == c
  }

  /** What an accepted commit asks of sub-command k, from the log and the contexts as
      they were: a flow to go to, an ID, the revision that ID has, and a context that
      no earlier sub-command used. */
  ghost predicate Passes(cmds: seq<SubCmd>, ctxs: seq<StateCtx>, v: seq<State>, k: nat)
    requires k < |cmds| == |ctxs|
  {
    cmds[k].Noop? ||
    (&& (cmds[k].Transit? ==> cmds[k].to != [])
     && ctxs[k].current.id != []
     && ctxs[k].committed.rev == LatestRev(v, ctxs[k].current.id)
     && !UsedBefore(cmds, cmds[k].ctx, k))
  }

  ghost predicate AllPass(cmds: seq<SubCmd>, ctxs: seq<StateCtx>, v: seq<State>)
    requires |cmds| == |ctxs|
  {
    forall k: nat {:trigger Passes(cmds, ctxs, v, k)} | k < |cmds| :: Passes(cmds, ctxs, v, k)
  }

  // Sub-command f is the first that does not pass.
  ghost predicate FailsFirst(cmds: seq<SubCmd>, ctxs: seq<StateCtx>, v: seq<State>, f: int)
    requires |cmds| == |ctxs|
  {
    0 <= f < |cmds| && !Passes(cmds, ctxs, v, f) && forall k: nat {:trigger Passes(cmds, ctxs, v, k)} | k < f :: Passes(cmds, ctxs, v, k)
  }

  // Why it is refused; a missing flow is noticed before a missing ID.
  ghost predicate RefusedFor(cmd: SubCmd, ctx: StateCtx, r: CommitResult) {
    if cmd.Transit? && cmd.to == [] then r == EmptyFlow
    else if ctx.current.id == [] then r == EmptyID
    else r == RevMismatch(ctx.current.id)
  }

  /** A commit is accepted exactly when every sub-command passes, and otherwise
      refused for the first that does not. */
  ghost predicate Decided(cmds: seq<SubCmd>, ctxs: seq<StateCtx>, v: seq<State>, r: CommitResult) {
    && |cmds| == |ctxs|
    && (r == Committed <==> AllPass(cmds, ctxs, v))
    && (r != Committed ==> exists f :: FailsFirst(cmds, ctxs, v, f) && RefusedFor(cmds[f], ctxs[f], r))
  }

  // `seen` are the contexts used before sub-command i.
  ghost predicate SeenBefore(cmds: seq<SubCmd>, i: nat, seen: set<Cell>) {
    forall k | 0 <= k < |cmds| && !cmds[k].Noop? :: cmds[k].ctx in seen <==> UsedBefore(cmds, cmds[k].ctx, i)
  }

  lemma SeenBeforeNext(cmds: seq<SubCmd>, i: nat, seen: set<Cell>)
    requires SeenBefore(cmds, i, seen) && i < |cmds|
    ensures SeenBefore(cmds, i + 1, if cmds[i].Noop? then seen else seen + {cmds[i].ctx})
  {
    forall k | 0 <= k < |cmds| && !cmds[k].Noop?
      ensures UsedBefore(cmds, cmds[k].ctx, i + 1) <==>
              UsedBefore(cmds, cmds[k].ctx, i) || (!cmds[i].Noop? && cmds[k].ctx == cmds[i].ctx)
    {
    }
  }

  lemma {:induction false} PassesExactly(cmds: seq<SubCmd>, ctxs: seq<StateCtx>, i: nat, seen: set<Cell>, v: seq<State>)
    requires i < |cmds| == |ctxs| && SeenBefore(cmds, i, seen) && !cmds[i].Noop?
    ensures Passes(cmds, ctxs, v, i) <==> CheckOne(cmds[i], ctxs[i], v) == Committed && cmds[i].ctx !in seen
    ensures CheckOne(cmds[i], ctxs[i], v) != Committed ==> RefusedFor(cmds[i], ctxs[i], CheckOne(cmds[i], ctxs[i], v))
    ensures CheckOne(cmds[i], ctxs[i], v) == Committed ==> RefusedFor(cmds[i], ctxs[i], RevMismatch(ctxs[i].current.id))
  {
  }

  lemma {:induction false} VerdictExactly(cmds: seq<SubCmd>, ctxs: seq<StateCtx>, i: nat, seen: set<Cell>, v: seq<State>)
    requires i <= |cmds| == |ctxs| && SeenBefore(cmds, i, seen)
    requires forall k: nat {:trigger Passes(cmds, ctxs, v, k)} | k < i :: Passes(cmds, ctxs, v, k)
    ensures Decided(cmds, ctxs, v, Verdict(cmds, ctxs, i, seen, v))
    decreases |cmds| - i
  {
    if i < |cmds| {
      SeenBeforeNext(cmds, i, seen);
      VerdictNext(cmds, ctxs, i, seen, v);
      if !cmds[i].Noop? {
        PassesExactly(cmds, ctxs, i, seen, v);
      }
      hide CheckOne, SeenBefore, Verdict, RefusedFor;
      if Passes(cmds, ctxs, v, i) {
        VerdictExactly(cmds, ctxs, i + 1, if cmds[i].Noop? then seen else seen + {cmds[i].ctx}, v);
      } else {
        assert FailsFirst(cmds, ctxs, v, i);
      }
    }
  }

  /** The revisions the contexts of the first n sub-commands name, one for each that
      publishes. */
  function Named(cmds: seq<SubCmd>, ctxs: seq<StateCtx>, n: nat): seq<int>
    requires n <= |cmds| == |ctxs|
  {
    if n == 0 then [] else Named(cmds, ctxs, n - 1) + if cmds[n - 1].Noop? then [] else [ctxs[n - 1].committed.rev]
  }

  lemma StagedID(cmd: SubCmd, ctx: StateCtx, entries: seq<StateCtx>, rev: int, now: int)
    requires !cmd.Noop?
    ensures StageOf(cmd, ctx, entries, rev, now).committed.id == ctx.current.id
  {
    StampedIsPublished(Latest(entries, ctx.current.id), Done(cmd, ctx), rev, now);
  }

  // names[i] is the revision that the i-th entry's ID has in the log.
  ghost predicate NamesGiven(v: seq<State>, entries: seq<StateCtx>, names: seq<int>) {
    |names| == |entries| && forall i | 0 <= i < |entries| :: names[i] == LatestRev(v, entries[i].committed.id)
  }

  lemma NamesGivenNext(v: seq<State>, entries: seq<StateCtx>, names: seq<int>, e: StateCtx, name: int)
    requires NamesGiven(v, entries, names) && name == LatestRev(v, e.committed.id)
    ensures NamesGiven(v, entries + [e], names + [name])
  {
  }

  // Each staged entry is about the ID whose revision its context names.
  lemma {:induction false} StagedNames(cmds: seq<SubCmd>, ctxs: seq<StateCtx>, n: nat, v: seq<State>, entries: seq<StateCtx>, rev: int, now: int)
    requires n <= |cmds| == |ctxs| && AllPass(cmds, ctxs, v)
    ensures NamesGiven(v, Staged(cmds, ctxs, n, entries, rev, now), Named(cmds, ctxs, n))
  {
    if n > 0 {
      hide *;
      StagedNames(cmds, ctxs, n - 1, v, entries, rev, now);
      StagedNamesNext(cmds, ctxs, n - 1, v, entries, rev, now);
    }
  }

  lemma {:induction false} StagedNamesNext(cmds: seq<SubCmd>, ctxs: seq<StateCtx>, n: nat, v: seq<State>, entries: seq<StateCtx>, rev: int, now: int)
    requires n < |cmds| == |ctxs| && AllPass(cmds, ctxs, v)
    requires NamesGiven(v, Staged(cmds, ctxs, n, entries, rev, now), Named(cmds, ctxs, n))
    ensures NamesGiven(v, Staged(cmds, ctxs, n + 1, entries, rev, now), Named(cmds, ctxs, n + 1))
  {
    hide *;
    StagedNext(cmds, ctxs, n, entries, rev, now);
    NamedNext(cmds, ctxs, n);
    PassesAt(cmds, ctxs, v, n);
    var staged := Staged(cmds, ctxs, n, entries, rev, now);
    if !cmds[n].Noop? {
      StagedNamesOne(cmds, ctxs, n, v, entries, rev, now, staged);
    }
  }

  lemma {:induction false} PassesAt(cmds: seq<SubCmd>, ctxs: seq<StateCtx>, v: seq<State>, k: nat)
    requires k < |cmds| == |ctxs| && AllPass(cmds, ctxs, v)
    ensures Passes(cmds, ctxs, v, k)
  {
  }

  lemma {:induction false} NamedNext(cmds: seq<SubCmd>, ctxs: seq<StateCtx>, n: nat)
    requires n < |cmds| == |ctxs|
    ensures Named(cmds, ctxs, n + 1) ==
            if cmds[n].Noop? then Named(cmds, ctxs, n) else Named(cmds, ctxs, n) + [ctxs[n].committed.rev]
  {
  }

  lemma {:induction false} StagedNamesOne(cmds: seq<SubCmd>, ctxs: seq<StateCtx>, n: nat, v: seq<State>, entries: seq<StateCtx>, rev: int, now: int, staged: seq<StateCtx>)
    requires n < |cmds| == |ctxs| && Passes(cmds, ctxs, v, n) && !cmds[n].Noop?
    requires NamesGiven(v, staged, Named(cmds, ctxs, n))
    ensures NamesGiven(v, staged + [StageOf(cmds[n], ctxs[n], entries, rev + |staged| + 1, now)],
                       Named(cmds, ctxs, n) + [ctxs[n].committed.rev])
  {
    hide Named, StageOf, NamesGiven, LatestRev;
    StagedID(cmds[n], ctxs[n], entries, rev + |staged| + 1, now);
    NamesGivenNext(v, staged, Named(cmds, ctxs, n), StageOf(cmds[n], ctxs[n], entries, rev + |staged| + 1, now), ctxs[n].committed.rev);
  }

  lemma {:induction false} NamesAreNamed(cmds: seq<SubCmd>, ctxs: seq<StateCtx>, v: seq<State>, entries: seq<StateCtx>, rev: int, now: int, names: seq<int>, r: CommitResult)
    requires Decided(cmds, ctxs, v, r) && r == Committed
    requires StagedWell(v, rev, Staged(cmds, ctxs, |cmds|, entries, rev, now), names)
    ensures |cmds| == |ctxs| && names == Named(cmds, ctxs, |cmds|)
  {
    StagedNames(cmds, ctxs, |cmds|, v, entries, rev, now);
    hide Staged, Named;
  }

  lemma AcceptedPasses(cmds: seq<SubCmd>, ctxs: seq<StateCtx>, v: seq<State>, r: CommitResult)
    requires Decided(cmds, ctxs, v, r) && r == Committed
    ensures |cmds| == |ctxs| && AllPass(cmds, ctxs, v)
  {
  }

  // A context already stamped with an unpublished revision can only be refused.
  lemma ReusedFails(cmd: SubCmd, was: StateCtx, stamped: StateCtx, v: seq<State>, rev: int)
    requires 0 <= rev && LogInv(v, rev)
    requires stamped.current.id == was.current.id && rev < stamped.committed.rev
    ensures CheckOne(cmd, stamped, v) ==
            if CheckOne(cmd, was, v) == Committed then RevMismatch(was.current.id) else CheckOne(cmd, was, v)
  {
    LatestRevIsGreatest(v, was.current.id, rev);
  }

  lemma {:induction false} StagedNext(cmds: seq<SubCmd>, ctxs: seq<StateCtx>, i: nat, entries: seq<StateCtx>, rev: int, now: int)
    requires i < |cmds| == |ctxs|
    ensures var init := Staged(cmds, ctxs, i, entries, rev, now);
            Staged(cmds, ctxs, i + 1, entries, rev, now) ==
            if cmds[i].Noop? then init else init + [StageOf(cmds[i], ctxs[i], entries, rev + |init| + 1, now)]
  {
  }

  // What other clients publish: entries and their revision counter afterwards.
  datatype Batch = Batch(entries: seq<StateCtx>, rev: int)

  predicate Newer(b: Batch, rev: int) {
    && rev <= b.rev
    && (forall i | 0 <= i < |b.entries| :: rev < b.entries[i].committed.rev <= b.rev)
    && forall i, j | 0 <= i < j < |b.entries| :: b.entries[i].committed.rev < b.entries[j].committed.rev
  }

  /** filterStatesWithID: the kept states move to the front of the same slice. */
  method FilterStatesWithID(states: seq<State>, id: Text) returns (r: seq<State>)
    ensures r == Without(states, id)
  {
    var buf, n := states, 0;
    for i := 0 to |states|
      invariant n <= i && |buf| == |states|
      invariant buf[..n] == Without(states[..i], id) && buf[i..] == states[i..]
    {
      assert states[..i + 1][..i] == states[..i] && buf[i] == buf[i..][0] == states[i];
      if states[i].id != id {
        buf := buf[n := states[i]];
        n := n + 1;
      }
    }
    assert states[..|states|] == states;
    r := buf[..n];
  }

  /** The inner loop of the scan over one batch. */
  method ScanBatch(states: seq<State>, batch: seq<State>, q: seq<Dict>, latestOnly: bool) returns (r: seq<State>)
    ensures r == Scan(states, batch, q, latestOnly)
  {
    r := states;
    for i := 0 to |batch|
      invariant r == Scan(states, batch[..i], q, latestOnly)
    {
      assert batch[..i + 1][..i] == batch[..i];
      var ok := DriverMatchLabels(batch[i], q);
      if !ok {
        continue;
      }
      if latestOnly {
        r := FilterStatesWithID(r, batch[i].id);
      }
      r := r + [batch[i]];
    }
    assert batch[..|batch|] == batch;
  }

  class StateLog {
    var rev: int
    var entries: seq<StateCtx>
    var changes: seq<StateCtx>

    ghost function V(): seq<State>
      reads this
    {
      Published(entries)
    }

    ghost predicate Valid()
      reads this
    {
      0 <= rev && LogInv(V(), rev)
    }

    constructor ()
      ensures Valid() && rev == 0 && entries == [] && changes == []
    {
      rev, entries, changes := 0, [], [];
    }

    method GetLatestByID(id: Text) returns (r: Option<StateCtx>, since: int)
      ensures r == Latest(entries, id) && since == LatestRev(V(), id)
    {
      LatestPublished(entries, id);
      since := 0;
      var i := |entries| - 1;
      assert entries[..|entries|] == entries;
      while i >= 0
        invariant -1 <= i < |entries|
        invariant Latest(entries, id) == Latest(entries[..i + 1], id)
      {
        assert entries[..i + 1][..i] == entries[..i];
        if entries[i].committed.id == id {
          return Some(entries[i]), entries[i].committed.rev;
        }
        i := i - 1;
      }
      return None, 0;
    }

    /** The entry of this ID at this revision. */
    method GetByIDAndRev(id: Text, rev: int) returns (r: Option<StateCtx>)
      ensures r.Some? ==> r.value in entries && r.value.committed.id == id && r.value.committed.rev == rev
      ensures r.None? ==> forall e | e in entries :: e.committed.id != id || e.committed.rev != rev
    {
      var i := |entries| - 1;
      while i >= 0
        invariant -1 <= i < |entries|
        invariant forall k | i < k < |entries| :: entries[k].committed.id != id || entries[k].committed.rev != rev
      {
        if entries[i].committed.id == id && entries[i].committed.rev == rev {
          return Some(entries[i]);
        }
        i := i - 1;
      }
      return None;
    }

    /** Stages one change and stamps the caller's context with it. */
    method Append(ctx: Cell, now: int)
      modifies this`rev, this`changes, ctx
      ensures rev == old(rev) + 1
      ensures var e := Entry(Latest(entries, old(ctx.v.current.id)), old(ctx.v), rev, now);
              changes == old(changes) + [e] && ctx.v == Stamped(old(ctx.v), e)
    {
      var committedT, _ := GetLatestByID(ctx.v.current.id);
      rev := rev + 1;
      var e := Entry(committedT, ctx.v, rev, now);
      changes := changes + [e];
      ctx.v := Stamped(ctx.v, e);
    }

    /** Publishes the staged changes; they are already in revision order. */
    method CommitChanges()
      requires Valid() && LogInv(V() + Published(changes), rev)
      modifies this`entries, this`changes
      ensures entries == old(entries) + old(changes) && changes == [] && Valid()
    {
      PublishedConcat(entries, changes);
      entries := entries + changes;
      changes := [];
    }

    method Rollback()
      modifies this`changes
      ensures changes == []
    {
      changes := [];
    }

    method GetLatestByLabels(q: seq<Dict>) returns (r: Option<State>, next: int)
      requires Valid()
      ensures r.Some? ==> r.value in V() && DriverMatches(r.value, q) && next == r.value.rev
      ensures r.None? ==> next == 0
      ensures forall x | x in V() && DriverMatches(x, q) :: r.Some? && x.rev <= next
    {
      ghost var v := V();
      var i := |entries| - 1;
      while i >= 0
        invariant -1 <= i < |entries|
        invariant forall k | i < k < |v| :: !DriverMatches(v[k], q)
      {
        var ok := DriverMatchLabels(entries[i].committed, q);
        assert entries[i].committed == v[i];
        if ok {
          return Some(entries[i].committed), entries[i].committed.rev;
        }
        i := i - 1;
      }
      return None, 0;
    }

    /** The next `limit` states past `since`, and the cursor after them. */
    method Entries(since: int, limit: nat) returns (states: seq<State>, cursor: int)
      requires Valid()
      ensures limit == 0 ==> states == [] && cursor == since
      ensures limit > 0 ==>
                && states == Select(V(), [], since, cursor) && |states| <= limit
                && (states == [] ==> cursor == since)
                && (states != [] ==> cursor == states[|states| - 1].rev)
                && (|states| < limit ==> forall x | x in V() :: x.rev <= cursor)
    {
      states, cursor := [], since;
      if limit == 0 {
        return;
      }
      ghost var v := V();
      var i := 0;
      while i < |entries|
        invariant 0 <= i <= |entries| && |states| < limit
        invariant Scanned(v, i, since, states, cursor)
      {
        var s := entries[i].committed;
        ScanEntry(v, i, since, states, cursor);
        hide Scanned;
        if s.rev <= cursor {
          i := i + 1;
          continue;
        }
        states, cursor := states + [s], s.rev;
        i := i + 1;
        if |states| == limit {
          break;
        }
      }
      ScannedEnough(v, i, since, states, cursor);
    }

    // One round of Commit's loop: Do, the two checks, and Append.
    method CommitOne(cmd: SubCmd, now: int, ghost v: seq<State>) returns (r: CommitResult)
      requires !cmd.Noop? && v == V()
      modifies this`rev, this`changes, cmd.ctx
      ensures r == CheckOne(cmd, old(cmd.ctx.v), v)
      ensures cmd.ctx.v.current.id == old(cmd.ctx.v.current.id)
      ensures r == Committed ==>
                var e := StageOf(cmd, old(cmd.ctx.v), entries, rev, now);
                && rev == old(rev) + 1 && changes == old(changes) + [e]
                && e.committed.rev == cmd.ctx.v.committed.rev == rev && e.committed.id == cmd.ctx.v.current.id
                && cmd.ctx.v.current == e.committed
                && LatestRev(v, e.committed.id) == old(cmd.ctx.v.committed.rev)
      ensures r != Committed ==>
                && rev == old(rev) && changes == old(changes)
                && cmd.ctx.v.committed == old(cmd.ctx.v.committed)
    {
      var ctx := cmd.ctx;
      if cmd.Transit? && cmd.to == [] {
        return EmptyFlow;
      }
      ctx.v := Done(cmd, ctx.v);
      if ctx.v.current.id == [] {
        return EmptyID;
      }
      var _, latest := GetLatestByID(ctx.v.current.id);
      if latest != ctx.v.committed.rev {
        return RevMismatch(ctx.v.current.id);
      }
      StampedIsPublished(Latest(entries, ctx.v.current.id), ctx.v, rev + 1, now);
      Append(ctx, now);
      return Committed;
    }

    // The loop of Commit: stage every sub-command, stopping at the first failure.
    method Stage(cmds: seq<SubCmd>, now: int) returns (r: CommitResult, ghost names: seq<int>)
      requires Valid() && changes == []
      modifies this`rev, this`changes, Cells(cmds)
      ensures old(rev) <= rev
      ensures StageEnds(cmds, old(Ctxs(cmds)), entries, now, r, old(rev), rev, changes, names)
      ensures Leaves(cmds, old(Ctxs(cmds)), Ctxs(cmds), old(V()), old(rev), rev)
    {
      ghost var v := V();
      ghost var p := Progress(cmds, Ctxs(cmds), rev, 0, {}, [], [], Ctxs(cmds));
      StagingStarts(p, v, entries, now);
      CellsAgree(cmds);
      VerdictExactly(cmds, p.ctxs, 0, {}, v);
      hide Decided, Verdict, Named;
      r, p := StageAll(p, cmds, now, v);
      names := p.names;
      if r == Committed {
        StagingDone(p, v, entries, now);
        NamesAreNamed(cmds, p.ctxs, v, entries, p.rev0, now, names, r);
      }
    }

    method StageAll(ghost p0: Progress, cmds: seq<SubCmd>, now: int, ghost v: seq<State>)
      returns (r: CommitResult, ghost p: Progress)
      requires p0.cmds == cmds && p0.i == 0 && p0.names == [] && p0.changes == changes
      requires p0.now == Ctxs(cmds) && Staging(p0, v, entries, now) && rev == p0.rev0
      requires 0 <= p0.rev0 && LogInv(v, p0.rev0) && v == V() && Agree(cmds, p0.ctxs)
      modifies this`rev, this`changes, Cells(cmds)
      ensures r == Committed ==>
                && p == p0.(i := |cmds|, seen := p.seen, changes := changes, names := p.names, now := Ctxs(cmds))
                && Staging(p, v, entries, now) && rev == p.rev0 + |p.names|
      ensures r != Committed ==>
                && r == Verdict(cmds, p0.ctxs, 0, {}, v) && p0.rev0 <= rev
                && Leaves(cmds, p0.ctxs, Ctxs(cmds), v, p0.rev0, rev)
    {
      hide Staging, Verdict, FailAt, Staged, StagedWell, Stamps, LogInv, Published, CheckOne, StageOf, OneCell, Agree, Ctxs;
      StagingVerdict(p0, v, entries, now);
      r, p := Committed, p0;
      for i := 0 to |cmds|
        invariant p == p0.(i := i, seen := p.seen, changes := changes, names := p.names, now := Ctxs(cmds))
        invariant Staging(p, v, entries, now) && rev == p.rev0 + |p.names| && r == Committed
      {
        if cmds[i].Noop? {
          StagingSkips(p, v, entries, now);
          p := p.(i := i + 1);
          continue;
        }
        StagingVerdict(p, v, entries, now);
        AgreeAt(p);
        r, p := StageOne(p, cmds, i, now, v);
        if r != Committed {
          return;
        }
      }
    }

    // The loop body: one sub-command.
    method StageOne(ghost p: Progress, cmds: seq<SubCmd>, i: nat, now: int, ghost v: seq<State>)
      returns (r: CommitResult, ghost p': Progress)
      requires p.cmds == cmds && p.i == i < |cmds| && !cmds[i].Noop? && p.changes == changes
      requires p.now == Ctxs(cmds) && Staging(p, v, entries, now) && rev == p.rev0 + |p.names|
      requires 0 <= p.rev0 && LogInv(v, p.rev0) && v == V()
      requires OneCell(p, p.ctxs)
      modifies this`rev, this`changes, cmds[i].ctx
      ensures r == Committed ==>
                && p' == p.(i := i + 1, seen := p'.seen, changes := changes, names := p'.names, now := Ctxs(cmds))
                && Staging(p', v, entries, now) && rev == p.rev0 + |p'.names|
      ensures r != Committed ==>
                && r == Verdict(cmds, p.ctxs, i, p.seen, v) && FailAt(cmds, p.ctxs, i, p.seen, v) == i
                && rev == p.rev0 + |p.names| && Stamps(cmds, p.ctxs, Ctxs(cmds), i, p.rev0, rev)
    {
      hide Staging;
      hide StageOf;
      hide CheckOne;
      hide Verdict, FailAt;
      hide LatestRev;
      StagingSizes(p, v, entries, now);
      r := CommitOne(cmds[i], now, v);
      p' := p;
      if r == Committed {
        p' := Advance(p, Ctxs(cmds), cmds[i].ctx.v, changes, v);
        AcceptOne(p, cmds[i].ctx.v, v, entries, changes, now, Ctxs(cmds));
      } else {
        RefuseOne(p, cmds[i].ctx.v, v, entries, now, Ctxs(cmds), r);
      }
    }
  }

  function Nth(others: seq<Batch>, n: nat, rev: int): Batch {
    if n < |others| then others[n] else Batch([], rev)
  }

  // The staged changes take the revisions after `rev` one by one, and each
  // names the revision its ID has in `v`.
  ghost predicate StagedWell(v: seq<State>, rev: int, changes: seq<StateCtx>, names: seq<int>) {
    && |names| == |changes|
    && forall i | 0 <= i < |changes| ::
         changes[i].committed.rev == rev + i + 1 && names[i] == LatestRev(v, changes[i].committed.id)
  }

  // Commit's loop before sub-command i: the contexts as they were (ctxs) and are
  // (now), those already used (seen), the staged changes and the names they gave.
  datatype Progress = Progress(
    cmds: seq<SubCmd>, ctxs: seq<StateCtx>, rev0: int, i: nat,
    seen: set<Cell>, changes: seq<StateCtx>, names: seq<int>, now: seq<StateCtx>)

  // Unused contexts are as they were; used ones carry revisions of this commit.
  ghost predicate StampedSoFar(p: Progress) {
    && |p.cmds| == |p.ctxs| == |p.now|
    && forall k | 0 <= k < |p.cmds| && !p.cmds[k].Noop? ::
         if p.cmds[k].ctx in p.seen
         then p.rev0 < p.now[k].committed.rev <= p.rev0 + |p.names| && p.now[k].current.id == p.ctxs[k].current.id
         else p.now[k] == p.ctxs[k]
  }

  ghost predicate Staging(p: Progress, v: seq<State>, entries: seq<StateCtx>, now: int) {
    && StampedSoFar(p) && p.i <= |p.cmds|
    && Verdict(p.cmds, p.ctxs, p.i, p.seen, v) == Verdict(p.cmds, p.ctxs, 0, {}, v)
    && p.changes == Staged(p.cmds, p.ctxs, p.i, entries, p.rev0, now)
    && StagedWell(v, p.rev0, p.changes, p.names)
    && SeenSoFar(p) && FailAt(p.cmds, p.ctxs, p.i, p.seen, v) == FailAt(p.cmds, p.ctxs, 0, {}, v)
  }

  ghost predicate SeenSoFar(p: Progress) {
    forall k | 0 <= k < |p.cmds| && !p.cmds[k].Noop? :: p.cmds[k].ctx in p.seen <==> UsedBefore(p.cmds, p.cmds[k].ctx, p.i)
  }

  /** What a commit that stopped at sub-command f leaves in the contexts: those used
      before f carry a revision this commit drew, the others name what they named. */
  ghost predicate Stamps(cmds: seq<SubCmd>, ctxs: seq<StateCtx>, now: seq<StateCtx>, f: nat, rev0: int, rev: int) {
    && |cmds| == |ctxs| == |now|
    && forall k | 0 <= k < |cmds| && !cmds[k].Noop? ::
         if UsedBefore(cmds, cmds[k].ctx, f) then rev0 < now[k].committed.rev <= rev
         else now[k].committed.rev == ctxs[k].committed.rev
  }

  /** What a commit on the log v leaves in the contexts. */
  ghost predicate Leaves(cmds: seq<SubCmd>, ctxs: seq<StateCtx>, now: seq<StateCtx>, v: seq<State>, rev0: int, rev: int) {
    |cmds| == |ctxs| && Stamps(cmds, ctxs, now, FailAt(cmds, ctxs, 0, {}, v), rev0, rev)
  }

  // What the sub-command's check says about the whole commit.
  lemma VerdictStep(p: Progress, v: seq<State>, r: CommitResult)
    requires StampedSoFar(p) && p.i < |p.cmds| && !p.cmds[p.i].Noop?
    requires 0 <= p.rev0 && LogInv(v, p.rev0) && r == CheckOne(p.cmds[p.i], p.now[p.i], v)
    ensures r == Committed ==>
              && p.cmds[p.i].ctx !in p.seen && p.now[p.i] == p.ctxs[p.i]
              && Verdict(p.cmds, p.ctxs, p.i, p.seen, v) == Verdict(p.cmds, p.ctxs, p.i + 1, p.seen + {p.cmds[p.i].ctx}, v)
              && FailAt(p.cmds, p.ctxs, p.i, p.seen, v) == FailAt(p.cmds, p.ctxs, p.i + 1, p.seen + {p.cmds[p.i].ctx}, v)
    ensures r != Committed ==> r == Verdict(p.cmds, p.ctxs, p.i, p.seen, v) && FailAt(p.cmds, p.ctxs, p.i, p.seen, v) == p.i
  {
    VerdictNext(p.cmds, p.ctxs, p.i, p.seen, v);
    FailAtNext(p.cmds, p.ctxs, p.i, p.seen, v);
    if p.cmds[p.i].ctx in p.seen {
      ReusedFails(p.cmds[p.i], p.ctxs[p.i], p.now[p.i], v, p.rev0);
    }
  }

  // The contexts after the sub-command's context became ctx'.
  ghost predicate Touched(p: Progress, now': seq<StateCtx>, ctx': StateCtx) {
    && p.i < |p.cmds| == |p.now| == |now'| && !p.cmds[p.i].Noop?
    && forall k | 0 <= k < |p.cmds| && !p.cmds[k].Noop? ::
         now'[k] == if p.cmds[k].ctx == p.cmds[p.i].ctx then ctx' else p.now[k]
  }

  lemma StampNext(p: Progress, now': seq<StateCtx>, ctx': StateCtx, name: int)
    requires StampedSoFar(p) && Touched(p, now', ctx')
    requires forall k | 0 <= k < |p.cmds| && !p.cmds[k].Noop? && p.cmds[k].ctx == p.cmds[p.i].ctx ::
               p.ctxs[k] == p.ctxs[p.i]
    requires ctx'.committed.rev == p.rev0 + |p.names| + 1 && ctx'.current.id == p.ctxs[p.i].current.id
    ensures StampedSoFar(p.(seen := p.seen + {p.cmds[p.i].ctx}, now := now', names := p.names + [name]))
  {
  }

  lemma SeenNext(p: Progress)
    requires SeenSoFar(p) && p.i < |p.cmds|
    ensures p.cmds[p.i].Noop? ==> SeenSoFar(p.(i := p.i + 1))
    ensures !p.cmds[p.i].Noop? ==> SeenSoFar(p.(i := p.i + 1, seen := p.seen + {p.cmds[p.i].ctx}))
  {
    forall k | 0 <= k < |p.cmds| && !p.cmds[k].Noop?
      ensures UsedBefore(p.cmds, p.cmds[k].ctx, p.i + 1) <==>
              UsedBefore(p.cmds, p.cmds[k].ctx, p.i) || (!p.cmds[p.i].Noop? && p.cmds[k].ctx == p.cmds[p.i].ctx)
    {
    }
  }

  lemma StampBurnt(p: Progress, now': seq<StateCtx>, ctx': StateCtx)
    requires StampedSoFar(p) && SeenSoFar(p) && Touched(p, now', ctx')
    requires forall k | 0 <= k < |p.cmds| && !p.cmds[k].Noop? && p.cmds[k].ctx == p.cmds[p.i].ctx ::
               p.now[k] == p.now[p.i]
    requires ctx'.committed == p.now[p.i].committed
    ensures Stamps(p.cmds, p.ctxs, now', p.i, p.rev0, p.rev0 + |p.names|)
  {
  }

  lemma StagingStarts(p: Progress, v: seq<State>, entries: seq<StateCtx>, now: int)
    requires |p.cmds| == |p.ctxs| && p == Progress(p.cmds, p.ctxs, p.rev0, 0, {}, [], [], p.ctxs)
    ensures Staging(p, v, entries, now)
  {
  }

  lemma SameStamps(p: Progress, i: nat)
    requires StampedSoFar(p)
    ensures StampedSoFar(p.(i := i)) && |p.cmds| == |p.ctxs| == |p.now|
  {
  }

  lemma StagingSkips(p: Progress, v: seq<State>, entries: seq<StateCtx>, now: int)
    requires Staging(p, v, entries, now) && p.i < |p.cmds| && p.cmds[p.i].Noop?
    ensures Staging(p.(i := p.i + 1), v, entries, now)
  {
    hide StagedWell, StampedSoFar, SeenSoFar, CheckOne, StageOf;
    SameStamps(p, p.i + 1);
    SeenNext(p);
    FailAtNext(p.cmds, p.ctxs, p.i, p.seen, v);
    StagedNext(p.cmds, p.ctxs, p.i, entries, p.rev0, now);
    VerdictNext(p.cmds, p.ctxs, p.i, p.seen, v);
  }

  lemma StagingVerdict(p: Progress, v: seq<State>, entries: seq<StateCtx>, now: int)
    requires Staging(p, v, entries, now)
    ensures |p.cmds| == |p.ctxs| && p.i <= |p.cmds|
    ensures Verdict(p.cmds, p.ctxs, p.i, p.seen, v) == Verdict(p.cmds, p.ctxs, 0, {}, v)
    ensures FailAt(p.cmds, p.ctxs, p.i, p.seen, v) == FailAt(p.cmds, p.ctxs, 0, {}, v)
  {
  }

  lemma StagingDone(p: Progress, v: seq<State>, entries: seq<StateCtx>, now: int)
    requires Staging(p, v, entries, now) && p.i == |p.cmds|
    ensures |p.changes| == |p.names| && Verdict(p.cmds, p.ctxs, 0, {}, v) == Committed
    ensures p.changes == Staged(p.cmds, p.ctxs, |p.cmds|, entries, p.rev0, now) && StagedWell(v, p.rev0, p.changes, p.names)
    ensures Leaves(p.cmds, p.ctxs, p.now, v, p.rev0, p.rev0 + |p.names|)
  {
  }

  lemma StagingSizes(p: Progress, v: seq<State>, entries: seq<StateCtx>, now: int)
    requires Staging(p, v, entries, now)
    ensures |p.changes| == |p.names| && |p.cmds| == |p.ctxs| == |p.now|
  {
  }

  lemma StagingSeen(p: Progress, v: seq<State>, entries: seq<StateCtx>, now: int)
    requires Staging(p, v, entries, now)
    ensures SeenSoFar(p)
  {
  }

  function Advance(p: Progress, now': seq<StateCtx>, ctx': StateCtx, changes': seq<StateCtx>, v: seq<State>): Progress
    requires p.i < |p.cmds| && !p.cmds[p.i].Noop?
  {
    p.(i := p.i + 1, seen := p.seen + {p.cmds[p.i].ctx}, now := now', changes := changes',
       names := p.names + [LatestRev(v, ctx'.current.id)])
  }

  ghost predicate OneCell(p: Progress, of: seq<StateCtx>) {
    && p.i < |p.cmds| == |of| && !p.cmds[p.i].Noop?
    && forall k | 0 <= k < |p.cmds| && !p.cmds[k].Noop? && p.cmds[k].ctx == p.cmds[p.i].ctx :: of[k] == of[p.i]
  }

  // Sub-commands on one context object see one value.
  ghost predicate Agree(cmds: seq<SubCmd>, ctxs: seq<StateCtx>) {
    |cmds| == |ctxs| && forall k, m | 0 <= k < |cmds| && 0 <= m < |cmds| && !cmds[k].Noop? && !cmds[m].Noop? ::
      cmds[k].ctx == cmds[m].ctx ==> ctxs[k] == ctxs[m]
  }

  lemma CellsAgree(cmds: seq<SubCmd>)
    ensures Agree(cmds, Ctxs(cmds))
  {
  }

  lemma AgreeAt(p: Progress)
    requires Agree(p.cmds, p.ctxs) && p.i < |p.cmds| && !p.cmds[p.i].Noop?
    ensures OneCell(p, p.ctxs)
  {
  }

  lemma AcceptOne(p: Progress, ctx': StateCtx, v: seq<State>, entries: seq<StateCtx>, changes': seq<StateCtx>, now: int, now': seq<StateCtx>)
    requires Staging(p, v, entries, now) && Touched(p, now', ctx') && OneCell(p, p.ctxs)
    requires 0 <= p.rev0 && LogInv(v, p.rev0) && CheckOne(p.cmds[p.i], p.now[p.i], v) == Committed
    requires var rev := p.rev0 + |p.names| + 1;
             var e := StageOf(p.cmds[p.i], p.now[p.i], entries, rev, now);
             && changes' == p.changes + [e] && e.committed.rev == ctx'.committed.rev == rev
             && e.committed.id == ctx'.current.id == p.now[p.i].current.id
    ensures Staging(Advance(p, now', ctx', changes', v), v, entries, now)
  {
    hide StageOf;
    hide CheckOne;
    hide Verdict;
    hide LatestRev;
    hide Staged;
    hide StagedWell;
    hide LogInv;
    hide FailAt;
    StagingSizes(p, v, entries, now);
    StagingSeen(p, v, entries, now);
    SeenNext(p);
    hide SeenSoFar;
    VerdictStep(p, v, Committed);
    StagedNext(p.cmds, p.ctxs, p.i, entries, p.rev0, now);
    StampNext(p, now', ctx', LatestRev(v, ctx'.current.id));
    StagedWellNext(v, p.rev0, p.changes, p.names, changes'[|p.changes|]);
  }

  lemma RefuseOne(p: Progress, ctx': StateCtx, v: seq<State>, entries: seq<StateCtx>, now: int, now': seq<StateCtx>, r: CommitResult)
    requires Staging(p, v, entries, now) && Touched(p, now', ctx') && OneCell(p, p.now)
    requires 0 <= p.rev0 && LogInv(v, p.rev0) && r == CheckOne(p.cmds[p.i], p.now[p.i], v) && r != Committed
    requires ctx'.committed == p.now[p.i].committed
    ensures r == Verdict(p.cmds, p.ctxs, p.i, p.seen, v) && FailAt(p.cmds, p.ctxs, p.i, p.seen, v) == p.i
    ensures Stamps(p.cmds, p.ctxs, now', p.i, p.rev0, p.rev0 + |p.names|)
  {
    VerdictStep(p, v, r);
    StampBurnt(p, now', ctx');
  }

  lemma StagedWellNext(v: seq<State>, rev: int, changes: seq<StateCtx>, names: seq<int>, e: StateCtx)
    requires StagedWell(v, rev, changes, names) && e.committed.rev == rev + |changes| + 1
    ensures StagedWell(v, rev, changes + [e], names + [LatestRev(v, e.committed.id)])
  {
  }

  lemma StagedIsLog(v: seq<State>, rev: int, changes: seq<StateCtx>, names: seq<int>)
    requires 0 <= rev && LogInv(v, rev) && StagedWell(v, rev, changes, names)
    ensures LogInv(v + Published(changes), rev + |changes|)
    ensures Accepted(v, Published(changes), names)
  {
  }

  lemma NewestBelow(v: seq<State>, rev: int, id: Text)
    requires 0 <= rev && LogInv(v, rev)
    ensures LatestRev(v, id) <= rev
  {
    LatestRevIsGreatest(v, id, rev);
  }

  lemma NewestIsStart(v: seq<State>, q: seq<Dict>, newest: Option<State>, lo: int)
    requires newest.Some? ==> newest.value in v && DriverMatches(newest.value, q) && lo == newest.value.rev - 1
    requires newest.None? ==> lo == 0
    requires forall x | x in v && DriverMatches(x, q) :: newest.Some? && x.rev <= newest.value.rev
    ensures StartsAtNewest(v, q, lo)
  {
    forall i: nat | IsMatch(v, q, i) ensures newest.Some? && v[i].rev <= lo + 1 {
      assert v[i] in v;
    }
    if newest.Some? {
      var i :| 0 <= i < |v| && v[i] == newest.value;
      assert IsMatch(v, q, i);
    }
  }

  // How Stage ends, with the log's entries as they still are.
  ghost predicate StageEnds(cmds: seq<SubCmd>, ctxs: seq<StateCtx>, entries: seq<StateCtx>, now: int, r: CommitResult,
                            rev0: int, rev: int, changes: seq<StateCtx>, names: seq<int>) {
    var v := Published(entries);
    && Decided(cmds, ctxs, v, r) && r == Verdict(cmds, ctxs, 0, {}, v)
    && (r == Committed ==>
          && rev == rev0 + |changes| && changes == Staged(cmds, ctxs, |cmds|, entries, rev0, now)
          && StagedWell(v, rev0, changes, names) && names == Named(cmds, ctxs, |cmds|))
  }

  // The log before a commit: its entries, its revision counter, and what they named.
  datatype Ledger = Ledger(entries: seq<StateCtx>, rev: int, named: seq<int>)

  /** The outcome r of a commit of sub-commands whose contexts were ctxs: refused for
      the first that does not pass, with the log as it was, or accepted, with one entry
      for each that publishes, each naming the latest revision of its ID. */
  ghost predicate Outcome(cmds: seq<SubCmd>, ctxs: seq<StateCtx>, now: int, r: CommitResult, was: Ledger,
                          entries: seq<StateCtx>, named: seq<int>) {
    var v := Published(was.entries);
    && Decided(cmds, ctxs, v, r) && r == Verdict(cmds, ctxs, 0, {}, v)
    && if r != Committed then entries == was.entries && named == was.named
       else
         var staged, names := Staged(cmds, ctxs, |cmds|, was.entries, was.rev, now), Named(cmds, ctxs, |cmds|);
         && entries == was.entries + staged && named == was.named + names
         && Accepted(v, Published(staged), names)
  }

  lemma {:induction false} RefusedOutcome(cmds: seq<SubCmd>, ctxs: seq<StateCtx>, now: int, r: CommitResult, was: Ledger,
                                          rev: int, changes: seq<StateCtx>, names: seq<int>)
    requires StageEnds(cmds, ctxs, was.entries, now, r, was.rev, rev, changes, names) && r != Committed
    requires LogInv(Published(was.entries), was.rev) && was.rev <= rev
    ensures Outcome(cmds, ctxs, now, r, was, was.entries, was.named) && LogInv(Published(was.entries), rev)
  {
  }

  lemma {:induction false} AcceptedOutcome(cmds: seq<SubCmd>, ctxs: seq<StateCtx>, now: int, was: Ledger,
                                           rev: int, changes: seq<StateCtx>, names: seq<int>)
    requires StageEnds(cmds, ctxs, was.entries, now, Committed, was.rev, rev, changes, names)
    requires 0 <= was.rev && LogInv(Published(was.entries), was.rev)
    ensures Outcome(cmds, ctxs, now, Committed, was, was.entries + changes, was.named + names) && |names| == |changes|
    ensures LogInv(Published(was.entries) + Published(changes), rev) && LogInv(Published(was.entries), rev)
  {
    StagedIsLog(Published(was.entries), was.rev, changes, names);
    hide Staged, Verdict, Decided, Named, LogInv;
  }

  class Driver {
    const stateLog: StateLog
    // named[i] is the revision the commit of entry i expected for its ID
    ghost var named: seq<int>

    ghost predicate Valid()
      reads this, stateLog
    {
      stateLog.Valid() && stateLog.changes == [] && |named| == |stateLog.entries|
    }

    constructor ()
      ensures Valid() && fresh(stateLog) && stateLog.entries == [] && named == []
    {
      stateLog := new StateLog();
      named := [];
    }

    /** Accepts exactly when every sub-command passes, and then publishes one entry
        per committable sub-command; a refused commit publishes nothing, whatever
        it stamped into the caller's contexts. */
    method Commit(cmds: seq<SubCmd>, now: int) returns (r: CommitResult)
      requires Valid()
      modifies this, stateLog, Cells(cmds)
      ensures Valid() && old(stateLog.rev) <= stateLog.rev
      ensures Outcome(cmds, old(Ctxs(cmds)), now, r, Ledger(old(stateLog.entries), old(stateLog.rev), old(named)), stateLog.entries, named)
      ensures Leaves(cmds, old(Ctxs(cmds)), Ctxs(cmds), old(stateLog.V()), old(stateLog.rev), stateLog.rev)
    {
      ghost var was, ctxs := Ledger(stateLog.entries, stateLog.rev, named), Ctxs(cmds);
      ghost var names;
      hide StageEnds, Leaves, Outcome, Ctxs, Published, LogInv;
      r, names := stateLog.Stage(cmds, now);
      if r != Committed {
        RefusedOutcome(cmds, ctxs, now, r, was, stateLog.rev, stateLog.changes, names);
        stateLog.Rollback();
        return;
      }
      AcceptedOutcome(cmds, ctxs, now, was, stateLog.rev, stateLog.changes, names);
      Publish(names);
    }

    // The end of an accepted commit.
    method Publish(ghost names: seq<int>)
      requires stateLog.Valid() && |named| == |stateLog.entries| && |names| == |stateLog.changes|
      requires LogInv(stateLog.V() + Published(stateLog.changes), stateLog.rev)
      modifies this`named, stateLog`entries, stateLog`changes
      ensures Valid() && named == old(named) + names
      ensures stateLog.entries == old(stateLog.entries) + old(stateLog.changes)
      ensures stateLog.V() == old(stateLog.V()) + Published(old(stateLog.changes))
    {
      PublishedConcat(stateLog.entries, stateLog.changes);
      hide Published, LogInv;
      stateLog.CommitChanges();
      named := named + names;
    }

    /** Other clients' commits between two critical sections of a scan: any
        newer states and any burnt revisions. */
    method OthersCommit(batch: Batch)
      requires Valid()
      modifies this, stateLog
      ensures Valid() && old(stateLog.V()) <= stateLog.V() && old(stateLog.rev) <= stateLog.rev
      ensures forall i | |old(stateLog.V())| <= i < |stateLog.V()| :: old(stateLog.rev) < stateLog.V()[i].rev
    {
      if !Newer(batch, stateLog.rev) {
        return;
      }
      PublishedConcat(stateLog.entries, batch.entries);
      stateLog.entries := stateLog.entries + batch.entries;
      stateLog.rev := batch.rev;
      named := named + seq(|batch.entries|, _ => 0);
    }

    /** The batched scan.  `others` is what other clients commit while it runs. */
    method GetStates(q: seq<Dict>, since: int, limit: nat, latestOnly: bool, others: seq<Batch>) returns (p: Page)
      requires Valid() && -1 <= since
      modifies this, stateLog
      ensures Valid() && old(stateLog.V()) <= stateLog.V() && old(stateLog.rev) <= stateLog.rev
      ensures 0 < limit && 0 <= since ==> Answered(stateLog.V(), q, since, limit, old(stateLog.rev), latestOnly, p)
      ensures 0 < limit && since == -1 ==> exists lo ::
                StartsAtNewest(old(stateLog.V()), q, lo) && Answered(stateLog.V(), q, lo, limit, old(stateLog.rev), latestOnly, p)
    {
      var states, cursor := [], since;
      ghost var lo := since;
      ghost var newest0: Option<State> := None;
      if cursor == -1 {
        var newest;
        newest, cursor := stateLog.GetLatestByLabels(q);
        newest0 := newest;
        lo := cursor;
        if newest.Some? {
          states := [newest.value];
          lo := cursor - 1;
          NewestAlone(stateLog.V(), q, newest.value);
          FoldOne(newest.value, latestOnly);
        }
      }
      if since == -1 {
        NewestIsStart(stateLog.V(), q, newest0, lo);
      }
      if cursor == lo {
        SelectEmpty(stateLog.V(), q, lo, lo);
      }
      p := ScanLog(q, states, lo, cursor, limit, latestOnly, others);
    }

    // GetStates from the reading of untilRev on.
    method ScanLog(q: seq<Dict>, states0: seq<State>, ghost lo: int, cursor0: int, limit: nat, latestOnly: bool, others: seq<Batch>)
      returns (p: Page)
      requires Valid() && lo <= cursor0 && (cursor0 == lo || cursor0 <= stateLog.rev)
      requires states0 == Fold(Select(stateLog.V(), q, lo, cursor0), latestOnly) && |states0| <= 1
      modifies this, stateLog
      ensures Valid() && old(stateLog.V()) <= stateLog.V() && old(stateLog.rev) <= stateLog.rev
      ensures 0 < limit ==> Answered(stateLog.V(), q, lo, limit, old(stateLog.rev), latestOnly, p)
    {
      var states, cursor := states0, cursor0;
      ghost var v0, rev0 := stateLog.V(), stateLog.rev;
      OthersCommit(Nth(others, 0, stateLog.rev));
      AnswerStable(v0, stateLog.V(), q, lo, cursor, rev0);

      var untilRev := stateLog.rev;
      var n := 1;
      while true
        invariant Valid() && old(stateLog.V()) <= stateLog.V() && old(stateLog.rev) <= untilRev <= stateLog.rev
        invariant lo <= cursor && (cursor == lo || cursor <= stateLog.rev)
        invariant states == Fold(Select(stateLog.V(), q, lo, cursor), latestOnly)
        invariant 0 < limit ==> |states| <= limit
        decreases untilRev - cursor
      {
        ghost var v := stateLog.V();
        var logStates, next := stateLog.Entries(cursor, limit + 1);
        if |logStates| == 0 {
          if 0 < limit {
            AtHead(v, q, latestOnly, lo, cursor, stateLog.rev, limit, old(stateLog.rev));
          }
          return Page(states, false);
        }
        states := ScanBatch(states, logStates, q, latestOnly);
        Advanced(v, q, latestOnly, lo, cursor, next, stateLog.rev);
        cursor := next;
        if 0 < limit {
          ReachedEnd(v, q, latestOnly, lo, cursor, limit, old(stateLog.rev));
        }

        if |states| >= limit {
          return Page(states[..limit], |states| > limit);
        } else if cursor >= untilRev {
          return Page(states, false);
        }
        v0, rev0 := stateLog.V(), stateLog.rev;
        OthersCommit(Nth(others, n, stateLog.rev));
        AnswerStable(v0, stateLog.V(), q, lo, cursor, rev0);
        n := n + 1;
      }
    }
  }
}
