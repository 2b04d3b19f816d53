/** What a refused commit of memdriver/driver.go leaves behind, and what one with
    two sub-commands on one ID does to the history. */
module MemCommit {
  import opened States
  import opened RevLog
  import opened MemLog
  import opened MemDriver

  // The contexts still name what they named: the commit can be tried again.
  ghost predicate Unstamped(cmds: seq<SubCmd>, ctxs: seq<StateCtx>, now: seq<StateCtx>)
    requires |cmds| == |ctxs| == |now|
  {
    forall k | 0 <= k < |cmds| && !cmds[k].Noop? :: now[k].committed.rev == ctxs[k].committed.rev
  }

  ghost predicate NoneBefore(cmds: seq<SubCmd>, f: nat) {
    forall j | 0 <= j < f && j < |cmds| :: cmds[j].Noop?
  }

  /** A context used before the failing sub-command carries a burnt revision: no
      commit on it is accepted, at once or after anything else is published. */
  lemma RefusedCommitBurns(cmds: seq<SubCmd>, ctxs: seq<StateCtx>, now: seq<StateCtx>, v: seq<State>, more: seq<State>,
                           rev0: int, rev: int, rev': int, k: nat, id: Text)
    requires 0 <= rev0 <= rev && LogInv(v, rev0) && LogInv(v + more, rev')
    requires forall i | 0 <= i < |more| :: rev < more[i].rev
    requires Leaves(cmds, ctxs, now, v, rev0, rev)
    requires k < |cmds| && !cmds[k].Noop? && UsedBefore(cmds, cmds[k].ctx, FailAt(cmds, ctxs, 0, {}, v))
    ensures LatestRev(v + more, id) != now[k].committed.rev
  {
    BurntNameIsRefused(v, more, rev, rev', id, now[k].committed.rev);
  }

  lemma UsedIsChanged(cmds: seq<SubCmd>, ctxs: seq<StateCtx>, now: seq<StateCtx>, v: seq<State>, rev0: int, rev: int, j: nat)
    requires 0 <= rev0 && LogInv(v, rev0) && |cmds| == |ctxs|
    requires Leaves(cmds, ctxs, now, v, rev0, rev)
    requires j < FailAt(cmds, ctxs, 0, {}, v) && !cmds[j].Noop?
    ensures now[j].committed.rev != ctxs[j].committed.rev
  {
    AcceptedBefore(cmds, ctxs, 0, {}, v, j);
    NewestBelow(v, rev0, ctxs[j].current.id);
    assert UsedBefore(cmds, cmds[j].ctx, FailAt(cmds, ctxs, 0, {}, v));
  }

  /** A refused commit leaves every context as retryable as it was exactly when the
      first sub-command that commits anything is the one that fails. */
  lemma RefusedIsRetryableExactly(cmds: seq<SubCmd>, ctxs: seq<StateCtx>, now: seq<StateCtx>, v: seq<State>, rev0: int, rev: int)
    requires 0 <= rev0 && LogInv(v, rev0) && |cmds| == |ctxs| && Verdict(cmds, ctxs, 0, {}, v) != Committed
    requires Leaves(cmds, ctxs, now, v, rev0, rev)
    ensures FailAt(cmds, ctxs, 0, {}, v) < |cmds|
    ensures Unstamped(cmds, ctxs, now) <==> NoneBefore(cmds, FailAt(cmds, ctxs, 0, {}, v))
  {
    var f := FailAt(cmds, ctxs, 0, {}, v);
    FailAtVerdict(cmds, ctxs, 0, {}, v);
    if !NoneBefore(cmds, f) {
      var j :| 0 <= j < f && j < |cmds| && !cmds[j].Noop?;
      UsedIsChanged(cmds, ctxs, now, v, rev0, rev, j);
    }
  }

  // ------------------------------------------------------------- a commit that fails half-way

  function Ctx(id: Text, committedRev: int): StateCtx {
    ZERO_CTX.(current := ZERO_STATE.(id := id), committed := ZERO_STATE.(id := id, rev := committedRev))
  }

  lemma SecondFails(a: Cell, b: Cell)
    requires a != b
    ensures var cmds, ctxs := [Park(a, map[]), Park(b, map[])], [Ctx("x", 0), Ctx("y", 7)];
            Verdict(cmds, ctxs, 0, {}, []) == RevMismatch("y") && FailAt(cmds, ctxs, 0, {}, []) == 1
            && UsedBefore(cmds, a, 1)
  {
    var cmds, ctxs := [Park(a, map[]), Park(b, map[])], [Ctx("x", 0), Ctx("y", 7)];
    VerdictNext(cmds, ctxs, 0, {}, []);
    VerdictNext(cmds, ctxs, 1, {a}, []);
    FailAtNext(cmds, ctxs, 0, {}, []);
    FailAtNext(cmds, ctxs, 1, {a}, []);
    assert {} + {a} == {a};
    assert cmds[0].ctx == a;
  }

  /** On an empty driver: a new state and one with a wrong name.  Nothing is
      published, and the new state's context names a revision that never will be. */
  method CommitHalfway() returns (d: Driver, a: Cell)
    ensures d.Valid() && d.stateLog.entries == [] && 0 < a.v.committed.rev <= d.stateLog.rev
  {
    d := new Driver();
    a := new Cell(Ctx("x", 0));
    var b := new Cell(Ctx("y", 7));
    var cmds := [Park(a, map[]), Park(b, map[])];
    assert Ctxs(cmds) == [Ctx("x", 0), Ctx("y", 7)];
    SecondFails(a, b);
    ghost var rev0 := d.stateLog.rev;
    assert d.stateLog.V() == [];
    var r := d.Commit(cmds, 0);
    assert UsedBefore(cmds, cmds[0].ctx, 1);
  }

  // ------------------------------------------------------------- one ID twice

  /** Two contexts of one new ID in one commit: the driver accepts both sub-commands,
      and the history it publishes is not linear. */
  lemma OneIDTwiceIsAccepted(a: Cell, b: Cell, now: int)
    requires a != b
    ensures var cmds, ctxs := [Park(a, map[]), Park(b, map[])], [Ctx("x", 0), Ctx("x", 0)];
            var batch := Published(Staged(cmds, ctxs, 2, [], 0, now));
            && Verdict(cmds, ctxs, 0, {}, []) == Committed
            && Accepted([], batch, [0, 0]) && !Linear(batch, [0, 0])
  {
    var cmds, ctxs := [Park(a, map[]), Park(b, map[])], [Ctx("x", 0), Ctx("x", 0)];
    BothAccepted(a, b);
    BothStaged(a, b, now);
    var batch := Published(Staged(cmds, ctxs, 2, [], 0, now));
    hide Staged, Verdict, Published;
    TwiceIsNotLinear(batch, "x");
  }

  lemma TwiceIsNotLinear(batch: seq<State>, id: Text)
    requires |batch| == 2 && batch[0].id == batch[1].id == id && batch[0].rev == 1 && batch[1].rev == 2
    ensures Accepted([], batch, [0, 0]) && !Linear(batch, [0, 0])
  {
    assert LatestRev([], id) == 0;
    SecondNamesWrong(batch, id);
  }

  lemma SecondNamesWrong(batch: seq<State>, id: Text)
    requires |batch| == 2 && batch[0].id == batch[1].id == id && batch[0].rev == 1
    ensures !Linear(batch, [0, 0])
  {
    assert batch[..1] == [batch[0]];
    assert LatestRev(batch[..1], batch[1].id) == 1;
  }

  lemma BothAccepted(a: Cell, b: Cell)
    requires a != b
    ensures Verdict([Park(a, map[]), Park(b, map[])], [Ctx("x", 0), Ctx("x", 0)], 0, {}, []) == Committed
  {
    var cmds, ctxs := [Park(a, map[]), Park(b, map[])], [Ctx("x", 0), Ctx("x", 0)];
    VerdictNext(cmds, ctxs, 0, {}, []);
    VerdictNext(cmds, ctxs, 1, {a}, []);
    assert {} + {a} == {a};
  }

  lemma BothStaged(a: Cell, b: Cell, now: int)
    ensures var batch := Published(Staged([Park(a, map[]), Park(b, map[])], [Ctx("x", 0), Ctx("x", 0)], 2, [], 0, now));
            |batch| == 2 && batch[0].id == batch[1].id == "x" && batch[0].rev == 1 && batch[1].rev == 2
  {
    var cmds, ctxs := [Park(a, map[]), Park(b, map[])], [Ctx("x", 0), Ctx("x", 0)];
    StagedNext(cmds, ctxs, 1, [], 0, now);
    StagedNext(cmds, ctxs, 0, [], 0, now);
  }

  // ------------------------------------------------------------- what is published

  // `over` wins, and what it does not mention is as in `under`.
  ghost predicate Overlays(m: Dict, over: Dict, under: Dict) {
    && (forall k | k in over :: k in m && m[k] == over[k])
    && (forall k | k in m :: k in over || (k in under && m[k] == under[k]))
    && (forall k | k in under :: k in m)
  }

  /** The first state of an ID is published as its context holds it, moved to the flow
      the sub-command names with exactly its annotations: a Transit goes there, a Park
      goes nowhere. */
  lemma NewStateIsPublished(cmd: SubCmd, ctx: StateCtx, entries: seq<StateCtx>, rev: int, now: int)
    requires !cmd.Noop? && Latest(entries, ctx.current.id).None? && ctx.committed == ZERO_STATE
    ensures var s := StageOf(cmd, ctx, entries, rev, now).committed;
            && s.id == ctx.current.id && s.rev == rev && s.committedAt == Some(now)
            && s.annotations == ctx.current.annotations && s.labels == ctx.current.labels
            && s.transition.annotations == cmd.annotations
            && (cmd.Park? ==> s.transition.to == "") && (cmd.Transit? ==> s.transition.to == cmd.to)
  {
    var none: Dict := map[];
    assert forall m: Dict :: none + m == m;
  }

  /** A later one overlays the entry before it: its flow is the sub-command's, the
      sub-command's annotations and the context's own labels and annotations win, and
      nothing of the entry before goes away. */
  lemma LaterStateOverlays(cmd: SubCmd, ctx: StateCtx, entries: seq<StateCtx>, rev: int, now: int)
    requires !cmd.Noop? && Latest(entries, ctx.current.id).Some?
    ensures var s, was := StageOf(cmd, ctx, entries, rev, now).committed, Latest(entries, ctx.current.id).value;
            && s.id == ctx.current.id && s.rev == rev && s.committedAt == Some(now)
            && (cmd.Park? ==> s.transition.to == "") && (cmd.Transit? ==> s.transition.to == cmd.to)
            && Overlays(s.labels, ctx.current.labels, was.committed.labels + ctx.committed.labels + was.current.labels)
            && Overlays(s.annotations, ctx.current.annotations, was.committed.annotations + ctx.committed.annotations + was.current.annotations)
            && Overlays(s.transition.annotations, cmd.annotations,
                        was.committed.transition.annotations + ctx.committed.transition.annotations + was.current.transition.annotations)
  {
    var was := Latest(entries, ctx.current.id).value;
    hide Overlays;
    MergeOverlays(was.committed.labels, ctx.committed.labels, was.current.labels, ctx.current.labels);
    MergeOverlays(was.committed.annotations, ctx.committed.annotations, was.current.annotations, ctx.current.annotations);
    MergeOverlays(was.committed.transition.annotations, ctx.committed.transition.annotations, was.current.transition.annotations, cmd.annotations);
  }

  lemma MergeOverlays(a: Dict, b: Dict, c: Dict, over: Dict)
    ensures Overlays(a + b + (c + over), over, a + b + c)
  {
  }
}
