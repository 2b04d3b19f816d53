/** Commit of badgerdriver/driver.go: the transaction body, and the loop that
    runs it again after Badger reports a conflict. */
module BadgerCommit {
  import opened States

  // A sub-command that publishes context number `ctx`, or one that publishes nothing.
  datatype Sub = Noop | Put(ctx: nat, validFlow: bool)

  // What the commit reads and writes of a context.
  datatype Held = Held(id: Text, committedRev: int)

  datatype Outcome = Committed | RevMismatch(id: Text) | EmptyID | EmptyFlow | Conflict

  // One run of the transaction: the latest-revision index of its snapshot, the
  // revisions it draws (one per sub-command), and whether Badger then reports a conflict.
  datatype Try = Try(db: map<Text, int>, revs: seq<int>, conflict: bool)

  function LatestRev(db: map<Text, int>, id: Text): int {
    if id in db then db[id] else 0
  }

  predicate WellFormed(cmds: seq<Sub>, ctxs: seq<Held>) {
    forall i | 0 <= i < |cmds| && cmds[i].Put? :: cmds[i].ctx < |ctxs|
  }

  /** The transaction body from sub-command i on.  It sees its own writes, and it
      stamps the caller's contexts before the transaction is known to commit. */
  function Attempt(cmds: seq<Sub>, i: nat, db: map<Text, int>, revs: seq<int>, ctxs: seq<Held>): (r: (Outcome, seq<Held>))
    requires i <= |cmds| == |revs| && WellFormed(cmds, ctxs)
    ensures |r.1| == |ctxs| && forall k | 0 <= k < |ctxs| :: r.1[k].id == ctxs[k].id
    decreases |cmds| - i
  {
    if i == |cmds| then (Committed, ctxs)
    else if cmds[i].Noop? then Attempt(cmds, i + 1, db, revs, ctxs)
    else
      var c := cmds[i].ctx;
      var id := ctxs[c].id;
      if !cmds[i].validFlow then (EmptyFlow, ctxs)
      else if id == [] then (EmptyID, ctxs)
      else if LatestRev(db, id) != ctxs[c].committedRev then (RevMismatch(id), ctxs)
      else Attempt(cmds, i + 1, db[id := revs[i]], revs, ctxs[c := Held(id, revs[i])])
  }

  // ------------------------------------------------------------- when an attempt is accepted

  // The last sub-command before i that publishes context c, or -1.
  function LastUse(cmds: seq<Sub>, i: nat, c: nat): (j: int)
    requires i <= |cmds|
    ensures -1 <= j < i
  {
    if i == 0 then -1 else if cmds[i - 1].Put? && cmds[i - 1].ctx == c then i - 1 else LastUse(cmds, i - 1, c)
  }

  // The last sub-command before i that publishes a state of this ID, or -1.
  function LastWrite(cmds: seq<Sub>, ctxs: seq<Held>, i: nat, id: Text): (j: int)
    requires i <= |cmds| && WellFormed(cmds, ctxs)
    ensures -1 <= j < i
  {
    if i == 0 then -1
    else if cmds[i - 1].Put? && ctxs[cmds[i - 1].ctx].id == id then i - 1
    else LastWrite(cmds, ctxs, i - 1, id)
  }

  /** The revision context c names when sub-command i is its turn: what it was committed
      at, or what this transaction stamped into it. */
  function NamedAt(cmds: seq<Sub>, revs: seq<int>, ctxs: seq<Held>, i: nat, c: nat): int
    requires i <= |cmds| == |revs| && c < |ctxs|
  {
    var j := LastUse(cmds, i, c);
    if j >= 0 then revs[j] else ctxs[c].committedRev
  }

  /** The latest revision of an ID then: in the database, or this transaction's own. */
  function LatestAt(cmds: seq<Sub>, db: map<Text, int>, revs: seq<int>, ctxs: seq<Held>, i: nat, id: Text): int
    requires i <= |cmds| == |revs| && WellFormed(cmds, ctxs)
  {
    var j := LastWrite(cmds, ctxs, i, id);
    if j >= 0 then revs[j] else LatestRev(db, id)
  }

  /** What a transaction asks of sub-command k. */
  ghost predicate Passes(cmds: seq<Sub>, db: map<Text, int>, revs: seq<int>, ctxs: seq<Held>, k: nat)
    requires k < |cmds| == |revs| && WellFormed(cmds, ctxs)
  {
    cmds[k].Put? ==>
      && cmds[k].validFlow && ctxs[cmds[k].ctx].id != ""
      && NamedAt(cmds, revs, ctxs, k, cmds[k].ctx) == LatestAt(cmds, db, revs, ctxs, k, ctxs[cmds[k].ctx].id)
  }

  ghost predicate PassesUpTo(cmds: seq<Sub>, db: map<Text, int>, revs: seq<int>, ctxs: seq<Held>, n: nat)
    requires n <= |cmds| == |revs| && WellFormed(cmds, ctxs)
  {
    forall k: nat {:trigger Passes(cmds, db, revs, ctxs, k)} | k < n :: Passes(cmds, db, revs, ctxs, k)
  }

  // Why a sub-command is refused; a missing flow is noticed before a missing ID.
  ghost predicate RefusedFor(cmd: Sub, ctxs: seq<Held>, r: Outcome)
    requires cmd.Put? ==> cmd.ctx < |ctxs|
  {
    cmd.Put? &&
    r == if !cmd.validFlow then EmptyFlow
         else if ctxs[cmd.ctx].id == "" then EmptyID
         else RevMismatch(ctxs[cmd.ctx].id)
  }

  ghost predicate FailsFirst(cmds: seq<Sub>, db: map<Text, int>, revs: seq<int>, ctxs: seq<Held>, f: int)
    requires |cmds| == |revs| && WellFormed(cmds, ctxs)
  {
    0 <= f < |cmds| && PassesUpTo(cmds, db, revs, ctxs, f) && !Passes(cmds, db, revs, ctxs, f)
  }

  /** The transaction body is accepted exactly when every sub-command passes, and
      otherwise refused for the first that does not. */
  ghost predicate Decided(cmds: seq<Sub>, db: map<Text, int>, revs: seq<int>, ctxs: seq<Held>, r: Outcome)
    requires |cmds| == |revs| && WellFormed(cmds, ctxs)
  {
    && (r == Committed <==> PassesUpTo(cmds, db, revs, ctxs, |cmds|))
    && (r != Committed ==> exists f :: FailsFirst(cmds, db, revs, ctxs, f) && RefusedFor(cmds[f], ctxs, r))
  }

  // What the transaction reads before sub-command i, from what it started with.
  ghost predicate Overlaid(cmds: seq<Sub>, db: map<Text, int>, revs: seq<int>, ctxs: seq<Held>, i: nat, db': map<Text, int>, ctxs': seq<Held>)
    requires i <= |cmds| == |revs| && WellFormed(cmds, ctxs)
  {
    && |ctxs'| == |ctxs|
    && (forall c | 0 <= c < |ctxs| :: ctxs'[c] == Held(ctxs[c].id, NamedAt(cmds, revs, ctxs, i, c)))
    && forall id :: LatestRev(db', id) == LatestAt(cmds, db, revs, ctxs, i, id)
  }

  lemma {:induction false} OverlaidNext(cmds: seq<Sub>, db: map<Text, int>, revs: seq<int>, ctxs: seq<Held>, i: nat, db': map<Text, int>, ctxs': seq<Held>)
    requires i < |cmds| == |revs| && WellFormed(cmds, ctxs) && Overlaid(cmds, db, revs, ctxs, i, db', ctxs')
    ensures cmds[i].Noop? ==> Overlaid(cmds, db, revs, ctxs, i + 1, db', ctxs')
    ensures cmds[i].Put? ==>
              var c, id := cmds[i].ctx, ctxs[cmds[i].ctx].id;
              Overlaid(cmds, db, revs, ctxs, i + 1, db'[id := revs[i]], ctxs'[c := Held(id, revs[i])])
  {
    if cmds[i].Put? {
      var c, id := cmds[i].ctx, ctxs[cmds[i].ctx].id;
      var db1, ctxs1 := db'[id := revs[i]], ctxs'[c := Held(id, revs[i])];
      forall x ensures LatestRev(db1, x) == LatestAt(cmds, db, revs, ctxs, i + 1, x) {
        assert LatestRev(db', x) == LatestAt(cmds, db, revs, ctxs, i, x);
      }
      forall d | 0 <= d < |ctxs| ensures ctxs1[d] == Held(ctxs[d].id, NamedAt(cmds, revs, ctxs, i + 1, d)) {
        assert ctxs'[d] == Held(ctxs[d].id, NamedAt(cmds, revs, ctxs, i, d));
      }
    } else {
      forall x ensures LatestRev(db', x) == LatestAt(cmds, db, revs, ctxs, i + 1, x) {
        assert LatestRev(db', x) == LatestAt(cmds, db, revs, ctxs, i, x);
      }
    }
  }

  lemma {:induction false} AttemptFrom(cmds: seq<Sub>, i: nat, db: map<Text, int>, revs: seq<int>, ctxs: seq<Held>, db': map<Text, int>, ctxs': seq<Held>)
    requires i <= |cmds| == |revs| && WellFormed(cmds, ctxs) && WellFormed(cmds, ctxs')
    requires Overlaid(cmds, db, revs, ctxs, i, db', ctxs') && PassesUpTo(cmds, db, revs, ctxs, i)
    ensures Decided(cmds, db, revs, ctxs, Attempt(cmds, i, db', revs, ctxs').0)
    decreases |cmds| - i
  {
    if i < |cmds| {
      OverlaidNext(cmds, db, revs, ctxs, i, db', ctxs');
      if cmds[i].Noop? {
        AttemptFrom(cmds, i + 1, db, revs, ctxs, db', ctxs');
      } else {
        var c, id := cmds[i].ctx, ctxs[cmds[i].ctx].id;
        assert ctxs'[c].id == id;
        if Passes(cmds, db, revs, ctxs, i) {
          AttemptFrom(cmds, i + 1, db, revs, ctxs, db'[id := revs[i]], ctxs'[c := Held(id, revs[i])]);
        } else {
          assert FailsFirst(cmds, db, revs, ctxs, i);
        }
      }
    }
  }

  /** The compare-and-swap, from the database and the contexts alone. */
  lemma AttemptExactly(cmds: seq<Sub>, db: map<Text, int>, revs: seq<int>, ctxs: seq<Held>)
    requires |cmds| == |revs| && WellFormed(cmds, ctxs)
    ensures Decided(cmds, db, revs, ctxs, Attempt(cmds, 0, db, revs, ctxs).0)
  {
    AttemptFrom(cmds, 0, db, revs, ctxs, db, ctxs);
  }

  predicate Tries(cmds: seq<Sub>, tries: seq<Try>) {
    |tries| == |cmds| + 1 && forall k | 0 <= k < |tries| :: |tries[k].revs| == |cmds|
  }

  /** The loop from attempt k on; at most len(Commands) retries. */
  function Loop(cmds: seq<Sub>, k: nat, tries: seq<Try>, ctxs: seq<Held>): Outcome
    requires Tries(cmds, tries) && k <= |cmds| && WellFormed(cmds, ctxs)
    decreases |cmds| - k
  {
    var (r, after) := Attempt(cmds, 0, tries[k].db, tries[k].revs, ctxs);
    if r != Committed then r
    else if !tries[k].conflict then Committed
    else if k < |cmds| then Loop(cmds, k + 1, tries, after)
    else Conflict
  }

  method Commit(cmds: seq<Sub>, tries: seq<Try>, ctxs0: seq<Held>) returns (r: Outcome)
    requires Tries(cmds, tries) && WellFormed(cmds, ctxs0)
    ensures r == Loop(cmds, 0, tries, ctxs0)
    ensures tries[0].conflict || Decided(cmds, tries[0].db, tries[0].revs, ctxs0, r)
  {
    AttemptExactly(cmds, tries[0].db, tries[0].revs, ctxs0);
    hide Decided;
    var attempt, ctxs := 0, ctxs0;
    while true
      invariant 0 <= attempt <= |cmds| && |ctxs| == |ctxs0|
      invariant Loop(cmds, 0, tries, ctxs0) == Loop(cmds, attempt, tries, ctxs)
      decreases |cmds| - attempt
    {
      var once := Attempt(cmds, 0, tries[attempt].db, tries[attempt].revs, ctxs);
      r := once.0;
      if r != Committed {
        return;
      }
      if !tries[attempt].conflict {
        return;
      }
      ctxs := once.1;
      if attempt < |cmds| {
        attempt := attempt + 1;
        continue;
      }
      return Conflict;
    }
  }

  ghost predicate FirstPut(cmds: seq<Sub>, f: nat) {
    f < |cmds| && cmds[f].Put? && forall i | 0 <= i < f :: cmds[i].Noop?
  }

  // After an attempt that ran to its end, every context used holds a revision it drew.
  lemma {:induction false} AttemptStamps(cmds: seq<Sub>, i: nat, db: map<Text, int>, revs: seq<int>, ctxs: seq<Held>, c: nat)
    requires i <= |cmds| == |revs| && WellFormed(cmds, ctxs) && c < |ctxs|
    requires Attempt(cmds, i, db, revs, ctxs).0 == Committed
    requires ctxs[c].committedRev in revs || exists k :: i <= k < |cmds| && cmds[k] == Put(c, true)
    ensures Attempt(cmds, i, db, revs, ctxs).1[c].committedRev in revs
    decreases |cmds| - i
  {
    if i < |cmds| {
      if cmds[i].Noop? {
        AttemptStamps(cmds, i + 1, db, revs, ctxs, c);
      } else {
        var d := cmds[i].ctx;
        var id := ctxs[d].id;
        AttemptStamps(cmds, i + 1, db[id := revs[i]], revs, ctxs[d := Held(id, revs[i])], c);
      }
    }
  }

  lemma {:induction false} SkipNoops(cmds: seq<Sub>, i: nat, f: nat, db: map<Text, int>, revs: seq<int>, ctxs: seq<Held>)
    requires i <= f < |cmds| == |revs| && WellFormed(cmds, ctxs) && FirstPut(cmds, f)
    ensures Attempt(cmds, i, db, revs, ctxs) == Attempt(cmds, f, db, revs, ctxs)
    decreases f - i
  {
    if i < f {
      SkipNoops(cmds, i + 1, f, db, revs, ctxs);
    }
  }

  lemma {:induction false} AllValid(cmds: seq<Sub>, i: nat, db: map<Text, int>, revs: seq<int>, ctxs: seq<Held>, k: nat)
    requires i <= k < |cmds| == |revs| && WellFormed(cmds, ctxs) && cmds[k].Put?
    requires Attempt(cmds, i, db, revs, ctxs).0 == Committed
    ensures cmds[k].validFlow && ctxs[cmds[k].ctx].id != []
    decreases k - i
  {
    if i < k {
      if cmds[i].Noop? {
        AllValid(cmds, i + 1, db, revs, ctxs, k);
      } else {
        var d := cmds[i].ctx;
        AllValid(cmds, i + 1, db[ctxs[d].id := revs[i]], revs, ctxs[d := Held(ctxs[d].id, revs[i])], k);
      }
    }
  }

  /** The retry after a conflict never commits: the first attempt left its own
      unpublished revisions in the contexts, so the second one always ends in a
      revision mismatch on the first state the commit publishes. */
  lemma ConflictIsFinal(cmds: seq<Sub>, tries: seq<Try>, ctxs: seq<Held>, f: nat)
    requires Tries(cmds, tries) && WellFormed(cmds, ctxs) && FirstPut(cmds, f)
    requires Attempt(cmds, 0, tries[0].db, tries[0].revs, ctxs).0 == Committed && tries[0].conflict
    // drawn revisions are positive, and no transaction but this one could publish them
    requires forall rev | rev in tries[0].revs :: rev > 0 && forall id | id in tries[1].db :: tries[1].db[id] != rev
    ensures Loop(cmds, 0, tries, ctxs) == RevMismatch(ctxs[cmds[f].ctx].id)
  {
    var c, after := cmds[f].ctx, Attempt(cmds, 0, tries[0].db, tries[0].revs, ctxs).1;
    AllValid(cmds, 0, tries[0].db, tries[0].revs, ctxs, f);
    assert cmds[f] == Put(c, true);
    AttemptStamps(cmds, 0, tries[0].db, tries[0].revs, ctxs, c);
    SkipNoops(cmds, 0, f, tries[1].db, tries[1].revs, after);
    assert LatestRev(tries[1].db, after[c].id) != after[c].committedRev;
  }

  /** So a commit that publishes something succeeds exactly when its first attempt
      passes and meets no conflict. */
  lemma CommittedExactly(cmds: seq<Sub>, tries: seq<Try>, ctxs: seq<Held>, f: nat)
    requires Tries(cmds, tries) && WellFormed(cmds, ctxs) && FirstPut(cmds, f)
    requires forall rev | rev in tries[0].revs :: rev > 0 && forall id | id in tries[1].db :: tries[1].db[id] != rev
    ensures Loop(cmds, 0, tries, ctxs) == Committed <==>
            !tries[0].conflict && PassesUpTo(cmds, tries[0].db, tries[0].revs, ctxs, |cmds|)
  {
    AttemptExactly(cmds, tries[0].db, tries[0].revs, ctxs);
    if tries[0].conflict && Attempt(cmds, 0, tries[0].db, tries[0].revs, ctxs).0 == Committed {
      ConflictIsFinal(cmds, tries, ctxs, f);
    }
  }

  lemma {:induction false} NoopsCommit(cmds: seq<Sub>, i: nat, db: map<Text, int>, revs: seq<int>, ctxs: seq<Held>)
    requires i <= |cmds| == |revs| && WellFormed(cmds, ctxs) && forall k | 0 <= k < |cmds| :: cmds[k].Noop?
    ensures Attempt(cmds, i, db, revs, ctxs) == (Committed, ctxs)
    decreases |cmds| - i
  {
    if i < |cmds| {
      NoopsCommit(cmds, i + 1, db, revs, ctxs);
    }
  }

  /** Retries help only a commit that publishes nothing: it succeeds as soon as
      one attempt meets no conflict. */
  lemma {:induction false} OnlyNoopsRetry(cmds: seq<Sub>, k: nat, tries: seq<Try>, ctxs: seq<Held>)
    requires Tries(cmds, tries) && k <= |cmds| && WellFormed(cmds, ctxs)
    requires forall i | 0 <= i < |cmds| :: cmds[i].Noop?
    ensures Loop(cmds, k, tries, ctxs) == Committed <==> exists j :: k <= j <= |cmds| && !tries[j].conflict
    decreases |cmds| - k
  {
    NoopsCommit(cmds, 0, tries[k].db, tries[k].revs, ctxs);
    if k < |cmds| {
      OnlyNoopsRetry(cmds, k + 1, tries, ctxs);
    }
  }
}
