/** Optimistic commits on the in-memory log (memdriver/driver.go), as values:
    what a commit of several sub-commands decides, publishes and stamps. */
module MemLog {
  import opened States
  import opened RevLog

  // ---------------------------------------------------------------- lookups

  function Published(entries: seq<StateCtx>): (v: seq<State>)
    ensures |v| == |entries|
  {
    seq(|entries|, i requires 0 <= i < |entries| => entries[i].committed)
  }

  lemma PublishedConcat(a: seq<StateCtx>, b: seq<StateCtx>)
    ensures Published(a + b) == Published(a) + Published(b)
  {
  }

  function Latest(entries: seq<StateCtx>, id: Text): Option<StateCtx> {
    if entries == [] then None
    else if entries[|entries| - 1].committed.id == id then Some(entries[|entries| - 1])
    else Latest(entries[..|entries| - 1], id)
  }

  /** The revision a commit on `id` has to name; 0 for an unknown ID. */
  function LatestRev(v: seq<State>, id: Text): int {
    if v == [] then 0
    else if v[|v| - 1].id == id then v[|v| - 1].rev
    else LatestRev(v[..|v| - 1], id)
  }

  lemma {:induction false} LatestPublished(entries: seq<StateCtx>, id: Text)
    ensures LatestRev(Published(entries), id) ==
            match Latest(entries, id) case Some(e) => e.committed.rev case None => 0
  {
    if entries != [] {
      assert Published(entries)[..|entries| - 1] == Published(entries[..|entries| - 1]);
      LatestPublished(entries[..|entries| - 1], id);
    }
  }

  /** LatestRev is the greatest revision of the ID. */
  lemma {:induction false} LatestRevIsGreatest(v: seq<State>, id: Text, rev: int)
    requires LogInv(v, rev)
    ensures 0 <= LatestRev(v, id) && (v != [] ==> LatestRev(v, id) <= v[|v| - 1].rev)
    ensures forall i | 0 <= i < |v| && v[i].id == id :: v[i].rev <= LatestRev(v, id)
    ensures LatestRev(v, id) != 0 ==> exists i :: 0 <= i < |v| && v[i].id == id && v[i].rev == LatestRev(v, id)
  {
    if v != [] && v[|v| - 1].id != id {
      var init := v[..|v| - 1];
      LatestRevIsGreatest(init, id, rev);
      if LatestRev(v, id) != 0 {
        var i :| 0 <= i < |init| && init[i].id == id && init[i].rev == LatestRev(v, id);
        assert v[i] == init[i];
      }
    }
  }

  // -------------------------------------------------------------- one commit

  datatype CommitResult = Committed | RevMismatch(id: Text) | EmptyID | EmptyFlow

  /** The entry Append stages: the previous entry of the ID with the context merged over it. */
  function Entry(prev: Option<StateCtx>, ctx: StateCtx, rev: int, now: int): StateCtx {
    var merged := CopyCtx(ctx, if prev.Some? then prev.value else ZERO_CTX);
    var current := merged.current.(committedAt := Some(now));
    var committed := CopyTo(current, merged.committed);
    StateCtx(current.(rev := rev), committed.(rev := rev), [], map[])
  }

  // What Append leaves in the caller's context.
  function Stamped(ctx: StateCtx, entry: StateCtx): StateCtx {
    ctx.(current := CopyTo(entry.committed, ctx.current),
         committed := CopyTo(entry.committed, ctx.committed),
         transitions := [])
  }

  /** The caller's context ends up holding exactly the published state. */
  lemma StampedIsPublished(prev: Option<StateCtx>, ctx: StateCtx, rev: int, now: int)
    ensures var e := Entry(prev, ctx, rev, now); Stamped(ctx, e).current == e.committed
    ensures var e := Entry(prev, ctx, rev, now);
            Stamped(ctx, e).committed.rev == rev && e.committed.id == e.current.id == ctx.current.id
  {
    CopyIsExact(Entry(prev, ctx, rev, now).committed, ctx.current);
  }

  // ---------------------------------------------------------- linear history

  /** named[i] is the revision the i-th accepted commit expected for its ID. */
  ghost predicate Linear(v: seq<State>, named: seq<int>) {
    |named| == |v| && forall i | 0 <= i < |v| :: named[i] == LatestRev(v[..i], v[i].id)
  }

  ghost predicate DistinctIDs(batch: seq<State>) {
    forall i, j | 0 <= i < j < |batch| :: batch[i].id != batch[j].id
  }

  // What the driver tests: every sub-command names the revision its ID has now.
  ghost predicate Accepted(v: seq<State>, batch: seq<State>, names: seq<int>) {
    |names| == |batch| && forall i | 0 <= i < |batch| :: names[i] == LatestRev(v, batch[i].id)
  }

  lemma {:induction false} LatestRevSkips(v: seq<State>, more: seq<State>, id: Text)
    requires forall i | 0 <= i < |more| :: more[i].id != id
    ensures LatestRev(v + more, id) == LatestRev(v, id)
  {
    if more == [] {
      assert v + more == v;
    } else {
      assert (v + more)[..|v + more| - 1] == v + more[..|more| - 1];
      LatestRevSkips(v, more[..|more| - 1], id);
    }
  }

  lemma PrefixBeforeBatch(v: seq<State>, batch: seq<State>, i: nat)
    requires i < |batch|
    ensures (v + batch)[..|v| + i] == v + batch[..i]
  {
  }

  /** Every accepted commit extends a linear history exactly when its
      sub-commands are about distinct IDs: each then names the revision that
      immediately precedes the one it creates. */
  lemma AcceptedIsLinear(v: seq<State>, named: seq<int>, batch: seq<State>, names: seq<int>, rev: int)
    requires Linear(v, named) && LogInv(v + batch, rev) && Accepted(v, batch, names)
    ensures Linear(v + batch, named + names) <==> DistinctIDs(batch)
  {
    var v', named' := v + batch, named + names;
    if DistinctIDs(batch) {
      forall k | 0 <= k < |v'| ensures named'[k] == LatestRev(v'[..k], v'[k].id) {
        if k < |v| {
          assert v'[..k] == v[..k];
        } else {
          PrefixBeforeBatch(v, batch, k - |v|);
          LatestRevSkips(v, batch[..k - |v|], v'[k].id);
        }
      }
    } else {
      var i, j :| 0 <= i < j < |batch| && batch[i].id == batch[j].id;
      DuplicateBreaks(v, batch, names, rev, i, j);
      PrefixBeforeBatch(v, batch, j);
      assert v'[|v| + j] == batch[j] && named'[|v| + j] == names[j];
    }
  }

  lemma DuplicateBreaks(v: seq<State>, batch: seq<State>, names: seq<int>, rev: int, i: nat, j: nat)
    requires LogInv(v + batch, rev) && Accepted(v, batch, names)
    requires i < j < |batch| && batch[i].id == batch[j].id
    ensures names[j] != LatestRev(v + batch[..j], batch[j].id)
  {
    var pre := v + batch[..j];
    PrefixBeforeBatch(v, batch, j);
    LogPrefix(v + batch, |v| + j, rev);
    LatestRevIsGreatest(pre, batch[j].id, rev);
    assert pre[|v| + i] == batch[i];
    LogPrefix(v + batch, |v|, rev);
    assert (v + batch)[..|v|] == v;
    LatestRevIsGreatest(v, batch[j].id, rev);
    assert (v + batch)[|v| + i] == batch[i];
    if v != [] { assert (v + batch)[|v| - 1] == v[|v| - 1]; }
  }

  lemma LogPrefix(v: seq<State>, n: nat, rev: int)
    requires LogInv(v, rev) && n <= |v|
    ensures LogInv(v[..n], rev)
  {
  }

  /** One accepted commit: the states it published and the revisions its
      sub-commands named. */
  datatype Accept = Accept(batch: seq<State>, names: seq<int>)

  function LogOf(cs: seq<Accept>): seq<State> {
    if cs == [] then [] else LogOf(cs[..|cs| - 1]) + cs[|cs| - 1].batch
  }

  function NamesOf(cs: seq<Accept>): seq<int> {
    if cs == [] then [] else NamesOf(cs[..|cs| - 1]) + cs[|cs| - 1].names
  }

  // The accepted commits of a run, each checked against the log the earlier ones made.
  ghost predicate IsHistory(cs: seq<Accept>) {
    cs == [] || (IsHistory(cs[..|cs| - 1]) && Accepted(LogOf(cs[..|cs| - 1]), cs[|cs| - 1].batch, cs[|cs| - 1].names))
  }

  lemma LinearPrefix(v: seq<State>, named: seq<int>, batch: seq<State>, names: seq<int>)
    requires Linear(v + batch, named + names) && |v| == |named|
    ensures Linear(v, named)
  {
    forall k | 0 <= k < |v| ensures named[k] == LatestRev(v[..k], v[k].id) {
      assert (v + batch)[..k] == v[..k] && (v + batch)[k] == v[k] && (named + names)[k] == named[k];
    }
  }

  lemma {:induction false} HistoryLengths(cs: seq<Accept>)
    requires IsHistory(cs)
    ensures |LogOf(cs)| == |NamesOf(cs)|
  {
    if cs != [] {
      HistoryLengths(cs[..|cs| - 1]);
    }
  }

  ghost predicate AllDistinct(cs: seq<Accept>) {
    forall i | 0 <= i < |cs| :: DistinctIDs(cs[i].batch)
  }

  lemma AllDistinctSnoc(cs: seq<Accept>)
    requires cs != []
    ensures AllDistinct(cs) <==> AllDistinct(cs[..|cs| - 1]) && DistinctIDs(cs[|cs| - 1].batch)
  {
    hide DistinctIDs;
    if AllDistinct(cs[..|cs| - 1]) && DistinctIDs(cs[|cs| - 1].batch) {
      assert forall i | 0 <= i < |cs| - 1 :: cs[i] == cs[..|cs| - 1][i];
    }
  }

  lemma LogInvBefore(v: seq<State>, batch: seq<State>, rev: int)
    requires LogInv(v + batch, rev)
    ensures LogInv(v, rev)
  {
    LogPrefix(v + batch, |v|, rev);
    assert (v + batch)[..|v|] == v;
  }

  /** Over every run of the driver: each published entry names the revision that
      immediately precedes it on its ID if and only if every accepted commit was
      about distinct IDs. */
  lemma {:induction false} HistoryIsLinear(cs: seq<Accept>, rev: int)
    requires IsHistory(cs) && LogInv(LogOf(cs), rev)
    ensures Linear(LogOf(cs), NamesOf(cs)) <==> AllDistinct(cs)
  {
    if cs != [] {
      var init, last := cs[..|cs| - 1], cs[|cs| - 1];
      HistoryLengths(init);
      AllDistinctSnoc(cs);
      hide Linear, Accepted, LogInv, DistinctIDs, AllDistinct;
      LogInvBefore(LogOf(init), last.batch, rev);
      HistoryIsLinear(init, rev);
      if Linear(LogOf(init), NamesOf(init)) {
        AcceptedIsLinear(LogOf(init), NamesOf(init), last.batch, last.names, rev);
      } else if Linear(LogOf(cs), NamesOf(cs)) {
        LinearPrefix(LogOf(init), NamesOf(init), last.batch, last.names);
      }
    }
  }

  /** In a linear history no (ID, expected revision) pair is consumed twice, so
      however often a recoverer or a delayer replays one, it commits at most once. */
  lemma ConsumedOnce(v: seq<State>, named: seq<int>, rev: int, i: nat, j: nat)
    requires LogInv(v, rev) && Linear(v, named)
    requires i < j < |v| && v[i].id == v[j].id
    ensures named[i] < v[i].rev <= named[j]
  {
    LogPrefix(v, i, rev);
    LogPrefix(v, j, rev);
    LatestRevIsGreatest(v[..i], v[i].id, rev);
    LatestRevIsGreatest(v[..j], v[j].id, rev);
    assert v[..j][i] == v[i];
    if i > 0 { assert v[..i][i - 1] == v[i - 1]; }
  }

  /** Once a newer revision of an ID is published, a commit naming an older
      revision is refused, then and at every later time. */
  lemma OlderNameIsRefused(v: seq<State>, more: seq<State>, rev: int, id: Text, name: int, i: nat)
    requires LogInv(v + more, rev) && i < |v| && v[i].id == id && name < v[i].rev
    ensures LatestRev(v + more, id) != name
  {
    LatestRevIsGreatest(v + more, id, rev);
    assert (v + more)[i] == v[i];
  }

  /** A context stamped by a commit that then failed carries a burnt revision:
      no later commit on it is ever accepted. */
  lemma BurntNameIsRefused(v: seq<State>, more: seq<State>, rev: int, rev': int, id: Text, name: int)
    requires LogInv(v, rev) && LogInv(v + more, rev')
    requires forall i | 0 <= i < |more| :: rev < more[i].rev
    requires 0 < name <= rev && forall i | 0 <= i < |v| :: v[i].rev != name
    ensures LatestRev(v + more, id) != name
  {
    LatestRevIsGreatest(v + more, id, rev');
    forall i | 0 <= i < |v + more| ensures (v + more)[i].rev != name {
      assert (v + more)[i] == if i < |v| then v[i] else more[i - |v|];
    }
  }
}
