/** Runs of accepted transactions of badgerdriver/driver.go: every one names the
    revision it replaces, and consumes it. */
module BadgerHistory {
  import opened States
  import opened BadgerCommit

  // An accepted attempt: its sub-commands, the revisions it drew, its contexts before it.
  datatype Txn = Txn(cmds: seq<Sub>, revs: seq<int>, ctxs: seq<Held>)

  predicate Shaped(t: Txn) {
    |t.cmds| == |t.revs| && WellFormed(t.cmds, t.ctxs)
  }

  /** The latest-revision index after the first n sub-commands. */
  function Written(t: Txn, db: map<Text, int>, n: nat): map<Text, int>
    requires Shaped(t) && n <= |t.cmds|
  {
    if n == 0 then db
    else
      var was := Written(t, db, n - 1);
      if t.cmds[n - 1].Noop? then was else was[t.ctxs[t.cmds[n - 1].ctx].id := t.revs[n - 1]]
  }

  lemma {:induction false} WrittenIsLatest(t: Txn, db: map<Text, int>, n: nat, id: Text)
    requires Shaped(t) && n <= |t.cmds|
    ensures LatestRev(Written(t, db, n), id) == LatestAt(t.cmds, db, t.revs, t.ctxs, n, id)
  {
    if n > 0 {
      WrittenIsLatest(t, db, n - 1, id);
    }
  }

  // Numbers are drawn after the snapshot was taken, one by one: all are newer than
  // anything in it.
  ghost predicate DrawnAfter(t: Txn, db: map<Text, int>)
    requires Shaped(t)
  {
    && (forall i | 0 <= i < |t.revs| :: 0 < t.revs[i] && forall id | id in db :: db[id] < t.revs[i])
    && forall i, j | 0 <= i < j < |t.revs| :: t.revs[i] < t.revs[j]
  }

  /** Transactions that succeed behave as if run one after another: each on the index
      the one before it left. */
  ghost predicate IsHistory(dbs: seq<map<Text, int>>, ts: seq<Txn>) {
    && |dbs| == |ts| + 1
    && forall k | 0 <= k < |ts| :: Follows(dbs[k], ts[k], dbs[k + 1])
  }

  ghost predicate Follows(db: map<Text, int>, t: Txn, db': map<Text, int>) {
    && Shaped(t) && DrawnAfter(t, db)
    && Attempt(t.cmds, 0, db, t.revs, t.ctxs).0 == Committed
    && db' == Written(t, db, |t.cmds|)
  }

  // Sub-command i of the transaction publishes a state of this ID.
  predicate Publishes(t: Txn, i: int, id: Text) {
    Shaped(t) && 0 <= i < |t.cmds| && t.cmds[i].Put? && t.ctxs[t.cmds[i].ctx].id == id
  }

  function NameGiven(t: Txn, i: int): int
    requires Shaped(t) && 0 <= i < |t.cmds| && t.cmds[i].Put?
  {
    NamedAt(t.cmds, t.revs, t.ctxs, i, t.cmds[i].ctx)
  }

  lemma {:induction false} LatestGrows(t: Txn, db: map<Text, int>, i: nat, j: nat, id: Text)
    requires Shaped(t) && DrawnAfter(t, db) && i <= j <= |t.cmds|
    ensures LatestAt(t.cmds, db, t.revs, t.ctxs, i, id) <= LatestAt(t.cmds, db, t.revs, t.ctxs, j, id)
    ensures i < j && Publishes(t, i, id) ==>
              LatestAt(t.cmds, db, t.revs, t.ctxs, i, id) < t.revs[i] <= LatestAt(t.cmds, db, t.revs, t.ctxs, j, id)
    decreases j - i
  {
    if i < j {
      LatestGrows(t, db, i + 1, j, id);
    }
  }

  lemma NamesLatest(db: map<Text, int>, t: Txn, db': map<Text, int>, i: int, id: Text)
    requires Follows(db, t, db') && Publishes(t, i, id)
    ensures NameGiven(t, i) == LatestAt(t.cmds, db, t.revs, t.ctxs, i, id)
  {
    AttemptExactly(t.cmds, db, t.revs, t.ctxs);
    assert Passes(t.cmds, db, t.revs, t.ctxs, i);
  }

  lemma TxnGrows(db: map<Text, int>, t: Txn, db': map<Text, int>, i: nat, id: Text)
    requires Follows(db, t, db') && i <= |t.cmds|
    ensures LatestRev(db, id) <= LatestAt(t.cmds, db, t.revs, t.ctxs, i, id) <= LatestRev(db', id)
  {
    LatestGrows(t, db, 0, i, id);
    LatestGrows(t, db, i, |t.cmds|, id);
    WrittenIsLatest(t, db, |t.cmds|, id);
  }

  lemma {:induction false} HistoryGrows(dbs: seq<map<Text, int>>, ts: seq<Txn>, k: nat, m: nat, id: Text)
    requires IsHistory(dbs, ts) && k <= m <= |ts|
    ensures LatestRev(dbs[k], id) <= LatestRev(dbs[m], id)
  {
    if k < m {
      HistoryGrows(dbs, ts, k, m - 1, id);
      assert Follows(dbs[m - 1], ts[m - 1], dbs[m]);
      TxnGrows(dbs[m - 1], ts[m - 1], dbs[m], 0, id);
    }
  }

  /** Within a transaction or in a later one, a sub-command on the same ID names a
      revision at or past the one published before: no pair of ID and expected revision
      is consumed twice. */
  lemma ConsumedOnce(dbs: seq<map<Text, int>>, ts: seq<Txn>, k: nat, i: int, m: nat, j: int, id: Text)
    requires IsHistory(dbs, ts) && k <= m < |ts| && (k == m ==> i < j)
    requires Publishes(ts[k], i, id) && Publishes(ts[m], j, id)
    ensures NameGiven(ts[k], i) < ts[k].revs[i] <= NameGiven(ts[m], j)
  {
    assert Follows(dbs[k], ts[k], dbs[k + 1]) && Follows(dbs[m], ts[m], dbs[m + 1]);
    NamesLatest(dbs[k], ts[k], dbs[k + 1], i, id);
    NamesLatest(dbs[m], ts[m], dbs[m + 1], j, id);
    if k == m {
      LatestGrows(ts[k], dbs[k], i, j, id);
    } else {
      LatestGrows(ts[k], dbs[k], i, |ts[k].cmds|, id);
      WrittenIsLatest(ts[k], dbs[k], |ts[k].cmds|, id);
      HistoryGrows(dbs, ts, k + 1, m, id);
      TxnGrows(dbs[m], ts[m], dbs[m + 1], j, id);
    }
  }

  /** Each names the revision that immediately precedes it on its ID: the latest of the
      index, or this transaction's own when it wrote the ID before. */
  lemma NamesPredecessor(dbs: seq<map<Text, int>>, ts: seq<Txn>, k: nat, i: int, id: Text)
    requires IsHistory(dbs, ts) && k < |ts| && Publishes(ts[k], i, id)
    ensures NameGiven(ts[k], i) == LatestRev(Written(ts[k], dbs[k], i), id)
  {
    assert Follows(dbs[k], ts[k], dbs[k + 1]);
    NamesLatest(dbs[k], ts[k], dbs[k + 1], i, id);
    WrittenIsLatest(ts[k], dbs[k], i, id);
  }
}
