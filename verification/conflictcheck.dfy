/** The cache driver's conflict pre-check against the commit it tries to spare:
    when it refuses, would the driver underneath have refused too? */
module ConflictCheck {
  import opened States
  import opened RevLog
  import opened Cache
  import opened CacheProofs
  import opened CacheDriverObject
  import opened CacheLookup
  import opened MemLog
  import opened MemDriver

  // The contexts the pre-check looks at.
  function Checked(cmds: seq<SubCmd>, ctxs: seq<StateCtx>): seq<StateCtx>
    requires |cmds| == |ctxs|
  {
    if cmds == [] then []
    else
      var n := |cmds| - 1;
      Checked(cmds[..n], ctxs[..n]) + if cmds[n].Noop? then [] else [ctxs[n]]
  }

  lemma {:induction false} StaleHasCulprit(c: Cache, ctxs: seq<StateCtx>)
    requires Shape(c) && Stale(c, ctxs) != []
    ensures exists x :: x in ctxs && IsStale(c, x)
  {
    if IsStale(c, ctxs[|ctxs| - 1]) {
      assert ctxs[|ctxs| - 1] in ctxs;
    } else {
      StaleHasCulprit(c, ctxs[..|ctxs| - 1]);
    }
  }

  lemma {:induction false} CheckedIsUsed(cmds: seq<SubCmd>, ctxs: seq<StateCtx>, x: StateCtx)
    requires |cmds| == |ctxs| && x in Checked(cmds, ctxs)
    ensures exists k :: 0 <= k < |cmds| && !cmds[k].Noop? && ctxs[k] == x
  {
    if cmds != [] {
      var n := |cmds| - 1;
      if !cmds[n].Noop? && ctxs[n] == x {
      } else {
        CheckedIsUsed(cmds[..n], ctxs[..n], x);
        var k :| 0 <= k < n && !cmds[..n][k].Noop? && ctxs[..n][k] == x;
        assert !cmds[k].Noop? && ctxs[k] == x;
      }
    }
  }

  lemma {:induction false} YoungestIsSlot(w: seq<State>, id: Text, rev: int)
    requires Youngest(w, id, rev).Some?
    ensures exists i :: 0 <= i < |w| && w[i] == Youngest(w, id, rev).value && w[i].id == id
  {
    if !(w[|w| - 1].id == id && (rev == 0 || rev == w[|w| - 1].rev)) {
      YoungestIsSlot(w[..|w| - 1], id, rev);
    }
  }

  /** A stale context has a newer revision of its state in the log. */
  lemma StaleIsOlder(c: Cache, v: seq<State>, x: StateCtx) returns (i: nat)
    requires CacheInv(c, v) && IsStale(c, x)
    ensures i < |v| && v[i].id == x.current.id && x.current.rev < v[i].rev
  {
    var w := Window(c);
    YoungestIsSlot(w, x.current.id, 0);
    var k :| 0 <= k < |w| && w[k] == Youngest(w, x.current.id, 0).value && w[k].id == x.current.id;
    assert InLog(w[k], v);
    i :| 0 <= i < |v| && StandsFor(w[k], v[i]);
  }

  lemma {:induction false} AllMustPass(cmds: seq<SubCmd>, ctxs: seq<StateCtx>, i: nat, seen: set<Cell>, v: seq<State>, k: nat)
    requires i <= k < |cmds| == |ctxs| && !cmds[k].Noop?
    requires Verdict(cmds, ctxs, i, seen, v) == Committed
    ensures CheckOne(cmds[k], ctxs[k], v) == Committed
    decreases k - i
  {
    if i < k {
      AllMustPass(cmds, ctxs, i + 1, if cmds[i].Noop? then seen else seen + {cmds[i].ctx}, v, k);
    }
  }

  lemma Culprit(c: Cache, cmds: seq<SubCmd>, ctxs: seq<StateCtx>) returns (k: nat)
    requires Shape(c) && |cmds| == |ctxs| && Stale(c, Checked(cmds, ctxs)) != []
    ensures k < |cmds| && !cmds[k].Noop? && IsStale(c, ctxs[k])
  {
    StaleHasCulprit(c, Checked(cmds, ctxs));
    var x :| x in Checked(cmds, ctxs) && IsStale(c, x);
    CheckedIsUsed(cmds, ctxs, x);
    k :| 0 <= k < |cmds| && !cmds[k].Noop? && ctxs[k] == x;
  }

  /** A context is stale exactly when the ring's window holds a newer revision of its ID. */
  lemma IsStaleExactly(c: Cache, v: seq<State>, x: StateCtx)
    requires CacheInv(c, v) && Ordered(v)
    ensures IsStale(c, x) <==>
            exists j :: 0 <= j < |v| && v[j].id == x.current.id && c.minRev < v[j].rev <= c.maxRev && x.current.rev < v[j].rev
  {
    LatestExactly(c, v, x.current.id);
    hide CacheInv, GetByID;
    if GetByID(c, x.current.id, 0).Some? {
      var r := GetByID(c, x.current.id, 0).value;
      var i :| 0 <= i < |v| && StandsFor(r, v[i]);
      forall j | 0 <= j < |v| && v[j].id == x.current.id && v[j].rev <= c.maxRev ensures v[j].rev <= r.rev {
        assert Logged(v, x.current.id, v[j].rev);
      }
    }
  }

  /** The pre-check reports exactly the IDs of stale contexts. */
  lemma {:induction false} StaleExactly(c: Cache, ctxs: seq<StateCtx>, id: Text)
    requires Shape(c)
    ensures id in Stale(c, ctxs) <==> exists k :: 0 <= k < |ctxs| && ctxs[k].current.id == id && IsStale(c, ctxs[k])
  {
    hide IsStale;
    if ctxs != [] {
      var n := |ctxs| - 1;
      StaleExactly(c, ctxs[..n], id);
      if k :| 0 <= k < |ctxs| && ctxs[k].current.id == id && IsStale(c, ctxs[k]) {
        assert k < n ==> ctxs[..n][k] == ctxs[k];
      }
      if id in Stale(c, ctxs[..n]) {
        var k :| 0 <= k < n && ctxs[..n][k].current.id == id && IsStale(c, ctxs[..n][k]);
        assert ctxs[k] == ctxs[..n][k];
      }
    }
  }

  /** Sound conflict pre-check: when the cache reports a mismatch for contexts
      that were not rewound below what they committed, the driver refuses the
      same commit, now and after any further commits. */
  lemma PreCheckIsSound(c: Cache, v: seq<State>, more: seq<State>, rev: int, cmds: seq<SubCmd>, ctxs: seq<StateCtx>)
    requires CacheInv(c, v) && LogInv(v + more, rev)
    requires |cmds| == |ctxs| && Stale(c, Checked(cmds, ctxs)) != []
    requires forall k | 0 <= k < |cmds| && !cmds[k].Noop? :: ctxs[k].committed.rev <= ctxs[k].current.rev
    ensures Verdict(cmds, ctxs, 0, {}, v + more) != Committed
  {
    var k := Culprit(c, cmds, ctxs);
    var i := StaleIsOlder(c, v, ctxs[k]);
    OlderNameIsRefused(v, more, rev, ctxs[k].current.id, ctxs[k].committed.rev, i);
    hide CacheInv;
    hide LogInv;
    hide IsStale;
    hide LatestRev;
    hide Stale;
    hide Checked;
    assert CheckOne(cmds[k], ctxs[k], v + more) != Committed;
    if Verdict(cmds, ctxs, 0, {}, v + more) == Committed {
      AllMustPass(cmds, ctxs, 0, {}, v + more, k);
    }
  }

  /** A context on which no cache ever reports a mismatch the driver would not. */
  ghost predicate NeverSpurious(x: StateCtx) {
    forall c: Cache, v, rev :: CacheInv(c, v) && LogInv(v, rev) && IsStale(c, x) ==>
      LatestRev(v, x.current.id) != x.committed.rev
  }

  /** The pre-check is never spurious on a context exactly when its current
      revision is not below its committed one. */
  lemma PreCheckIsExact(x: StateCtx)
    requires 0 <= x.current.rev
    ensures NeverSpurious(x) <==> x.committed.rev <= x.current.rev
  {
    if x.committed.rev <= x.current.rev {
      forall c: Cache, v, rev | CacheInv(c, v) && LogInv(v, rev) && IsStale(c, x)
        ensures LatestRev(v, x.current.id) != x.committed.rev
      {
        var i := StaleIsOlder(c, v, x);
        assert v + [] == v;
        OlderNameIsRefused(v, [], rev, x.current.id, x.committed.rev, i);
      }
    } else {
      var s := x.committed.(id := x.current.id);
      var c0, v := EmptyCache(1), [s];
      InitInv(1, []);
      GrowKeeps(c0, [], v);
      assert [] + v == v;
      AppendKeeps(c0, v, s);
      AppendWindow(c0, s);
      var c := Append(c0, s);
      assert Window(c)[0].rev == s.rev && Window(c)[0].id == s.id;
      assert IsStale(c, x);
      assert LogInv(v, s.rev) && LatestRev(v, x.current.id) == x.committed.rev;
    }
  }
}
