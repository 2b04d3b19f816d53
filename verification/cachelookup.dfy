/** GetStateByID of cachedriver.go: what the ring answers, against the log, and the
    driver behind it. */
module CacheLookup {
  import opened States
  import opened RevLog
  import opened Cache
  import opened CacheDriverObject
  import opened MemLog
  import opened MemDriver

  // Slot i is the youngest of `w` that is asked for.
  ghost predicate Asked(w: State, id: Text, rev: int) {
    w.id == id && (rev == 0 || w.rev == rev)
  }

  ghost predicate YoungestAt(w: seq<State>, id: Text, rev: int, i: int) {
    0 <= i < |w| && Asked(w[i], id, rev) && forall j | i < j < |w| :: !Asked(w[j], id, rev)
  }

  /** The scan finds the youngest slot asked for, and misses only when there is none. */
  lemma {:induction false} YoungestExactly(w: seq<State>, id: Text, rev: int)
    ensures Youngest(w, id, rev).None? <==> forall i | 0 <= i < |w| :: !Asked(w[i], id, rev)
    ensures Youngest(w, id, rev).Some? ==> exists i :: YoungestAt(w, id, rev, i) && w[i] == Youngest(w, id, rev).value
  {
    if w != [] {
      var init := w[..|w| - 1];
      YoungestExactly(init, id, rev);
      if Asked(w[|w| - 1], id, rev) {
        assert YoungestAt(w, id, rev, |w| - 1);
      } else if Youngest(init, id, rev).Some? {
        var i :| YoungestAt(init, id, rev, i) && init[i] == Youngest(init, id, rev).value;
        assert YoungestAt(w, id, rev, i) && w[i] == init[i];
      } else {
        forall i | 0 <= i < |w| ensures !Asked(w[i], id, rev) {
          assert i < |init| ==> w[i] == init[i];
        }
      }
    }
  }

  // The log has the state of this ID at this revision.
  ghost predicate Logged(v: seq<State>, id: Text, rev: int) {
    exists i :: 0 <= i < |v| && v[i].id == id && v[i].rev == rev
  }

  lemma LoggedIsHeld(w: seq<State>, v: seq<State>, lo: int, hi: int, j: nat) returns (i: nat)
    requires NoHole(w, v, lo, hi) && Ordered(v) && j < |v| && lo < v[j].rev <= hi
    ensures i < |w| && StandsFor(w[i], v[j])
  {
    assert Holds(w, v[j].rev);
    i :| 0 <= i < |w| && w[i].rev == v[j].rev;
    assert InLog(w[i], v);
    var k :| 0 <= k < |v| && StandsFor(w[i], v[k]);
    assert k == j;
  }

  lemma HeldIsLogged(w: seq<State>, v: seq<State>, lo: int, hi: int, i: nat) returns (j: nat)
    requires NoHole(w, v, lo, hi) && i < |w|
    ensures j < |v| && StandsFor(w[i], v[j]) && lo < v[j].rev <= hi
  {
    assert InLog(w[i], v);
    j :| 0 <= j < |v| && StandsFor(w[i], v[j]);
  }

  /** By ID and revision: the ring answers exactly when the revision is in its window
      and the log has it under that ID, and then with that state. */
  lemma ByRevExactly(c: Cache, v: seq<State>, id: Text, rev: int)
    requires CacheInv(c, v) && Ordered(v) && rev != 0
    ensures GetByID(c, id, rev).Some? <==> c.minRev < rev <= c.maxRev && Logged(v, id, rev)
    ensures GetByID(c, id, rev).Some? ==>
              var r := GetByID(c, id, rev).value;
              r.id == id && r.rev == rev && exists j :: 0 <= j < |v| && v[j].rev == rev && StandsFor(r, v[j])
  {
    var w := Window(c);
    YoungestExactly(w, id, rev);
    if GetByID(c, id, rev).Some? {
      var i :| YoungestAt(w, id, rev, i) && w[i] == GetByID(c, id, rev).value;
      var j := HeldIsLogged(w, v, c.minRev, c.maxRev, i);
    } else if c.minRev < rev <= c.maxRev && Logged(v, id, rev) {
      var j :| 0 <= j < |v| && v[j].id == id && v[j].rev == rev;
      var i := LoggedIsHeld(w, v, c.minRev, c.maxRev, j);
    }
  }

  lemma NoneNewer(w: seq<State>, v: seq<State>, lo: int, hi: int, id: Text, i: int, rev: int)
    requires NoHole(w, v, lo, hi) && Ordered(v) && YoungestAt(w, id, 0, i) && w[i].rev < rev <= hi
    ensures !Logged(v, id, rev)
  {
    if Logged(v, id, rev) {
      var j :| 0 <= j < |v| && v[j].id == id && v[j].rev == rev;
      assert lo < w[i].rev;
      var k := LoggedIsHeld(w, v, lo, hi, j);
      assert Asked(w[k], id, 0);
    }
  }

  // Some revision of the ID lies in the window.
  ghost predicate Within(v: seq<State>, id: Text, lo: int, hi: int) {
    exists j :: 0 <= j < |v| && v[j].id == id && lo < v[j].rev <= hi
  }

  // The slot is the log's newest state of the ID up to `hi`.
  ghost predicate NewestOf(v: seq<State>, id: Text, hi: int, r: State) {
    && r.id == id && (exists j :: 0 <= j < |v| && StandsFor(r, v[j]))
    && forall rev | r.rev < rev <= hi :: !Logged(v, id, rev)
  }

  lemma FoundIsNewest(w: seq<State>, v: seq<State>, lo: int, hi: int, id: Text, r: State)
    requires NoHole(w, v, lo, hi) && Ordered(v) && Youngest(w, id, 0) == Some(r)
    ensures lo < r.rev <= hi && NewestOf(v, id, hi, r) && Within(v, id, lo, hi)
  {
    YoungestExactly(w, id, 0);
    var i :| YoungestAt(w, id, 0, i) && w[i] == r;
    var j := HeldIsLogged(w, v, lo, hi, i);
    forall rev | r.rev < rev <= hi ensures !Logged(v, id, rev) {
      NoneNewer(w, v, lo, hi, id, i, rev);
    }
  }

  lemma MissedIsAbsent(w: seq<State>, v: seq<State>, lo: int, hi: int, id: Text)
    requires NoHole(w, v, lo, hi) && Ordered(v) && Youngest(w, id, 0).None?
    ensures !Within(v, id, lo, hi)
  {
    YoungestExactly(w, id, 0);
    if Within(v, id, lo, hi) {
      var j :| 0 <= j < |v| && v[j].id == id && lo < v[j].rev <= hi;
      var i := LoggedIsHeld(w, v, lo, hi, j);
    }
  }

  /** By ID alone: it answers with the newest of the ID within its window, and misses
      exactly when none of the ID is in there. */
  lemma LatestExactly(c: Cache, v: seq<State>, id: Text)
    requires CacheInv(c, v) && Ordered(v)
    ensures GetByID(c, id, 0).Some? <==> Within(v, id, c.minRev, c.maxRev)
    ensures GetByID(c, id, 0).Some? ==> c.minRev < GetByID(c, id, 0).value.rev <= c.maxRev
    ensures GetByID(c, id, 0).Some? ==> NewestOf(v, id, c.maxRev, GetByID(c, id, 0).value)
  {
    hide NoHole, Ordered, Within, NewestOf, Youngest;
    var w := Window(c);
    if c.size == 0 {
      assert w == [];
      MissedIsAbsent(w, v, c.minRev, c.maxRev, id) by {
        EmptyMisses(id);
      }
    } else if GetByID(c, id, 0).Some? {
      FoundIsNewest(w, v, c.minRev, c.maxRev, id, GetByID(c, id, 0).value);
    } else {
      MissedIsAbsent(w, v, c.minRev, c.maxRev, id);
    }
  }

  lemma EmptyMisses(id: Text)
    ensures Youngest([], id, 0).None?
  {
  }

  // ------------------------------------------------------------- the whole lookup

  // What the in-memory driver answers: the entry asked for, or the newest of the ID.
  ghost predicate IsDriverAnswer(v: seq<State>, id: Text, rev: int, r: Option<State>) {
    if rev != 0 then
      if Logged(v, id, rev) then r.Some? && r.value in v && r.value.id == id && r.value.rev == rev else r.None?
    else if Within(v, id, 0, LatestRev(v, id)) then r.Some? && r.value in v && r.value.id == id && r.value.rev == LatestRev(v, id)
    else r.None?
  }

  method GetFromDriver(d: Driver, id: Text, rev: int) returns (r: Option<State>)
    requires d.Valid()
    ensures IsDriverAnswer(d.stateLog.V(), id, rev, r)
  {
    ghost var v := d.stateLog.V();
    var e: Option<StateCtx>;
    if rev == 0 {
      var since;
      e, since := d.stateLog.GetLatestByID(id);
      LatestIsAnswer(d.stateLog.entries, id, d.stateLog.rev);
    } else {
      e := d.stateLog.GetByIDAndRev(id, rev);
      EntryIsAnswer(d.stateLog.entries, id, rev, e);
    }
    r := if e.Some? then Some(e.value.committed) else None;
  }

  lemma EntryIsAnswer(entries: seq<StateCtx>, id: Text, rev: int, e: Option<StateCtx>)
    requires e.Some? ==> e.value in entries && e.value.committed.id == id && e.value.committed.rev == rev
    requires e.None? ==> forall x | x in entries :: x.committed.id != id || x.committed.rev != rev
    requires rev != 0
    ensures IsDriverAnswer(Published(entries), id, rev, if e.Some? then Some(e.value.committed) else None)
  {
    var v := Published(entries);
    if e.Some? {
      var i :| 0 <= i < |entries| && entries[i] == e.value;
      assert v[i] == e.value.committed;
    } else {
      forall i | 0 <= i < |v| ensures v[i].id != id || v[i].rev != rev {
        assert entries[i] in entries;
      }
    }
  }

  lemma {:induction false} LatestIsEntry(entries: seq<StateCtx>, id: Text)
    ensures Latest(entries, id).Some? ==> Latest(entries, id).value in entries && Latest(entries, id).value.committed.id == id
    ensures Latest(entries, id).None? ==> forall x | x in entries :: x.committed.id != id
  {
    if entries != [] {
      LatestIsEntry(entries[..|entries| - 1], id);
      assert entries == entries[..|entries| - 1] + [entries[|entries| - 1]];
    }
  }

  lemma LatestIsAnswer(entries: seq<StateCtx>, id: Text, rev: int)
    requires LogInv(Published(entries), rev)
    ensures var e := Latest(entries, id);
            IsDriverAnswer(Published(entries), id, 0, if e.Some? then Some(e.value.committed) else None)
  {
    var v, e := Published(entries), Latest(entries, id);
    LatestIsEntry(entries, id);
    LatestPublished(entries, id);
    if e.Some? {
      var i :| 0 <= i < |entries| && entries[i] == e.value;
      assert v[i] == e.value.committed;
    } else {
      forall i | 0 <= i < |v| ensures v[i].id != id {
        assert entries[i] in entries;
      }
    }
  }

  /** GetStateByID: a revision is looked up in the ring first, the newest never is.
      Whoever answers, it is the log's state, or in a reused slot a copy standing for it. */
  method GetStateByID(cd: CacheDriver, d: Driver, id: Text, rev: int) returns (r: Option<State>)
    requires cd.Valid() && d.Valid() && CacheInv(cd.Model(), d.stateLog.V())
    ensures rev != 0 ==> (r.Some? <==> Logged(d.stateLog.V(), id, rev))
    ensures rev == 0 ==> IsDriverAnswer(d.stateLog.V(), id, rev, r)
    ensures r.Some? ==> r.value.id == id && (rev != 0 ==> r.value.rev == rev)
    ensures r.Some? ==> r.value in d.stateLog.V() || InLog(r.value, d.stateLog.V())
  {
    if rev != 0 {
      r := cd.GetStateByIDFromLog(id, rev);
      ByRevExactly(cd.Model(), d.stateLog.V(), id, rev);
      if r.Some? {
        return;
      }
    }
    r := GetFromDriver(d, id, rev);
  }
}
