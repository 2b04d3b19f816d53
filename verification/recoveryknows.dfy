/** What a recoverer of recovery.go knows after reading: where it starts from, and
    exactly which states it holds. */
module RecoveryKnows {
  import opened States
  import opened Recovery
  import opened RecoverySystem

  /** A recoverer started from the checkpoint at m reads the log past that checkpoint,
      from the first entry past it, and holds nothing before. */
  lemma RestartReadsFromCheckpoint(x: Sys, i: nat, m: nat, x': Sys, a: nat, page: seq<State>, x'': Sys)
    requires StepBy(x, Start(i, m), x') && StepBy(x', Head(i, a, page), x'')
    ensures x'.recs[i].states == map[] && x'.recs[i].taken == [] && x'.recs[i].headRev == x'.recs[i].tailRev == Since(x.log[m])
    ensures x'.recs[i].active <==> Tag(x.log[m]) != "active"
    ensures forall k | 0 <= k < |x.log| :: k < a <==> x.log[k].rev <= Since(x.log[m])
  {
    assert x'.recs[i] == Recovery.Reset(x.log[m].rev, Since(x.log[m]), Tag(x.log[m]) != "active");
  }

  // A state a recoverer takes note of.
  predicate Relevant(s: State) {
    s.id != META && Enabled(s)
  }

  /** Entry k is the last one of its ID in the page that counts. */
  ghost predicate IsLastOf(page: seq<State>, k: int, id: Text) {
    0 <= k < |page| && Relevant(page[k]) && page[k].id == id && forall j | k < j < |page| :: !(Relevant(page[j]) && page[j].id == id)
  }

  ghost predicate NoneOf(page: seq<State>, id: Text) {
    forall j | 0 <= j < |page| :: !(Relevant(page[j]) && page[j].id == id)
  }

  // What reading the page does to the entry held for an ID.
  ghost predicate HoldsLast(was: map<Text, State>, page: seq<State>, now: map<Text, State>, id: Text) {
    && (forall k {:trigger IsLastOf(page, k, id)} | IsLastOf(page, k, id) ::
          if Parked(page[k]) then id !in now else id in now && now[id] == page[k])
    && (NoneOf(page, id) ==> (id in now <==> id in was) && (id in was ==> now[id] == was[id]))
  }

  lemma LastOfSnoc(page: seq<State>, s: State, k: int, id: Text)
    requires IsLastOf(page + [s], k, id)
    ensures k == |page| || (IsLastOf(page, k, id) && !(Relevant(s) && s.id == id))
  {
    var all := page + [s];
    if k < |page| {
      assert all[k] == page[k] && all[|page|] == s;
      forall j | k < j < |page| ensures !(Relevant(page[j]) && page[j].id == id) {
        assert all[j] == page[j];
      }
    }
  }

  lemma HoldsLastSnoc(r: Rec, was: map<Text, State>, page: seq<State>, s: State, id: Text)
    requires r.active && HoldsLast(was, page, r.states, id)
    ensures HoldsLast(was, page + [s], SeeOne(r, s).states, id)
  {
    var all, now := page + [s], SeeOne(r, s).states;
    assert all[|page|] == s;
    forall k | IsLastOf(all, k, id) ensures if Parked(all[k]) then id !in now else id in now && now[id] == all[k] {
      LastOfSnoc(page, s, k, id);
    }
    if NoneOf(all, id) {
      assert !(Relevant(s) && s.id == id);
      forall j | 0 <= j < |page| ensures !(Relevant(page[j]) && page[j].id == id) {
        assert all[j] == page[j];
      }
    }
  }

  /** After reading, an active recoverer holds exactly the last state it read of each
      ID it takes note of, unless that is parked, and what it held of the others; a
      standby holds what it held. */
  lemma {:induction false} HoldsExactly(r: Rec, page: seq<State>, id: Text)
    ensures SeeAll(r, page).active == r.active
    ensures r.active ==> HoldsLast(r.states, page, SeeAll(r, page).states, id)
    ensures !r.active ==> SeeAll(r, page).states == r.states
  {
    if page != [] {
      var init, s := page[..|page| - 1], page[|page| - 1];
      HoldsExactly(r, init, id);
      assert page == init + [s];
      if r.active {
        HoldsLastSnoc(SeeAll(r, init), r.states, init, s, id);
      }
      hide HoldsLast;
    }
  }

  predicate Counts(s: State, meta: bool) {
    if meta then s.id == META else Relevant(s)
  }

  // The last of the page's entries that count.
  ghost predicate IsLastThat(page: seq<State>, k: int, meta: bool) {
    0 <= k < |page| && Counts(page[k], meta) && forall j | k < j < |page| :: !Counts(page[j], meta)
  }

  ghost predicate NoneThat(page: seq<State>, meta: bool) {
    forall j | 0 <= j < |page| :: !Counts(page[j], meta)
  }

  lemma LastThatInit(page: seq<State>, k: int, meta: bool)
    requires page != [] && IsLastThat(page, k, meta)
    ensures k == |page| - 1 || (IsLastThat(page[..|page| - 1], k, meta) && !Counts(page[|page| - 1], meta))
  {
  }

  lemma NoneThatInit(page: seq<State>, meta: bool)
    requires page != [] && NoneThat(page, meta)
    ensures NoneThat(page[..|page| - 1], meta) && !Counts(page[|page| - 1], meta)
  {
  }

  /** Its cursor is past everything read and its head at the last state it takes note of. */
  lemma {:induction false} HeadExactly(r: Rec, page: seq<State>)
    ensures SeeAll(r, page).sinceRev == if page == [] then r.sinceRev else page[|page| - 1].rev
    ensures forall k {:trigger IsLastThat(page, k, false)} | IsLastThat(page, k, false) :: SeeAll(r, page).headRev == page[k].rev
    ensures NoneThat(page, false) ==> SeeAll(r, page).headRev == r.headRev
  {
    if page != [] {
      HeadExactly(r, page[..|page| - 1]);
      forall k | IsLastThat(page, k, false) ensures SeeAll(r, page).headRev == page[k].rev {
        LastThatInit(page, k, false);
        hide IsLastThat;
      }
      if NoneThat(page, false) {
        NoneThatInit(page, false);
      }
    }
  }

  /** The checkpoint it knows is the last one read. */
  lemma {:induction false} MetaExactly(r: Rec, page: seq<State>)
    ensures forall k {:trigger IsLastThat(page, k, true)} | IsLastThat(page, k, true) ::
              SeeAll(r, page).metaRev == page[k].rev && SeeAll(r, page).metaSince == Since(page[k])
    ensures NoneThat(page, true) ==> SeeAll(r, page).metaRev == r.metaRev && SeeAll(r, page).metaSince == r.metaSince
  {
    hide Since, Enabled;
    if page != [] {
      MetaExactly(r, page[..|page| - 1]);
      forall k | IsLastThat(page, k, true)
        ensures SeeAll(r, page).metaRev == page[k].rev && SeeAll(r, page).metaSince == Since(page[k])
      {
        LastThatInit(page, k, true);
        hide IsLastThat;
      }
      if NoneThat(page, true) {
        NoneThatInit(page, true);
      }
    }
  }
}
