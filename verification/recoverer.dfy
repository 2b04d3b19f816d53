/** The Recoverer object of recovery.go: its fields updated in place, each method
    tied to the step of Recovery it makes.  The outcome of a commit is a parameter:
    the new revision, or None for a revision mismatch. */
module RecovererObject {
  import opened States
  import opened Recovery
  import opened RecoverySystem

  class Recoverer {
    var active: bool
    var metaRev: int
    var metaSince: int
    var sinceRev: int
    var headRev: int
    var tailRev: int
    var states: map<Text, State>
    var taken: seq<State>

    ghost function Model(): Rec
      reads this
    {
      Rec(active, metaRev, metaSince, sinceRev, headRev, tailRev, states, taken)
    }

    constructor (metaRev: int, metaSince: int, active: bool)
      ensures Model() == Recovery.Reset(metaRev, metaSince, active)
    {
      this.active, this.metaRev, this.metaSince := active, metaRev, metaSince;
      sinceRev, headRev, tailRev, states, taken := metaSince, metaSince, metaSince, map[], [];
    }

    method Reset(becomes: bool)
      modifies this
      ensures Model() == Recovery.Reset(old(metaRev), old(metaSince), becomes)
    {
      active := becomes;
      sinceRev := metaSince;
      headRev := sinceRev;
      tailRev := headRev;
      states, taken := map[], [];
    }

    /** The loop of doUpdateHead over one page. */
    method UpdateHead(page: seq<State>)
      modifies this
      ensures Model() == SeeAll(old(Model()), page)
    {
      for i := 0 to |page|
        invariant Model() == SeeAll(old(Model()), page[..i])
      {
        assert page[..i + 1][..i] == page[..i] && page[..i + 1][i] == page[i];
        See(page[i]);
      }
      assert page[..|page|] == page;
    }

    method See(state: State)
      modifies this
      ensures Model() == SeeOne(old(Model()), state)
    {
      sinceRev := state.rev;
      if state.id == META {
        metaRev, metaSince := state.rev, Since(state);
        return;
      }
      if !Enabled(state) {
        return;
      }
      headRev := state.rev;
      if states == map[] {
        tailRev := headRev;
      }
      if !active {
        return;
      }
      if Parked(state) {
        states := states - {state.id};
        return;
      }
      states := states[state.id := state];
    }

    /** doRetry's first loop; `walk` is the order in which Go happens to visit the map. */
    method TakeDue(walk: seq<Text>, due: set<Text>)
      requires taken == [] && due <= states.Keys
      requires forall id :: id in walk <==> id in states
      requires forall i, j | 0 <= i < j < |walk| :: walk[i] != walk[j]
      requires forall id | id in states :: states[id].id == id
      modifies this`states, this`taken
      ensures Takes(old(Model()), due, taken)
      ensures Model() == old(Model()).(states := old(states) - due, taken := taken)
    {
      ghost var was := Model();
      ghost var gone: set<Text> := {};
      TakesNone(was);
      hide Takes;
      for i := 0 to |walk|
        invariant Model() == was.(states := was.states - gone, taken := taken)
        invariant forall id :: id in gone <==> id in walk[..i] && id in due
        invariant Takes(was, gone, taken)
      {
        assert walk[..i + 1] == walk[..i] + [walk[i]];
        assert walk[i] in walk;
        if walk[i] in due {
          NotYetWalked(walk, i);
          TakeOneMore(was, gone, taken, walk[i]);
          taken := taken + [states[walk[i]]];
          states := states - {walk[i]};
          gone := gone + {walk[i]};
        }
      }
      assert walk[..|walk|] == walk;
      assert gone == due;
    }

    /** The loop of doUpdateTail over the states held. */
    method FindTail(walk: seq<Text>)
      requires forall id :: id in walk <==> id in states
      modifies this`tailRev
      ensures IsTail(Model(), tailRev)
    {
      var tail := headRev;
      for i := 0 to |walk|
        invariant tail <= headRev
        invariant tail == headRev || exists id :: id in states && states[id].rev == tail
        invariant forall k | 0 <= k < i :: walk[k] in states && tail <= states[walk[k]].rev
      {
        assert walk[i] in walk;
        if states[walk[i]].rev < tail {
          tail := states[walk[i]].rev;
        }
      }
      tailRev := tail;
    }

    /** doUpdateTail's checkpoint: whether one is due, and what its outcome leaves. */
    method WriteCheckpoint(expired: bool, outcome: Option<int>) returns (wrote: Option<int>)
      modifies this
      ensures wrote.Some? ==> Due(old(Model())) && wrote.value == NextSince(old(tailRev))
      ensures wrote.Some? && old(tailRev) != 0 ==> wrote.value + 1 == old(tailRev)
      ensures Model() ==
              if wrote.None? then old(Model())
              else if outcome.Some? then old(Model()).(metaRev := outcome.value, metaSince := wrote.value)
              else Recovery.Reset(old(metaRev), old(metaSince), false)
      ensures wrote.Some? <==> old(tailRev) > old(metaSince) + 1000 || (expired && NextSince(old(tailRev)) > old(metaSince))
    {
      wrote := None;
      if tailRev > metaSince + 1000 || (expired && NextSince(tailRev) > metaSince) {
        wrote := Some(NextSince(tailRev));
        if outcome.None? {
          Reset(false);
          return;
        }
        metaRev, metaSince := outcome.value, wrote.value;
      }
    }
  }

  lemma TakesNone(r: Rec)
    ensures Takes(r, {}, [])
  {
  }

  lemma NotYetWalked(walk: seq<Text>, i: nat)
    requires i < |walk| && forall j, k | 0 <= j < k < |walk| :: walk[j] != walk[k]
    ensures walk[i] !in walk[..i]
  {
  }

  lemma TakeOneMore(r: Rec, gone: set<Text>, taken: seq<State>, id: Text)
    requires Takes(r, gone, taken) && id in r.states && r.states[id].id == id
    ensures Takes(r, gone + {id}, taken + [r.states[id]])
  {
    var more := taken + [r.states[id]];
    assert more[|taken|] == r.states[id];
    forall k | k in gone + {id} ensures In(more, r.states[k]) {
      if k in gone {
        InGrows(taken, r.states[id], r.states[k]);
      }
    }
  }
}
