/** The batched scan of the in-memory driver, as values: how a growing answer
    relates to the log, with and without LatestOnly. */
module MemScan {
  import opened States
  import opened RevLog

  // filterStatesWithID: every state of another ID, in order.
  function Without(states: seq<State>, id: Text): seq<State> {
    if states == [] then []
    else Without(states[..|states| - 1], id) +
         if states[|states| - 1].id != id then [states[|states| - 1]] else []
  }

  /** A LatestOnly answer as the scan folds it: drop the ID, then append the state. */
  function LatestOf(states: seq<State>): seq<State> {
    if states == [] then []
    else Without(LatestOf(states[..|states| - 1]), states[|states| - 1].id) + [states[|states| - 1]]
  }

  function Fold(states: seq<State>, latestOnly: bool): seq<State> {
    if latestOnly then LatestOf(states) else states
  }

  lemma FoldStep(states: seq<State>, s: State, latestOnly: bool)
    ensures Fold(states + [s], latestOnly) ==
            (if latestOnly then Without(Fold(states, latestOnly), s.id) else Fold(states, latestOnly)) + [s]
  {
    assert (states + [s])[..|states|] == states;
  }

  lemma FoldOne(s: State, latestOnly: bool)
    ensures Fold([s], latestOnly) == [s]
  {
    var none := [s][..0];
    assert none == [] && LatestOf(none) == [] && Without(LatestOf(none), s.id) == [];
    assert LatestOf([s]) == Without(LatestOf(none), s.id) + [s];
  }

  lemma {:induction false} WithoutMembers(states: seq<State>, id: Text)
    ensures forall x :: x in Without(states, id) <==> x in states && x.id != id
  {
    if states != [] {
      WithoutMembers(states[..|states| - 1], id);
      assert states == states[..|states| - 1] + [states[|states| - 1]];
    }
  }

  lemma {:induction false} WithoutOrdered(states: seq<State>, id: Text)
    requires Ordered(states)
    ensures Ordered(Without(states, id))
  {
    if states != [] {
      var init := states[..|states| - 1];
      WithoutOrdered(init, id);
      WithoutMembers(init, id);
      forall x | x in Without(init, id) ensures x.rev < states[|states| - 1].rev {
        var i :| 0 <= i < |init| && init[i] == x;
      }
    }
  }

  // x is the newest state of its ID in `states`.
  ghost predicate Newest(states: seq<State>, x: State) {
    x in states && forall y | y in states && y.id == x.id :: y.rev <= x.rev
  }

  // Appending a newer state makes it the newest of its ID and nothing else changes.
  lemma NewestSnoc(states: seq<State>, s: State, x: State)
    requires forall y | y in states :: y.rev < s.rev
    ensures Newest(states + [s], x) <==> x == s || (Newest(states, x) && x.id != s.id)
  {
    var all := states + [s];
    assert s == all[|states|];
    assert forall y :: y in all <==> y in states || y == s;
  }

  lemma OrderedLast(states: seq<State>)
    requires Ordered(states) && states != []
    ensures var init, s := states[..|states| - 1], states[|states| - 1];
            Ordered(init) && states == init + [s] && forall y | y in init :: y.rev < s.rev
  {
    var init := states[..|states| - 1];
    forall y | y in init ensures y.rev < states[|states| - 1].rev {
      var i :| 0 <= i < |init| && init[i] == y;
    }
  }

  lemma OrderedSnoc(states: seq<State>, s: State)
    requires Ordered(states) && forall y | y in states :: y.rev < s.rev
    ensures Ordered(states + [s])
  {
    forall i | 0 <= i < |states| ensures states[i].rev < s.rev {
      assert states[i] in states;
    }
  }

  /** The fold keeps, for every ID, exactly its newest state, oldest first. */
  lemma {:induction false} LatestOfIsNewest(states: seq<State>)
    requires Ordered(states)
    ensures Ordered(LatestOf(states))
    ensures forall x :: x in LatestOf(states) <==> Newest(states, x)
  {
    if states != [] {
      var init, s := states[..|states| - 1], states[|states| - 1];
      OrderedLast(states);
      LatestOfIsNewest(init);
      var l := Without(LatestOf(init), s.id);
      WithoutMembers(LatestOf(init), s.id);
      WithoutOrdered(LatestOf(init), s.id);
      assert LatestOf(states) == l + [s];
      hide Without;
      hide LatestOf;
      hide Newest;
      forall x: State ensures x in l + [s] <==> Newest(states, x) {
        NewestSnoc(init, s, x);
      }
      NewestAreMembers(init, l);
      OrderedSnoc(l, s);
    }
  }

  lemma NewestAreMembers(states: seq<State>, l: seq<State>)
    requires forall x | x in l :: Newest(states, x)
    ensures forall x | x in l :: x in states
  {
  }

  // ----------------------------------------------------------- one log state

  // The log state right after `lo`: nothing of the log lies in between.
  ghost predicate NextInLog(v: seq<State>, lo: int, s: State) {
    s in v && lo < s.rev && forall x | x in v && lo < x.rev :: s.rev <= x.rev
  }

  /** Scanning one more log state extends the answer by it, if it matches. */
  lemma ScanOne(v: seq<State>, q: seq<Dict>, since: int, lo: int, s: State)
    requires Ordered(v) && since <= lo && NextInLog(v, lo, s)
    ensures Select(v, q, since, s.rev) == Select(v, q, since, lo) + if DriverMatches(s, q) then [s] else []
  {
    SelectSplit(v, q, since, lo, s.rev);
    var one := if DriverMatches(s, q) then [s] else [];
    forall x ensures x in one <==> x in v && Hit(x, q, lo, s.rev) {
      if x in v && Hit(x, q, lo, s.rev) {
        var i :| 0 <= i < |v| && v[i] == x;
        var j :| 0 <= j < |v| && v[j] == s;
        assert s.rev <= x.rev;
        assert i == j;
      }
    }
    SelectUnique(v, q, lo, s.rev, one);
  }

  lemma NthIsNext(v: seq<State>, since: int, hi: int, n: nat)
    requires Ordered(v) && n < |Select(v, [], since, hi)|
    ensures var a := Select(v, [], since, hi);
            NextInLog(v, if n == 0 then since else a[n - 1].rev, a[n]) && since < a[n].rev <= hi
  {
    var a := Select(v, [], since, hi);
    var lo := if n == 0 then since else a[n - 1].rev;
    SelectMembers(v, [], since, hi);
    SelectOrdered(v, [], since, hi);
    assert a[n] in a;
    if n > 0 { assert a[n - 1] in a; }
    forall x | x in v && lo < x.rev ensures a[n].rev <= x.rev {
      if x.rev <= hi {
        assert x in a;
        var k :| 0 <= k < |a| && a[k] == x;
      }
    }
  }

  // Entries' loop: the first i states of the log have been read.
  ghost predicate Scanned(v: seq<State>, i: nat, since: int, states: seq<State>, cursor: int) {
    && i <= |v|
    && (cursor == since || (since < cursor && 0 < i && cursor == v[i - 1].rev))
    && (forall k | 0 <= k < i :: v[k].rev <= cursor)
    && states == Select(v[..i], [], since, cursor)
    && if states == [] then cursor == since else cursor == states[|states| - 1].rev
  }

  lemma ScanEntry(v: seq<State>, i: nat, since: int, states: seq<State>, cursor: int)
    requires Ordered(v) && i < |v| && Scanned(v, i, since, states, cursor)
    ensures if v[i].rev <= cursor then Scanned(v, i + 1, since, states, cursor)
            else Scanned(v, i + 1, since, states + [v[i]], v[i].rev)
  {
    assert v[..i + 1][..i] == v[..i];
    if cursor < v[i].rev {
      SelectClamp(v[..i], [], since, cursor, v[i].rev);
    }
  }

  lemma ScannedEnough(v: seq<State>, i: nat, since: int, states: seq<State>, cursor: int)
    requires Ordered(v) && Scanned(v, i, since, states, cursor) && (i < |v| ==> states != [])
    ensures states == Select(v, [], since, cursor)
    ensures i == |v| ==> forall x | x in v :: x.rev <= cursor
  {
    assert v == v[..i] + v[i..];
    if i < |v| {
      SelectMembers(v[..i], [], since, cursor);
      assert states[|states| - 1] in states;
      SelectStable(v[..i], v[i..], [], since, cursor);
    } else {
      assert v[..i] == v;
    }
  }

  // ------------------------------------------------------------ the answer

  /** A LatestOnly page: the newest matching state of each ID in (since, hi],
      oldest first, cut at the limit. */
  ghost predicate IsLatestPage(v: seq<State>, q: seq<Dict>, since: int, limit: int, until: int, p: Page) {
    exists hi :: LatestPageUpTo(v, q, since, limit, until, p, hi)
  }

  ghost predicate LatestPageUpTo(v: seq<State>, q: seq<Dict>, since: int, limit: int, until: int, p: Page, hi: int) {
    var all := LatestOf(Select(v, q, since, hi));
    && p == Cut(all, limit)
    && (limit <= |all| || until <= hi)
  }

  ghost predicate IsMatch(v: seq<State>, q: seq<Dict>, i: nat) {
    i < |v| && DriverMatches(v[i], q)
  }

  /** A scan since the latest match starts right below the newest one, and at the
      beginning of the log when nothing matches. */
  ghost predicate StartsAtNewest(v: seq<State>, q: seq<Dict>, lo: int) {
    if forall i: nat :: !IsMatch(v, q, i) then lo == 0
    else
      && (exists i: nat :: IsMatch(v, q, i) && v[i].rev == lo + 1)
      && forall i: nat :: IsMatch(v, q, i) ==> v[i].rev <= lo + 1
  }

  /** Cutting a complete answer at the limit gives a page. */
  lemma CutIsPage(v: seq<State>, q: seq<Dict>, since: int, limit: int, until: int, hi: int)
    requires Ordered(v) && 0 < limit && (limit <= |Select(v, q, since, hi)| || until <= hi)
    ensures IsPage(v, q, since, limit, until, Cut(Select(v, q, since, hi), limit))
  {
    var all := Select(v, q, since, hi);
    var p := Cut(all, limit);
    if limit < |all| {
      SelectPrefix(v, q, since, hi, limit);
      SelectOrdered(v, q, since, hi);
      SelectMembers(v, q, since, hi);
      assert all[limit] in all;
      assert PageUpTo(v, q, since, limit, until, p, all[limit - 1].rev);
    } else {
      assert PageUpTo(v, q, since, limit, until, p, hi);
    }
  }

  /** How GetStates answers, LatestOnly or not: everything matching in (lo, hi],
      cut at the limit, where only the limit may stop it before `until`. */
  ghost predicate Answered(v: seq<State>, q: seq<Dict>, lo: int, limit: int, until: int, latestOnly: bool, p: Page) {
    exists hi :: AnsweredUpTo(v, q, lo, limit, until, latestOnly, p, hi)
  }

  ghost predicate AnsweredUpTo(v: seq<State>, q: seq<Dict>, lo: int, limit: int, until: int, latestOnly: bool, p: Page, hi: int) {
    var all := Fold(Select(v, q, lo, hi), latestOnly);
    p == Cut(all, limit) && (limit <= |all| || until <= hi)
  }

  lemma AnsweredIsPage(v: seq<State>, q: seq<Dict>, lo: int, limit: int, until: int, latestOnly: bool, p: Page)
    requires Ordered(v) && 0 < limit && Answered(v, q, lo, limit, until, latestOnly, p)
    ensures !latestOnly ==> IsPage(v, q, lo, limit, until, p)
    ensures latestOnly ==> IsLatestPage(v, q, lo, limit, until, p)
    ensures forall s | s in p.states :: s in v && DriverMatches(s, q)
  {
    var hi :| AnsweredUpTo(v, q, lo, limit, until, latestOnly, p, hi);
    FoldedAreMatches(v, q, lo, hi, latestOnly);
    if latestOnly {
      assert LatestPageUpTo(v, q, lo, limit, until, p, hi);
    } else {
      CutIsPage(v, q, lo, limit, until, hi);
    }
  }

  // The page leaves out a match up to `until` and does not say so.
  ghost predicate MissesMore(v: seq<State>, q: seq<Dict>, lo: int, until: int, p: Page) {
    !p.more && exists s :: s in v && Hit(s, q, lo, until) && s !in p.states
  }

  /** More, exactly: it is false although more matches up to `until` exist if and
      only if the limit was met just where the scan stopped, at the end of a batch,
      and a match lies beyond. */
  lemma {:induction false} MoreExactly(v: seq<State>, q: seq<Dict>, lo: int, limit: int, until: int, p: Page, hi: int)
    requires Ordered(v) && 0 < limit && lo <= hi && AnsweredUpTo(v, q, lo, limit, until, false, p, hi)
    ensures MissesMore(v, q, lo, until, p) <==> |Select(v, q, lo, hi)| == limit && Select(v, q, hi, until) != []
  {
    var all, rest := Select(v, q, lo, hi), Select(v, q, hi, until);
    SelectMembers(v, q, lo, hi);
    SelectMembers(v, q, hi, until);
    if |all| <= limit {
      assert p.states == all;
      if s :| s in v && Hit(s, q, lo, until) && s !in all {
        assert s in rest;
      }
      if rest != [] {
        assert rest[0] in rest && rest[0] !in all;
      }
    }
  }

  // A scan that has read the whole log has answered up to its revision counter.
  lemma AtHead(v: seq<State>, q: seq<Dict>, latestOnly: bool, lo: int, cursor: int, rev: int, limit: int, until: int)
    requires until <= rev && forall x | x in v :: x.rev <= cursor
    requires |Fold(Select(v, q, lo, cursor), latestOnly)| <= limit
    ensures Answered(v, q, lo, limit, until, latestOnly, Page(Fold(Select(v, q, lo, cursor), latestOnly), false))
  {
    var hi := if cursor < rev then rev else cursor;
    SelectClamp(v, q, lo, cursor, hi);
    assert AnsweredUpTo(v, q, lo, limit, until, latestOnly, Page(Fold(Select(v, q, lo, hi), latestOnly), false), hi);
  }

  lemma ReachedEnd(v: seq<State>, q: seq<Dict>, latestOnly: bool, lo: int, cursor: int, limit: int, until: int)
    requires 0 < limit
    ensures var all := Fold(Select(v, q, lo, cursor), latestOnly);
            && (limit <= |all| ==> Answered(v, q, lo, limit, until, latestOnly, Page(all[..limit], |all| > limit)))
            && (|all| < limit && until <= cursor ==> Answered(v, q, lo, limit, until, latestOnly, Page(all, false)))
  {
    var all := Fold(Select(v, q, lo, cursor), latestOnly);
    if limit <= |all| {
      assert all[..|all|] == all;
      assert AnsweredUpTo(v, q, lo, limit, until, latestOnly, Page(all[..limit], |all| > limit), cursor);
    } else if until <= cursor {
      assert AnsweredUpTo(v, q, lo, limit, until, latestOnly, Page(all, false), cursor);
    }
  }

  // One batch folded into the answer.
  function Scan(states: seq<State>, batch: seq<State>, q: seq<Dict>, latestOnly: bool): seq<State> {
    if batch == [] then states
    else
      var r, s := Scan(states, batch[..|batch| - 1], q, latestOnly), batch[|batch| - 1];
      if !DriverMatches(s, q) then r
      else (if latestOnly then Without(r, s.id) else r) + [s]
  }

  /** Folding the next stretch of the log extends the answer to its end. */
  lemma {:induction false} ScanExtends(v: seq<State>, q: seq<Dict>, latestOnly: bool, lo: int, cursor: int, hi: int, n: nat)
    requires Ordered(v) && lo <= cursor && n <= |Select(v, [], cursor, hi)|
    ensures var batch := Select(v, [], cursor, hi);
            Scan(Fold(Select(v, q, lo, cursor), latestOnly), batch[..n], q, latestOnly) ==
            Fold(Select(v, q, lo, if n == 0 then cursor else batch[n - 1].rev), latestOnly)
    ensures n > 0 ==> cursor < Select(v, [], cursor, hi)[n - 1].rev
  {
    var batch := Select(v, [], cursor, hi);
    if n > 0 {
      var at, s := if n == 1 then cursor else batch[n - 2].rev, batch[n - 1];
      ScanExtends(v, q, latestOnly, lo, cursor, hi, n - 1);
      NthIsNext(v, cursor, hi, n - 1);
      ScanOne(v, q, lo, at, s);
      assert batch[..n][..n - 1] == batch[..n - 1] && batch[..n][n - 1] == s;
      if DriverMatches(s, q) {
        FoldStep(Select(v, q, lo, at), s, latestOnly);
      } else {
        assert Select(v, q, lo, s.rev) == Select(v, q, lo, at);
      }
    }
  }

  lemma Advanced(v: seq<State>, q: seq<Dict>, latestOnly: bool, lo: int, cursor: int, next: int, rev: int)
    requires LogInv(v, rev) && lo <= cursor
    requires var batch := Select(v, [], cursor, next); batch != [] && next == batch[|batch| - 1].rev
    ensures Scan(Fold(Select(v, q, lo, cursor), latestOnly), Select(v, [], cursor, next), q, latestOnly) ==
            Fold(Select(v, q, lo, next), latestOnly)
    ensures cursor < next <= rev
  {
    var batch := Select(v, [], cursor, next);
    ScanExtends(v, q, latestOnly, lo, cursor, next, |batch|);
    assert batch[..|batch|] == batch;
    SelectMembers(v, [], cursor, next);
    assert batch[|batch| - 1] in batch;
  }

  /** An answer up to the cursor survives other clients' newer commits. */
  lemma AnswerStable(v: seq<State>, v': seq<State>, q: seq<Dict>, lo: int, cursor: int, rev: int)
    requires v <= v' && (cursor == lo || cursor <= rev)
    requires forall i | |v| <= i < |v'| :: rev < v'[i].rev
    ensures Select(v', q, lo, cursor) == Select(v, q, lo, cursor)
  {
    if cursor == lo {
      SelectEmpty(v, q, lo, lo);
      SelectEmpty(v', q, lo, lo);
    } else {
      assert v' == v + v'[|v|..];
      SelectStable(v, v'[|v|..], q, lo, cursor);
    }
  }

  lemma NewestAlone(v: seq<State>, q: seq<Dict>, s: State)
    requires Ordered(v) && s in v && DriverMatches(s, q)
    ensures Select(v, q, s.rev - 1, s.rev) == [s]
  {
    assert NextInLog(v, s.rev - 1, s);
    SelectEmpty(v, q, s.rev - 1, s.rev - 1);
    ScanOne(v, q, s.rev - 1, s.rev - 1, s);
  }

  lemma FoldedAreMatches(v: seq<State>, q: seq<Dict>, lo: int, hi: int, latestOnly: bool)
    requires Ordered(v)
    ensures forall s | s in Fold(Select(v, q, lo, hi), latestOnly) :: s in v && DriverMatches(s, q)
  {
    SelectMembers(v, q, lo, hi);
    SelectOrdered(v, q, lo, hi);
    LatestOfIsNewest(Select(v, q, lo, hi));
  }
}
