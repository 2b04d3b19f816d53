/** The append-only state log, as every driver publishes it: a sequence of
    states with strictly increasing revisions.  `Select` is the reference
    answer to "states with a revision greater than SinceRev" (cmd.go). */
module RevLog {
  import opened States

  ghost predicate Ordered(v: seq<State>) {
    forall i, j | 0 <= i < j < |v| :: v[i].rev < v[j].rev
  }

  // The revisions of an ordered log that ends at or below `rev` and starts above 0.
  ghost predicate LogInv(v: seq<State>, rev: int) {
    && Ordered(v)
    && forall i | 0 <= i < |v| :: 0 < v[i].rev <= rev
  }

  predicate Hit(s: State, q: seq<Dict>, lo: int, hi: int) {
    lo < s.rev <= hi && DriverMatches(s, q)
  }

  /** The states of `v` in (lo, hi] that match `q`, oldest first. */
  function Select(v: seq<State>, q: seq<Dict>, lo: int, hi: int): seq<State> {
    if v == [] then []
    else Select(v[..|v| - 1], q, lo, hi) + if Hit(v[|v| - 1], q, lo, hi) then [v[|v| - 1]] else []
  }

  lemma {:induction false} SelectMembers(v: seq<State>, q: seq<Dict>, lo: int, hi: int)
    ensures forall s :: s in Select(v, q, lo, hi) <==> s in v && Hit(s, q, lo, hi)
  {
    if v != [] {
      SelectMembers(v[..|v| - 1], q, lo, hi);
      assert v == v[..|v| - 1] + [v[|v| - 1]];
    }
  }

  lemma {:induction false} SelectOrdered(v: seq<State>, q: seq<Dict>, lo: int, hi: int)
    requires Ordered(v)
    ensures Ordered(Select(v, q, lo, hi))
  {
    if v != [] {
      var init, s := v[..|v| - 1], v[|v| - 1];
      SelectOrdered(init, q, lo, hi);
      SelectMembers(init, q, lo, hi);
      forall x | x in Select(init, q, lo, hi) ensures x.rev < s.rev {
        var i :| 0 <= i < |init| && init[i] == x;
      }
    }
  }

  ghost predicate SameMembers(a: seq<State>, b: seq<State>) {
    forall s :: s in a <==> s in b
  }

  /** Two ordered sequences with the same members are the same sequence. */
  lemma {:induction false} OrderedUnique(a: seq<State>, b: seq<State>)
    requires Ordered(a) && Ordered(b) && SameMembers(a, b)
    ensures a == b
  {
    BothEmpty(a, b);
    if a != [] {
      LastsAgree(a, b);
      InitsAgree(a, b);
      var a', b' := a[..|a| - 1], b[..|b| - 1];
      OrderedUnique(a', b');
      assert a == a' + [a[|a| - 1]];
      assert b == b' + [b[|b| - 1]];
    }
  }

  lemma NonemptyHasMember(b: seq<State>)
    ensures b != [] <==> exists s :: s in b
  {
    if b != [] {
      assert b[0] in b;
    }
  }

  lemma BothEmpty(a: seq<State>, b: seq<State>)
    requires SameMembers(a, b)
    ensures a == [] <==> b == []
  {
    NonemptyHasMember(a);
    NonemptyHasMember(b);
  }

  lemma LastsAgree(a: seq<State>, b: seq<State>)
    requires Ordered(a) && Ordered(b) && SameMembers(a, b) && a != [] && b != []
    ensures a[|a| - 1] == b[|b| - 1]
  {
    var x, y := a[|a| - 1], b[|b| - 1];
    assert x in b && y in a;
    var i :| 0 <= i < |a| && a[i] == y;
    var j :| 0 <= j < |b| && b[j] == x;
  }

  lemma InitsAgree(a: seq<State>, b: seq<State>)
    requires Ordered(a) && Ordered(b) && SameMembers(a, b) && a != [] && b != []
    requires a[|a| - 1] == b[|b| - 1]
    ensures SameMembers(a[..|a| - 1], b[..|b| - 1])
  {
    var a', b' := a[..|a| - 1], b[..|b| - 1];
    forall s: State ensures s in a' <==> s in b' {
      InitMember(a, s);
      InitMember(b, s);
    }
  }

  lemma InitMember(a: seq<State>, s: State)
    requires Ordered(a) && a != []
    ensures s in a[..|a| - 1] <==> s in a && s != a[|a| - 1]
  {
    if s in a && s != a[|a| - 1] {
      var i :| 0 <= i < |a| && a[i] == s;
      assert a[..|a| - 1][i] == s;
    }
  }

  /** Whatever has Select's members in Select's order is Select. */
  lemma SelectUnique(v: seq<State>, q: seq<Dict>, lo: int, hi: int, a: seq<State>)
    requires Ordered(v) && Ordered(a)
    requires forall s :: s in a <==> s in v && Hit(s, q, lo, hi)
    ensures a == Select(v, q, lo, hi)
  {
    SelectMembers(v, q, lo, hi);
    SelectOrdered(v, q, lo, hi);
    OrderedUnique(a, Select(v, q, lo, hi));
  }

  lemma SelectSplit(v: seq<State>, q: seq<Dict>, lo: int, mid: int, hi: int)
    requires Ordered(v) && lo <= mid <= hi
    ensures Select(v, q, lo, mid) + Select(v, q, mid, hi) == Select(v, q, lo, hi)
  {
    SelectMembers(v, q, lo, mid);
    SelectMembers(v, q, mid, hi);
    SelectOrdered(v, q, lo, mid);
    SelectOrdered(v, q, mid, hi);
    var a, b := Select(v, q, lo, mid), Select(v, q, mid, hi);
    forall x, y | x in a && y in b ensures x.rev < y.rev {}
    SelectUnique(v, q, lo, hi, a + b);
  }

  /** Appending newer states changes no answer about older revisions. */
  lemma {:induction false} SelectStable(v: seq<State>, more: seq<State>, q: seq<Dict>, lo: int, hi: int)
    requires forall i | 0 <= i < |more| :: hi < more[i].rev
    ensures Select(v + more, q, lo, hi) == Select(v, q, lo, hi)
  {
    if more == [] {
      assert v + more == v;
    } else {
      var init := more[..|more| - 1];
      assert (v + more)[..|v + more| - 1] == v + init;
      SelectStable(v, init, q, lo, hi);
    }
  }

  /** A bound at or above every revision can be raised freely. */
  lemma {:induction false} SelectClamp(v: seq<State>, q: seq<Dict>, lo: int, top: int, hi: int)
    requires top <= hi && forall i | 0 <= i < |v| :: v[i].rev <= top
    ensures Select(v, q, lo, hi) == Select(v, q, lo, top)
  {
    if v != [] {
      SelectClamp(v[..|v| - 1], q, lo, top, hi);
    }
  }

  lemma {:induction false} SelectEmpty(v: seq<State>, q: seq<Dict>, lo: int, hi: int)
    requires hi <= lo
    ensures Select(v, q, lo, hi) == []
  {
    if v != [] {
      SelectEmpty(v[..|v| - 1], q, lo, hi);
    }
  }

  /** A prefix of an answer is the answer up to the prefix's last revision. */
  lemma SelectPrefix(v: seq<State>, q: seq<Dict>, lo: int, hi: int, n: nat)
    requires Ordered(v) && 0 < n <= |Select(v, q, lo, hi)|
    ensures var a := Select(v, q, lo, hi);
            Select(v, q, lo, a[n - 1].rev) == a[..n] && lo < a[n - 1].rev <= hi
  {
    var a := Select(v, q, lo, hi);
    SelectMembers(v, q, lo, hi);
    SelectOrdered(v, q, lo, hi);
    assert a[n - 1] in a;
    forall s ensures s in a[..n] <==> s in v && Hit(s, q, lo, a[n - 1].rev) {
      if s in v && Hit(s, q, lo, a[n - 1].rev) {
        assert s in a;
        var i :| 0 <= i < |a| && a[i] == s;
        assert a[..n][i] == s;
      }
      if s in a[..n] { assert s in a; }
    }
    SelectUnique(v, q, lo, a[n - 1].rev, a[..n]);
  }

  /** The rest of an answer is the answer from the prefix's last revision on. */
  lemma SelectSuffix(v: seq<State>, q: seq<Dict>, lo: int, hi: int, n: nat)
    requires Ordered(v) && 0 < n <= |Select(v, q, lo, hi)|
    ensures var a := Select(v, q, lo, hi);
            Select(v, q, a[n - 1].rev, hi) == a[n..]
  {
    var a := Select(v, q, lo, hi);
    SelectPrefix(v, q, lo, hi, n);
    SelectSplit(v, q, lo, a[n - 1].rev, hi);
    assert a == a[..n] + a[n..];
  }

  // ------------------------------------------------------------------ pages

  datatype Page = Page(states: seq<State>, more: bool)

  /** The first `limit` states, and whether that dropped any; 0 is no limit. */
  function Cut(states: seq<State>, limit: int): Page {
    if 0 < limit < |states| then Page(states[..limit], true) else Page(states, false)
  }

  /** A driver's page for (since, limit), scanned while the log grew to `v`:
      everything matching up to some revision `hi`, where the scan stopped early
      only because the limit was reached; More is never a false promise, and only
      a full page makes it. */
  ghost predicate IsPage(v: seq<State>, q: seq<Dict>, since: int, limit: int, until: int, p: Page) {
    exists hi :: PageUpTo(v, q, since, limit, until, p, hi)
  }

  ghost predicate PageUpTo(v: seq<State>, q: seq<Dict>, since: int, limit: int, until: int, p: Page, hi: int) {
    && p.states == Select(v, q, since, hi)
    && |p.states| <= limit
    && (|p.states| == limit || until <= hi)
    && (p.more ==> |p.states| == limit)
    && (p.more ==> exists i :: 0 <= i < |v| && hi < v[i].rev && DriverMatches(v[i], q))
  }
}
