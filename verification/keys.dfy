/** The zero-padded keys of badgerdriver/op.go: their byte order is the order of
    the numbers in them, and seeking by key is seeking by revision. */
module Keys {
  import opened States
  import opened Decimal
  import opened LabelsIterators

  const WIDTH := 20

  // ------------------------------------------------------------- byte order

  /** Strictly smaller as a byte string, as Badger orders its keys. */
  predicate Less(a: Text, b: Text) {
    b != "" && (a == "" || a[0] < b[0] || (a[0] == b[0] && Less(a[1..], b[1..])))
  }

  lemma {:induction false} LessPairs(a: Text, b: Text, c: Text, d: Text)
    requires |a| == |b|
    ensures Less(a + c, b + d) <==> Less(a, b) || (a == b && Less(c, d))
  {
    if a == "" {
      assert a + c == c && b + d == d;
    } else {
      assert (a + c)[1..] == a[1..] + c && (b + d)[1..] == b[1..] + d;
      LessPairs(a[1..], b[1..], c, d);
      assert a == b <==> a[0] == b[0] && a[1..] == b[1..] by {
        assert a == [a[0]] + a[1..] && b == [b[0]] + b[1..];
      }
    }
  }

  lemma {:induction false} LessIrreflexive(a: Text)
    ensures !Less(a, a)
  {
    if a != "" {
      LessIrreflexive(a[1..]);
    }
  }

  // ------------------------------------------------------------- numbers in keys

  // The numbers that fit the width, sign included; every int64 does.
  predicate Fits(n: int) {
    -Pow10(WIDTH - 1) < n < Pow10(WIDTH)
  }

  /** fmt's %020d. */
  function Format(n: int): (s: Text)
    ensures Fits(n) ==> |s| == WIDTH
  {
    if n < 0 then "-" + AtLeast(-n, WIDTH - 1) else AtLeast(n, WIDTH)
  }

  function AtLeast(n: nat, w: nat): Text {
    if n < Pow10(w) then Pad(n, w) else Itoa(n)
  }

  lemma {:induction false} PadOrder(n: nat, m: nat, w: nat)
    requires n < Pow10(w) && m < Pow10(w)
    ensures Less(Pad(n, w), Pad(m, w)) <==> n < m
    ensures Pad(n, w) == Pad(m, w) <==> n == m
  {
    PadParses(n, w);
    PadParses(m, w);
    if w > 0 {
      PadOrder(n / 10, m / 10, w - 1);
      LessPairs(Pad(n / 10, w - 1), Pad(m / 10, w - 1), [Digit(n % 10)], [Digit(m % 10)]);
      assert Less([Digit(n % 10)], [Digit(m % 10)]) <==> n % 10 < m % 10;
    }
  }

  /** Keys parse back, so they are injective. */
  lemma FormatParses(n: int)
    requires Fits(n)
    ensures ParseInt(Format(n)) == Some(n)
  {
    hide Pad, Pow10, Value;
    if n < 0 {
      PadParses(-n, WIDTH - 1);
      assert Format(n)[1..] == Pad(-n, WIDTH - 1);
    } else {
      PadParses(n, WIDTH);
      assert IsDigit(Format(n)[0]);
    }
  }

  /** Byte order against numeric order, exactly: they agree unless both numbers
      are negative, where the padded order is the reverse. */
  lemma FormatOrder(n: int, m: int)
    requires Fits(n) && Fits(m)
    ensures Less(Format(n), Format(m)) <==> if n < 0 && m < 0 then m < n else n < m
  {
    hide Pad, Pow10;
    if n < 0 && m < 0 {
      NegativeOrder(-n, -m);
    } else if n >= 0 && m >= 0 {
      PadOrder(n, m, WIDTH);
    } else {
      assert IsDigit(Format(if n < 0 then m else n)[0]);
    }
  }

  /** A number that is not negative takes twenty digits, padded with zeros; a negative
      one nineteen and its sign. */
  lemma FormatLayout(n: int)
    requires Fits(n)
    ensures var s := if n < 0 then Format(n)[1..] else Format(n);
            && (n < 0 ==> Format(n)[0] == '-') && |Format(n)| == 20
            && AllDigits(s) && Sum(s) == if n < 0 then -n else n
  {
    hide Pad, Pow10, Value, Sum;
    var m, w := if n < 0 then -n else n, if n < 0 then WIDTH - 1 else WIDTH;
    PadParses(m, w);
    ValueIsSum(Pad(m, w));
    if n < 0 {
      assert Format(n)[1..] == Pad(m, w);
    }
  }

  lemma NegativeOrder(n: nat, m: nat)
    requires n < Pow10(WIDTH - 1) && m < Pow10(WIDTH - 1)
    ensures Less("-" + Pad(n, WIDTH - 1), "-" + Pad(m, WIDTH - 1)) <==> n < m
  {
    hide Pad, Pow10;
    PadOrder(n, m, WIDTH - 1);
    LessPairs("-", "-", Pad(n, WIDTH - 1), Pad(m, WIDTH - 1));
    LessIrreflexive("-");
  }

  ghost predicate InRange(n: int) {
    0 <= n <= MAX_INT64
  }

  lemma RangeFits(n: int)
    requires InRange(n)
    ensures Fits(n)
  {
    assert Pow10(4) == 10_000;
    assert Pow10(8) == 100_000_000;
    assert Pow10(12) == 1_000_000_000_000;
    assert Pow10(16) == 1_0000_0000_0000_0000;
    assert Pow10(19) == 1000_0000_0000_0000_0000;
  }

  // ------------------------------------------------------------- keys of one number

  ghost predicate AllInRange(l: seq<int>) {
    forall i | 0 <= i < |l| :: InRange(l[i])
  }

  /** labelIndexKey and revIndexKey: a prefix and a padded revision. */
  function Key(prefix: Text, rev: int): Text {
    prefix + Format(rev)
  }

  // toRev: what is left of the key after its prefix, as a number.
  function ToRev(key: Text, prefix: Text): Option<int> {
    if prefix <= key then ParseInt(key[|prefix|..]) else None
  }

  /** A key gives its revision back; the two panics of toRev cannot happen. */
  lemma KeyParses(prefix: Text, rev: int)
    requires InRange(rev)
    ensures ToRev(Key(prefix, rev), prefix) == Some(rev)
  {
    RangeFits(rev);
    FormatParses(rev);
    assert Key(prefix, rev)[|prefix|..] == Format(rev);
  }

  lemma KeyOrder(prefix: Text, n: int, m: int)
    requires InRange(n) && InRange(m)
    ensures Less(Key(prefix, n), Key(prefix, m)) <==> n < m
  {
    RangeFits(n);
    RangeFits(m);
    FormatOrder(n, m);
    LessIrreflexive(prefix);
    LessPairs(prefix, prefix, Format(n), Format(m));
  }

  // ------------------------------------------------------------- keys of two numbers

  /** delayedStateKey and committedAtIndexKey: two padded numbers and a dot. */
  function PairKey(prefix: Text, a: int, b: int): Text {
    prefix + (Format(a) + ("." + Format(b)))
  }

  // Twenty digits, a dot and twenty digits.
  lemma PairLayout(prefix: Text, a: int, b: int)
    requires InRange(a) && InRange(b)
    ensures var k := PairKey(prefix, a, b);
            |k| == |prefix| + 41 && prefix <= k && k[|prefix| + 20] == '.'
            && k[|prefix|..|prefix| + 20] == Format(a) && k[|prefix| + 21..] == Format(b)
  {
    RangeFits(a);
    RangeFits(b);
    FormatLayout(a);
    FormatLayout(b);
    hide Format, Sum;
  }

  /** Keys of pairs compare as the pairs do, first component first. */
  lemma PairOrder(prefix: Text, a: int, b: int, c: int, d: int)
    requires InRange(a) && InRange(b) && InRange(c) && InRange(d)
    ensures Less(PairKey(prefix, a, b), PairKey(prefix, c, d)) <==> a < c || (a == c && b < d)
    ensures PairKey(prefix, a, b) == PairKey(prefix, c, d) ==> a == c && b == d
  {
    RangeFits(a);
    RangeFits(b);
    RangeFits(c);
    RangeFits(d);
    FormatOrder(a, c);
    FormatOrder(b, d);
    FormatOrder(c, a);
    FormatOrder(d, b);
    LessIrreflexive(Format(a));
    LessIrreflexive(Format(b));
    PairLess(prefix, Format(a), Format(b), Format(c), Format(d));
    if PairKey(prefix, a, b) == PairKey(prefix, c, d) {
      PairLess(prefix, Format(c), Format(d), Format(a), Format(b));
      LessIrreflexive(PairKey(prefix, a, b));
    }
    assert a == c <==> Format(a) == Format(c);
  }

  lemma PairLess(prefix: Text, a: Text, b: Text, c: Text, d: Text)
    requires |a| == |c|
    ensures Less(prefix + (a + ("." + b)), prefix + (c + ("." + d))) <==> Less(a, c) || (a == c && Less(b, d))
  {
    LessIrreflexive(prefix);
    LessIrreflexive(".");
    LessPairs(prefix, prefix, a + ("." + b), c + ("." + d));
    LessPairs(a, c, "." + b, "." + d);
    LessPairs(".", ".", b, d);
  }

  // ------------------------------------------------------------- seeking by key

  /** seekPrefix: in reverse a 0xFF byte follows the padded revision. */
  function SeekKey(prefix: Text, reverse: bool, rev: int): Text {
    Key(prefix, rev) + if reverse then [255 as char] else ""
  }

  // Badger's Seek: the first key, in iteration order, at or past the target.
  function BadgerSeek(keys: seq<Text>, reverse: bool, target: Text): nat {
    if keys == [] || (if reverse then !Less(target, keys[0]) else !Less(keys[0], target)) then 0
    else 1 + BadgerSeek(keys[1..], reverse, target)
  }

  function KeysOf(prefix: Text, l: seq<int>): seq<Text> {
    seq(|l|, i requires 0 <= i < |l| => Key(prefix, l[i]))
  }

  ghost predicate KeysSorted(keys: seq<Text>, reverse: bool) {
    forall i, j | 0 <= i < j < |keys| :: if reverse then Less(keys[j], keys[i]) else Less(keys[i], keys[j])
  }

  /** Badger walks a posting list's keys in byte order exactly when the list's
      revisions are in iteration order. */
  lemma KeysSortedExactly(prefix: Text, l: seq<int>, reverse: bool)
    requires AllInRange(l)
    ensures KeysSorted(KeysOf(prefix, l), reverse) <==> Sorted(l, reverse)
  {
    var keys := KeysOf(prefix, l);
    forall i, j | 0 <= i < j < |l|
      ensures (if reverse then Less(keys[j], keys[i]) else Less(keys[i], keys[j])) <==> Rank(l[i], reverse) < Rank(l[j], reverse)
    {
      KeyOrder(prefix, l[i], l[j]);
      KeyOrder(prefix, l[j], l[i]);
    }
    if KeysSorted(keys, reverse) {
      forall i, j | 0 <= i < j < |l| ensures Rank(l[i], reverse) < Rank(l[j], reverse) {
        assert if reverse then Less(keys[j], keys[i]) else Less(keys[i], keys[j]);
      }
    }
  }

  lemma SeekKeyOrder(prefix: Text, reverse: bool, r: int, rev: int)
    requires InRange(r) && InRange(rev)
    ensures reverse ==> (Less(SeekKey(prefix, reverse, rev), Key(prefix, r)) <==> rev < r)
    ensures !reverse ==> (Less(Key(prefix, r), SeekKey(prefix, reverse, rev)) <==> r < rev)
  {
    KeyOrder(prefix, r, rev);
    KeyOrder(prefix, rev, r);
    RangeFits(r);
    RangeFits(rev);
    var suffix := if reverse then [255 as char] else "";
    LessPairs(Key(prefix, rev), Key(prefix, r), suffix, "");
    LessPairs(Key(prefix, r), Key(prefix, rev), "", suffix);
    assert Key(prefix, r) + "" == Key(prefix, r) && Key(prefix, rev) + "" == Key(prefix, rev);
  }

  lemma KeysOfCons(prefix: Text, l: seq<int>)
    requires l != []
    ensures KeysOf(prefix, l) != [] && KeysOf(prefix, l)[0] == Key(prefix, l[0]) && KeysOf(prefix, l)[1..] == KeysOf(prefix, l[1..])
  {
    hide Key;
  }

  /** Seeking by key lands where seeking by revision does: forward on the least
      revision at or past the bound, in reverse on the greatest at or below it. */
  lemma {:induction false} SeekLands(prefix: Text, l: seq<int>, reverse: bool, rev: int)
    requires AllInRange(l) && InRange(rev)
    ensures BadgerSeek(KeysOf(prefix, l), reverse, SeekKey(prefix, reverse, rev)) == FirstAt(l, reverse, rev)
  {
    if l != [] {
      KeysOfCons(prefix, l);
      hide SeekKey, Key, Less, InRange, KeysOf;
      SeekKeyOrder(prefix, reverse, l[0], rev);
      SeekLands(prefix, l[1..], reverse, rev);
    }
  }

  /** In reverse the landing revision is the greatest not above the bound. */
  lemma ReverseSeekIsGreatest(prefix: Text, l: seq<int>, rev: int)
    requires AllInRange(l) && InRange(rev) && Sorted(l, true)
    ensures var k := BadgerSeek(KeysOf(prefix, l), true, SeekKey(prefix, true, rev));
            && (k < |l| ==> l[k] <= rev)
            && forall i | 0 <= i < |l| && l[i] <= rev :: k < |l| && l[i] <= l[k]
  {
    SeekLands(prefix, l, true, rev);
    var k := FirstAt(l, true, rev);
    forall i | 0 <= i < |l| && l[i] <= rev ensures k < |l| && l[i] <= l[k] {
      assert i >= k;
      assert i == k || Rank(l[k], true) < Rank(l[i], true);
    }
  }
}
