/** Decimal text as Go's fmt and strconv write and read it. */
module Decimal {
  import opened States

  function Digit(d: int): char
    requires 0 <= d < 10
  {
    ('0' as int + d) as char
  }

  predicate IsDigit(c: char) {
    '0' <= c <= '9'
  }

  predicate AllDigits(s: Text) {
    forall i | 0 <= i < |s| :: IsDigit(s[i])
  }

  function Pow10(w: nat): (p: int)
    ensures p > 0
  {
    if w == 0 then 1 else 10 * Pow10(w - 1)
  }

  /** n in exactly w digits, padded with zeros. */
  function Pad(n: nat, w: nat): (s: Text)
    ensures |s| == w && AllDigits(s)
  {
    if w == 0 then "" else Pad(n / 10, w - 1) + [Digit(n % 10)]
  }

  /** strconv.Itoa for a natural number. */
  function Itoa(n: nat): (s: Text)
    ensures s != "" && AllDigits(s)
  {
    if n < 10 then [Digit(n)] else Itoa(n / 10) + [Digit(n % 10)]
  }

  // The number a row of digits denotes.
  function Value(s: Text): (n: int)
    requires AllDigits(s)
    ensures n >= 0
  {
    if s == "" then 0 else 10 * Value(s[..|s| - 1]) + (s[|s| - 1] as int - '0' as int)
  }

  /** strconv.ParseInt(s, 10, 64) within int64. */
  function ParseInt(s: Text): Option<int> {
    if s == "" then None
    else if s[0] == '-' || s[0] == '+' then
      if |s| == 1 || !AllDigits(s[1..]) then None
      else Some(if s[0] == '-' then -Value(s[1..]) else Value(s[1..]))
    else if AllDigits(s) then Some(Value(s))
    else None
  }

  lemma {:induction false} PadParses(n: nat, w: nat)
    requires n < Pow10(w)
    ensures Value(Pad(n, w)) == n
  {
    if w > 0 {
      PadParses(n / 10, w - 1);
      ValueSnoc(Pad(n / 10, w - 1), n % 10);
    }
  }

  lemma ValueSnoc(s: Text, d: int)
    requires AllDigits(s) && 0 <= d < 10
    ensures AllDigits(s + [Digit(d)]) && Value(s + [Digit(d)]) == 10 * Value(s) + d
  {
    var t := s + [Digit(d)];
    assert t[..|t| - 1] == s;
  }

  /** What Itoa writes, ParseInt reads. */
  lemma {:induction false} ItoaParses(n: nat)
    ensures ParseInt(Itoa(n)) == Some(n)
  {
    ItoaValue(n);
    assert IsDigit(Itoa(n)[0]);
  }

  lemma {:induction false} ItoaValue(n: nat)
    ensures Value(Itoa(n)) == n
  {
    if n < 10 {
      ValueSnoc("", n);
      assert Itoa(n) == "" + [Digit(n)];
    } else {
      ItoaValue(n / 10);
      ValueSnoc(Itoa(n / 10), n % 10);
    }
  }

  /** strconv.FormatInt and strconv.Itoa. */
  function FormatInt(n: int): Text {
    if n < 0 then "-" + Itoa(-n) else Itoa(n)
  }

  lemma FormatIntParses(n: int)
    ensures FormatInt(n) != "" && ParseInt(FormatInt(n)) == Some(n)
  {
    if n < 0 {
      ItoaValue(-n);
      assert FormatInt(n)[1..] == Itoa(-n);
    } else {
      ItoaParses(n);
    }
  }

  // ------------------------------------------------------------- what the text is

  function TenTo(n: nat): (p: nat)
    ensures p > 0
  {
    if n == 0 then 1 else 10 * TenTo(n - 1)
  }

  /** The sum of the digits, each times its power of ten. */
  function Sum(s: Text): (n: int)
    requires AllDigits(s)
    ensures n >= 0
  {
    if s == "" then 0 else (s[0] as int - '0' as int) * TenTo(|s| - 1) + Sum(s[1..])
  }

  lemma {:induction false} SumSnoc(s: Text, d: char)
    requires AllDigits(s) && IsDigit(d)
    ensures AllDigits(s + [d]) && Sum(s + [d]) == 10 * Sum(s) + (d as int - '0' as int)
  {
    if s == "" {
      assert ([d])[1..] == "" && TenTo(0) == 1;
      assert s + [d] == [d];
    } else {
      assert (s + [d])[1..] == s[1..] + [d];
      SumSnoc(s[1..], d);
      TimesTen(s[0] as int - '0' as int, TenTo(|s| - 1));
    }
  }

  lemma TimesTen(d: int, p: int)
    ensures d * (10 * p) == 10 * (d * p)
  {
  }

  lemma {:induction false} ValueIsSum(s: Text)
    requires AllDigits(s)
    ensures Value(s) == Sum(s)
  {
    if s != "" {
      ValueIsSum(s[..|s| - 1]);
      SumSnoc(s[..|s| - 1], s[|s| - 1]);
      assert s == s[..|s| - 1] + [s[|s| - 1]];
    }
  }

  /** A number is written in decimal digits, the highest first and not zero unless it is
      the only one, after a minus sign when negative. */
  lemma FormatIntLayout(n: int)
    ensures var s := if n < 0 then FormatInt(n)[1..] else FormatInt(n);
            && (n < 0 ==> FormatInt(n)[0] == '-')
            && s != "" && AllDigits(s) && Sum(s) == (if n < 0 then -n else n) && (|s| > 1 ==> s[0] != '0')
  {
    var m := if n < 0 then -n else n;
    ItoaValue(m);
    ValueIsSum(Itoa(m));
    NoLeadingZero(m);
    if n < 0 {
      assert FormatInt(n)[1..] == Itoa(m);
    }
  }

  lemma {:induction false} NoLeadingZero(n: nat)
    ensures n > 0 ==> Itoa(n)[0] != '0'
  {
    if n >= 10 {
      NoLeadingZero(n / 10);
    }
  }

  /** And any decimal number, signed or not, padded or not, is read as its value. */
  lemma ParseIntReads(s: Text)
    requires s != "" && AllDigits(s)
    ensures ParseInt(s) == Some(Sum(s)) && ParseInt("-" + s) == Some(-Sum(s)) && ParseInt("+" + s) == Some(Sum(s))
  {
    ValueIsSum(s);
    assert IsDigit(s[0]);
    assert ("-" + s)[1..] == s && ("+" + s)[1..] == s;
  }
}
