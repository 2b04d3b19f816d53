/** What the bytes of the wire are, without reference to the encoder: base 128
    varints, tags and lengths, as the sections "Base 128 Varints" and "Message
    Structure" of the Protocol Buffers Encoding specification lay them out. */
module WireLayout {
  import opened States
  import opened Wire

  function Power(n: nat): (p: nat)
    ensures p > 0
  {
    if n == 0 then 1 else 128 * Power(n - 1)
  }

  /** Every byte but the last has its high bit set, the last has not. */
  predicate IsVarint(s: Text) {
    && s != "" && s[|s| - 1] as int < 128
    && forall i | 0 <= i < |s| - 1 :: 128 <= s[i] as int < 256
  }

  /** The sum of the low seven bits of each byte, least significant group first. */
  function Base128(s: Text): nat {
    if s == "" then 0 else Base128(s[..|s| - 1]) + s[|s| - 1] as int % 128 * Power(|s| - 1)
  }

  // The same sum from its other end.
  lemma {:induction false} Base128Head(s: Text)
    requires s != ""
    ensures Base128(s) == s[0] as int % 128 + 128 * Base128(s[1..])
  {
    var n := |s|;
    if n == 1 {
      assert s[..0] == "" && s[1..] == "";
    } else {
      var init := s[..n - 1];
      Base128Head(init);
      assert init[1..] == s[1..][..n - 2];
      LastGroup(s[n - 1] as int % 128, Power(n - 2));
      assert Base128(s[1..]) == Base128(init[1..]) + s[n - 1] as int % 128 * Power(n - 2);
    }
  }

  lemma LastGroup(d: nat, p: nat)
    ensures d * (128 * p) == 128 * (d * p)
  {
  }

  // A byte with its high bit set in front of a varint makes a longer one.
  lemma LongerVarint(c: char, t: Text)
    requires 128 <= c as int < 256 && IsVarint(t)
    ensures IsVarint([c] + t) && Base128([c] + t) == c as int - 128 + 128 * Base128(t)
    ensures ([c] + t)[|t|] == t[|t| - 1]
  {
    hide Base128;
    var s := [c] + t;
    assert s[1..] == t;
    Base128Head(s);
    forall i | 0 <= i < |s| - 1 ensures 128 <= s[i] as int < 256 {
      assert i > 0 ==> s[i] == t[i - 1];
    }
  }

  // ------------------------------------------------------------- the encoder

  /** A number is written as the varint of its value, with no group to spare. */
  lemma {:induction false} VarintLayout(n: nat)
    ensures var s := EncVarint(n);
            IsVarint(s) && Base128(s) == n && (|s| > 1 ==> s[|s| - 1] as int > 0)
  {
    var s := EncVarint(n);
    if n < 128 {
      assert s[..0] == "" && Power(0) == 1;
    } else {
      VarintLayout(n / 128);
      LongerVarint((n % 128 + 128) as char, EncVarint(n / 128));
      hide Base128, IsVarint;
    }
  }

  lemma {:induction false} BelowPower(s: Text)
    ensures Base128(s) < Power(|s|)
  {
    if s != "" {
      BelowPower(s[..|s| - 1]);
      GroupBelow(s[|s| - 1] as int % 128, Base128(s[..|s| - 1]), Power(|s| - 1));
    }
  }

  lemma GroupBelow(d: nat, low: nat, p: nat)
    requires d < 128 && low < p
    ensures low + d * p < 128 * p
  {
    assert d * p <= 127 * p;
  }

  lemma {:induction false} PowerGrows(m: nat, n: nat)
    requires m <= n
    ensures Power(m) <= Power(n)
  {
    if m < n {
      PowerGrows(m, n - 1);
    }
  }

  /** No varint of the same value is shorter. */
  lemma VarintIsShortest(n: nat, t: Text)
    requires IsVarint(t) && Base128(t) == n
    ensures |EncVarint(n)| <= |t|
  {
    var s := EncVarint(n);
    VarintLayout(n);
    BelowPower(t);
    if |t| < |s| {
      PowerGrows(|t|, |s| - 1);
      AtLeast(s[|s| - 1] as int % 128, Power(|s| - 1));
    }
  }

  lemma AtLeast(d: nat, p: nat)
    requires d > 0
    ensures d * p >= p
  {
  }

  // ------------------------------------------------------------- the decoder

  /** Any varint, padded or not, is read as its value, whatever follows. */
  lemma {:induction false} VarintIsRead(s: Text, rest: Text)
    requires IsVarint(s)
    ensures DecVarint(s + rest) == Some((Base128(s), rest))
  {
    Base128Head(s);
    assert (s + rest)[1..] == s[1..] + rest;
    if |s| == 1 {
      assert s[1..] == "" && "" + rest == rest;
    } else {
      VarintIsRead(s[1..], rest);
    }
  }

  // Some byte ends a varint.
  ghost predicate HasEnd(s: Text) {
    exists i :: 0 <= i < |s| && s[i] as int < 128
  }

  lemma EndShifts(s: Text)
    requires s != "" && s[0] as int >= 128
    ensures HasEnd(s) <==> HasEnd(s[1..])
  {
    if HasEnd(s) {
      var i :| 0 <= i < |s| && s[i] as int < 128;
      assert s[1..][i - 1] as int < 128;
    }
    if HasEnd(s[1..]) {
      var i :| 0 <= i < |s| - 1 && s[1..][i] as int < 128;
      assert s[i + 1] as int < 128;
    }
  }

  /** And nothing else is read: what is taken off the input is a varint. */
  lemma {:induction false} OnlyVarintsAreRead(s: Text)
    requires Bytes(s)
    ensures DecVarint(s).Some? <==> HasEnd(s)
    ensures DecVarint(s).Some? ==>
              var (n, rest) := DecVarint(s).value;
              |rest| < |s| && s[|s| - |rest|..] == rest && IsVarint(s[..|s| - |rest|]) && Base128(s[..|s| - |rest|]) == n
  {
    if s != "" {
      if s[0] as int < 128 {
        assert s[..1][..0] == "";
      } else {
        OnlyVarintsAreRead(s[1..]);
        EndShifts(s);
        if DecVarint(s).Some? {
          var k := |s| - |DecVarint(s).value.1|;
          LongerVarint(s[0], s[1..][..k - 1]);
          assert [s[0]] + s[1..][..k - 1] == s[..k];
        }
        hide HasEnd, Base128, IsVarint;
      }
    }
  }

  // ------------------------------------------------------------- int64 values

  lemma {:induction false} TenGroups()
    ensures Power(9) == TWO63 && Power(10) == 128 * TWO63 && 2 * TWO63 == TWO64
  {
    assert Power(5) == 128 * Power(4) == 128 * 128 * Power(3);
    assert Power(3) == 128 * 128 * 128;
    assert Power(9) == 128 * Power(8) && Power(8) == 128 * Power(7) && Power(7) == 128 * Power(6) && Power(6) == 128 * Power(5);
  }

  /** A negative number always takes ten bytes, the last of them 1; one that is not
      takes at most nine. */
  lemma Int64Layout(v: int)
    requires IsInt64(v)
    ensures v < 0 ==> Base128(EncVarint(ToUint64(v))) == TWO64 + v
    ensures v >= 0 ==> Base128(EncVarint(ToUint64(v))) == v
    ensures var s := EncVarint(ToUint64(v)); if v < 0 then |s| == 10 && s[9] as int == 1 else |s| <= 9
  {
    var s := EncVarint(ToUint64(v));
    VarintLayout(ToUint64(v));
    TenGroups();
    LengthIs(s, if v < 0 then 10 else 9, ToUint64(v));
    if v < 0 {
      var n, last := |s|, s[|s| - 1] as int % 128;
      BelowPower(s);
      if n < 10 {
        PowerGrows(n, 9);
      }
      assert n == 10;
      BelowPower(s[..9]);
      assert Base128(s) == Base128(s[..9]) + last * Power(9);
    }
  }

  lemma LengthIs(s: Text, n: nat, value: nat)
    requires IsVarint(s) && Base128(s) == value < Power(n) && (|s| > 1 ==> s[|s| - 1] as int > 0) && n > 0
    ensures |s| <= n
  {
    if |s| > n {
      PowerGrows(n, |s| - 1);
      AtLeast(s[|s| - 1] as int % 128, Power(|s| - 1));
    }
  }

  // ------------------------------------------------------------- fields

  const VARINT := 0
  const LEN := 2

  /** A field is a tag that holds its number and wire type, then a varint, or a
      length and that many bytes. */
  ghost predicate FieldLayout(f: Field, s: Text) {
    match f
    case Varint(num, value) =>
      exists tag, body :: s == tag + body && IsVarint(tag) && Base128(tag) == num * 8 + VARINT && IsVarint(body) && Base128(body) == value
    case Len(num, data) =>
      exists tag, len :: s == tag + len + data && IsVarint(tag) && Base128(tag) == num * 8 + LEN && IsVarint(len) && Base128(len) == |data|
  }

  lemma FieldIsLaidOut(f: Field)
    ensures FieldLayout(f, EncField(f))
  {
    match f {
      case Varint(num, value) =>
        VarintLayout(8 * num);
        VarintLayout(value);
      case Len(num, data) =>
        VarintLayout(8 * num + 2);
        VarintLayout(|data|);
        Assoc(EncVarint(8 * num + 2), EncVarint(|data|), data);
    }
  }

  lemma NumberIsRead(num: nat, value: nat, tag: Text, body: Text, rest: Text)
    requires IsVarint(tag) && Base128(tag) == num * 8 + VARINT && IsVarint(body) && Base128(body) == value
    ensures NextField(tag + body + rest) == Some((Varint(num, value), rest))
  {
    hide Base128, IsVarint, DecVarint;
    Assoc(tag, body, rest);
    VarintIsRead(tag, body + rest);
    VarintIsRead(body, rest);
  }

  lemma RecordIsRead(num: nat, data: Text, tag: Text, len: Text, rest: Text)
    requires IsVarint(tag) && Base128(tag) == num * 8 + LEN && IsVarint(len) && Base128(len) == |data|
    ensures NextField(tag + len + data + rest) == Some((Len(num, data), rest))
  {
    hide Base128, IsVarint, DecVarint;
    Assoc(tag + len, data, rest);
    Assoc(tag, len, data + rest);
    VarintIsRead(tag, len + (data + rest));
    VarintIsRead(len, data + rest);
    assert (data + rest)[..|data|] == data && (data + rest)[|data|..] == rest;
  }

  /** Every field laid out so is read, whoever wrote it. */
  lemma LaidOutIsRead(f: Field, s: Text, rest: Text)
    requires FieldLayout(f, s)
    ensures NextField(s + rest) == Some((f, rest))
  {
    hide Base128, IsVarint, NextField;
    match f {
      case Varint(num, value) =>
        var tag, body :| s == tag + body && IsVarint(tag) && Base128(tag) == num * 8 + VARINT && IsVarint(body) && Base128(body) == value;
        NumberIsRead(num, value, tag, body, rest);
      case Len(num, data) =>
        var tag, len :| s == tag + len + data && IsVarint(tag) && Base128(tag) == num * 8 + LEN && IsVarint(len) && Base128(len) == |data|;
        RecordIsRead(num, data, tag, len, rest);
    }
  }
}
