/** Base 64 with padding, section 4 of RFC 4648. */
module Base64 {
  import opened States
  import opened Wire

  function Symbol(v: int): char
    requires 0 <= v < 64
  {
    if v < 26 then ('A' as int + v) as char
    else if v < 52 then ('a' as int + (v - 26)) as char
    else if v < 62 then ('0' as int + (v - 52)) as char
    else if v == 62 then '+' else '/'
  }

  // The value of a symbol, -1 for a character outside the alphabet.
  function SymbolValue(c: char): (v: int)
    ensures -1 <= v < 64
  {
    if 'A' <= c <= 'Z' then c as int - 'A' as int
    else if 'a' <= c <= 'z' then c as int - 'a' as int + 26
    else if '0' <= c <= '9' then c as int - '0' as int + 52
    else if c == '+' then 62
    else if c == '/' then 63
    else -1
  }

  // The four six-bit groups of three bytes, and the bytes of the groups.
  function Group0(x: char): (v: int)
    requires x as int < 256
    ensures 0 <= v < 64
  {
    x as int / 4
  }

  function Group1(x: char, y: char): (v: int)
    requires x as int < 256 && y as int < 256
    ensures 0 <= v < 64
  {
    x as int % 4 * 16 + y as int / 16
  }

  function Group2(y: char, z: char): (v: int)
    requires y as int < 256 && z as int < 256
    ensures 0 <= v < 64
  {
    y as int % 16 * 4 + z as int / 64
  }

  function Group3(z: char): (v: int)
    ensures 0 <= v < 64
  {
    z as int % 64
  }

  function Byte0(p: int, q: int): char
    requires 0 <= p < 64 && 0 <= q < 64
  {
    (p * 4 + q / 16) as char
  }

  function Byte1(q: int, r: int): char
    requires 0 <= q < 64 && 0 <= r < 64
  {
    (q % 16 * 16 + r / 4) as char
  }

  function Byte2(r: int, t: int): char
    requires 0 <= r < 64 && 0 <= t < 64
  {
    (r % 4 * 64 + t) as char
  }

  lemma Regroup(x: char, y: char, z: char)
    requires x as int < 256 && y as int < 256 && z as int < 256
    ensures Byte0(Group0(x), Group1(x, y)) == x
    ensures Byte1(Group1(x, y), Group2(y, z)) == y
    ensures Byte2(Group2(y, z), Group3(z)) == z
  {
  }

  const ZERO := 0 as char

  function Encode(b: Text): Text
    requires Bytes(b)
  {
    if b == "" then ""
    else if |b| == 1 then [Symbol(Group0(b[0])), Symbol(Group1(b[0], ZERO)), '=', '=']
    else if |b| == 2 then
      [Symbol(Group0(b[0])), Symbol(Group1(b[0], b[1])), Symbol(Group2(b[1], ZERO)), '=']
    else
      [Symbol(Group0(b[0])), Symbol(Group1(b[0], b[1])), Symbol(Group2(b[1], b[2])), Symbol(Group3(b[2]))] + Encode(b[3..])
  }

  // Padding is read only at the end of the text.
  function Decode(s: Text): Option<Text> {
    if s == "" then Some("")
    else if |s| < 4 then None
    else
      var p, q, r, t := SymbolValue(s[0]), SymbolValue(s[1]), SymbolValue(s[2]), SymbolValue(s[3]);
      if p < 0 || q < 0 then None
      else if |s| == 4 && s[2] == '=' && s[3] == '=' then Some([Byte0(p, q)])
      else if r < 0 then None
      else if |s| == 4 && s[3] == '=' then Some([Byte0(p, q), Byte1(q, r)])
      else if t < 0 then None
      else
        var rest := Decode(s[4..]);
        if rest.None? then None else Some([Byte0(p, q), Byte1(q, r), Byte2(r, t)] + rest.value)
  }

  lemma SymbolRoundTrip(v: int)
    requires 0 <= v < 64
    ensures SymbolValue(Symbol(v)) == v && Symbol(v) != '='
  {
  }

  lemma LastOne(b: Text)
    requires Bytes(b) && |b| == 1
    ensures Decode(Encode(b)) == Some(b)
  {
    Regroup(b[0], ZERO, ZERO);
    SymbolRoundTrip(Group0(b[0]));
    SymbolRoundTrip(Group1(b[0], ZERO));
    hide Symbol, SymbolValue, Group0, Group1, Byte0, Byte1, Byte2;
    assert b == [b[0]];
  }

  lemma LastTwo(b: Text)
    requires Bytes(b) && |b| == 2
    ensures Decode(Encode(b)) == Some(b)
  {
    Regroup(b[0], b[1], ZERO);
    SymbolRoundTrip(Group0(b[0]));
    SymbolRoundTrip(Group1(b[0], b[1]));
    SymbolRoundTrip(Group2(b[1], ZERO));
    hide Symbol, SymbolValue, Group0, Group1, Group2, Byte0, Byte1, Byte2;
    assert b == [b[0], b[1]];
  }

  lemma FourThen(p: char, q: char, r: char, t: char, rest: Text)
    ensures ([p, q, r, t] + rest)[4..] == rest
  {
  }

  lemma Three(b: Text)
    requires Bytes(b) && |b| >= 3
    ensures Decode(Encode(b)) == (var rest := Decode(Encode(b[3..])); if rest.None? then None else Some(b[..3] + rest.value))
  {
    Regroup(b[0], b[1], b[2]);
    SymbolRoundTrip(Group0(b[0]));
    SymbolRoundTrip(Group1(b[0], b[1]));
    SymbolRoundTrip(Group2(b[1], b[2]));
    SymbolRoundTrip(Group3(b[2]));
    hide Symbol, SymbolValue, Group0, Group1, Group2, Group3, Byte0, Byte1, Byte2;
    assert b[..3] == [b[0], b[1], b[2]];
    FourThen(Symbol(Group0(b[0])), Symbol(Group1(b[0], b[1])), Symbol(Group2(b[1], b[2])), Symbol(Group3(b[2])), Encode(b[3..]));
  }

  /** Decoding gives back every byte string, of any length. */
  lemma {:induction false} RoundTrip(b: Text)
    requires Bytes(b)
    ensures Decode(Encode(b)) == Some(b)
  {
    if b == "" {
    } else if |b| == 1 {
      LastOne(b);
    } else if |b| == 2 {
      LastTwo(b);
    } else {
      RoundTrip(b[3..]);
      Three(b);
      assert b == b[..3] + b[3..];
    }
  }

  lemma NonemptyEncodes(b: Text)
    requires Bytes(b)
    ensures Encode(b) == "" <==> b == ""
  {
  }

  lemma {:induction false} EncodedIsBytes(b: Text)
    requires Bytes(b)
    ensures Bytes(Encode(b))
  {
    if |b| > 2 {
      EncodedIsBytes(b[3..]);
    }
  }

  // ------------------------------------------------------------- what the text is

  /** The alphabet is table 1 of RFC 4648. */
  lemma AlphabetIs()
    ensures [Symbol(0), Symbol(1), Symbol(2), Symbol(3), Symbol(4), Symbol(5), Symbol(6), Symbol(7),
             Symbol(8), Symbol(9), Symbol(10), Symbol(11), Symbol(12), Symbol(13), Symbol(14), Symbol(15),
             Symbol(16), Symbol(17), Symbol(18), Symbol(19), Symbol(20), Symbol(21), Symbol(22), Symbol(23),
             Symbol(24), Symbol(25), Symbol(26), Symbol(27), Symbol(28), Symbol(29), Symbol(30), Symbol(31),
             Symbol(32), Symbol(33), Symbol(34), Symbol(35), Symbol(36), Symbol(37), Symbol(38), Symbol(39),
             Symbol(40), Symbol(41), Symbol(42), Symbol(43), Symbol(44), Symbol(45), Symbol(46), Symbol(47),
             Symbol(48), Symbol(49), Symbol(50), Symbol(51), Symbol(52), Symbol(53), Symbol(54), Symbol(55),
             Symbol(56), Symbol(57), Symbol(58), Symbol(59), Symbol(60), Symbol(61), Symbol(62), Symbol(63)] ==
            "ABCDEFGHIJKLMNOPQRSTUVWXYZabcdefghijklmnopqrstuvwxyz0123456789+/"
  {
  }

  ghost predicate Stands(c: char, v: int) {
    0 <= v < 64 && c == Symbol(v)
  }

  /** Three bytes are 24 bits, written as four characters of six bits each, the highest
      first; the rest follows. */
  lemma ThreeBytes(b: Text) returns (p: int, q: int, r: int, t: int)
    requires Bytes(b) && |b| >= 3
    ensures |Encode(b)| >= 4 && Encode(b)[4..] == Encode(b[3..])
    ensures Stands(Encode(b)[0], p) && Stands(Encode(b)[1], q) && Stands(Encode(b)[2], r) && Stands(Encode(b)[3], t)
    ensures p * 0x4_0000 + q * 0x1000 + r * 0x40 + t == b[0] as int * 0x1_0000 + b[1] as int * 0x100 + b[2] as int
  {
    p, q, r, t := Group0(b[0]), Group1(b[0], b[1]), Group2(b[1], b[2]), Group3(b[2]);
    Bits24(b[0], b[1], b[2]);
    hide Symbol, Group0, Group1, Group2, Group3;
    assert Encode(b) == [Symbol(p), Symbol(q), Symbol(r), Symbol(t)] + Encode(b[3..]);
    hide Encode;
    FourThen(Symbol(p), Symbol(q), Symbol(r), Symbol(t), Encode(b[3..]));
  }

  lemma Bits24(x: char, y: char, z: char)
    requires x as int < 256 && y as int < 256 && z as int < 256
    ensures Group0(x) * 0x4_0000 + Group1(x, y) * 0x1000 + Group2(y, z) * 0x40 + Group3(z) ==
            x as int * 0x1_0000 + y as int * 0x100 + z as int
  {
  }

  /** Two bytes at the end are 16 bits and two zero bits, in three characters and a pad. */
  lemma TwoBytes(b: Text) returns (p: int, q: int, r: int)
    requires Bytes(b) && |b| == 2
    ensures |Encode(b)| == 4 && Stands(Encode(b)[0], p) && Stands(Encode(b)[1], q) && Stands(Encode(b)[2], r) && Encode(b)[3] == '='
    ensures p * 0x1000 + q * 0x40 + r == (b[0] as int * 0x100 + b[1] as int) * 4
  {
    p, q, r := Group0(b[0]), Group1(b[0], b[1]), Group2(b[1], ZERO);
    Bits24(b[0], b[1], ZERO);
    NoBits();
    hide Symbol, Group0, Group1, Group2, Group3;
  }

  lemma NoBits()
    ensures Group3(ZERO) == 0 && Group2(ZERO, ZERO) == 0
  {
  }

  /** One byte at the end is eight bits and four zero bits, in two characters and two pads. */
  lemma OneByte(b: Text) returns (p: int, q: int)
    requires Bytes(b) && |b| == 1
    ensures |Encode(b)| == 4 && Stands(Encode(b)[0], p) && Stands(Encode(b)[1], q) && Encode(b)[2] == Encode(b)[3] == '='
    ensures p * 0x40 + q == b[0] as int * 16
  {
    p, q := Group0(b[0]), Group1(b[0], ZERO);
    Bits24(b[0], ZERO, ZERO);
    NoBits();
    hide Symbol, Group0, Group1, Group2, Group3;
  }

  lemma {:induction false} EncodedLength(b: Text)
    requires Bytes(b)
    ensures |Encode(b)| == (|b| + 2) / 3 * 4
  {
    if |b| > 2 {
      EncodedLength(b[3..]);
      assert |Encode(b)| == 4 + |Encode(b[3..])|;
      hide Encode, Bytes;
      assert (|b| + 2) / 3 == (|b| - 3 + 2) / 3 + 1;
    }
  }
}
