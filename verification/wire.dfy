/** The wire format under protobuf.go: fields of two kinds, as the sections
    "Base 128 Varints" and "Length-Delimited Records" of the Protocol Buffers
    Encoding specification lay them out. */
module Wire {
  import opened States

  const TWO64 := 0x1_0000_0000_0000_0000
  const TWO63 := 0x8000_0000_0000_0000

  /** A Go string or byte slice: every element is one byte. */
  predicate Bytes(s: Text) {
    forall i | 0 <= i < |s| :: s[i] as int < 256
  }

  // ------------------------------------------------------------- varints

  function EncVarint(n: nat): (s: Text)
    ensures s != ""
  {
    if n < 128 then [n as char] else [(n % 128 + 128) as char] + EncVarint(n / 128)
  }

  /** The number at the head of the input and what follows it. */
  function DecVarint(s: Text): (r: Option<(nat, Text)>)
    ensures r.Some? ==> |r.value.1| < |s|
  {
    if s == "" then None
    else
      var c := s[0] as int;
      if c < 128 then Some((c, s[1..]))
      else
        var rest := DecVarint(s[1..]);
        if rest.None? then None else Some((c - 128 + 128 * rest.value.0, rest.value.1))
  }

  lemma {:induction false} VarintRoundTrip(n: nat, rest: Text)
    ensures DecVarint(EncVarint(n) + rest) == Some((n, rest))
  {
    var s := EncVarint(n) + rest;
    if n < 128 {
      assert s[1..] == rest;
    } else {
      VarintRoundTrip(n / 128, rest);
      assert s[1..] == EncVarint(n / 128) + rest;
    }
  }

  // int64 values travel as their two's complement.
  predicate IsInt64(v: int) {
    -TWO63 <= v < TWO63
  }

  function ToUint64(v: int): nat
    requires IsInt64(v)
  {
    if v < 0 then v + TWO64 else v
  }

  function FromUint64(u: nat): int {
    if u < TWO63 then u else u - TWO64
  }

  // ------------------------------------------------------------- fields

  datatype Field = Varint(num: nat, value: nat) | Len(num: nat, data: Text)

  function EncField(f: Field): (s: Text)
    ensures s != ""
  {
    match f
    case Varint(num, value) => EncVarint(8 * num) + EncVarint(value)
    case Len(num, data) => EncVarint(8 * num + 2) + (EncVarint(|data|) + data)
  }

  function Enc(fs: seq<Field>): Text {
    if fs == [] then "" else EncField(fs[0]) + Enc(fs[1..])
  }

  /** NextField: the first field of a message and the rest of it. */
  function NextField(s: Text): (r: Option<(Field, Text)>)
    ensures r.Some? ==> |r.value.1| < |s|
    ensures r.Some? && r.value.0.Len? ==> |r.value.0.data| < |s|
  {
    var tag := DecVarint(s);
    if tag.None? then None
    else
      var num, kind, body := tag.value.0 / 8, tag.value.0 % 8, DecVarint(tag.value.1);
      if body.None? then None
      else if kind == 0 then Some((Varint(num, body.value.0), body.value.1))
      else if kind == 2 && body.value.0 <= |body.value.1| then
        Some((Len(num, body.value.1[..body.value.0]), body.value.1[body.value.0..]))
      else None
  }

  lemma Assoc(a: Text, b: Text, c: Text)
    ensures (a + b) + c == a + (b + c)
  {
  }

  lemma VarintFieldRoundTrip(num: nat, value: nat, rest: Text)
    ensures NextField(EncField(Varint(num, value)) + rest) == Some((Varint(num, value), rest))
  {
    VarintRoundTrip(8 * num, EncVarint(value) + rest);
    VarintRoundTrip(value, rest);
    hide EncVarint, DecVarint;
    Assoc(EncVarint(8 * num), EncVarint(value), rest);
  }

  lemma LenFieldRoundTrip(num: nat, data: Text, rest: Text)
    ensures NextField(EncField(Len(num, data)) + rest) == Some((Len(num, data), rest))
  {
    VarintRoundTrip(8 * num + 2, EncVarint(|data|) + (data + rest));
    VarintRoundTrip(|data|, data + rest);
    hide EncVarint, DecVarint;
    Assoc(EncVarint(8 * num + 2), EncVarint(|data|) + data, rest);
    Assoc(EncVarint(|data|), data, rest);
    assert (data + rest)[..|data|] == data && (data + rest)[|data|..] == rest;
  }

  /** A field written in front of anything is read back, and the rest is left. */
  lemma FieldRoundTrip(f: Field, rest: Text)
    ensures NextField(EncField(f) + rest) == Some((f, rest))
  {
    match f {
      case Varint(num, value) => VarintFieldRoundTrip(num, value, rest);
      case Len(num, data) => LenFieldRoundTrip(num, data, rest);
    }
  }

  // ------------------------------------------------------------- reading a message

  /** Every unmarshaler's loop: take a field, apply it, until the input ends. */
  function Decode<S>(step: (S, Field) -> Result<S>, src: Text, s: S): Result<S>
    decreases |src|
  {
    if src == "" then Ok(s)
    else
      var next := NextField(src);
      if next.None? then Err
      else
        var s' := step(s, next.value.0);
        if s'.Err? then Err else Decode(step, next.value.1, s'.value)
  }

  function Fold<S>(step: (S, Field) -> Result<S>, fs: seq<Field>, s: S): Result<S> {
    if fs == [] then Ok(s)
    else
      var s' := step(s, fs[0]);
      if s'.Err? then Err else Fold(step, fs[1..], s'.value)
  }

  /** Reading back what was written applies the fields in order. */
  lemma {:induction false} DecodeIsFold<S>(step: (S, Field) -> Result<S>, fs: seq<Field>, s: S)
    ensures Decode(step, Enc(fs), s) == Fold(step, fs, s)
  {
    if fs != [] {
      FieldRoundTrip(fs[0], Enc(fs[1..]));
      var s' := step(s, fs[0]);
      if s'.Ok? {
        DecodeIsFold(step, fs[1..], s'.value);
      }
    }
  }

  lemma {:induction false} FoldConcat<S>(step: (S, Field) -> Result<S>, a: seq<Field>, b: seq<Field>, s: S)
    ensures Fold(step, a + b, s) == (var m := Fold(step, a, s); if m.Err? then Err else Fold(step, b, m.value))
  {
    if a == [] {
      assert a + b == b;
    } else {
      assert (a + b)[1..] == a[1..] + b;
      var s' := step(s, a[0]);
      if s'.Ok? {
        FoldConcat(step, a[1..], b, s'.value);
      }
    }
  }

  lemma FoldOne<S>(step: (S, Field) -> Result<S>, f: Field, s: S)
    ensures Fold(step, [f], s) == step(s, f)
  {
    var s' := step(s, f);
    if s'.Ok? {
      assert Fold(step, [f][1..], s'.value) == s';
    }
  }

  lemma FoldCons<S>(step: (S, Field) -> Result<S>, f: Field, rest: seq<Field>, s: S)
    ensures Fold(step, [f] + rest, s) == (var m := step(s, f); if m.Err? then Err else Fold(step, rest, m.value))
  {
    assert ([f] + rest)[1..] == rest;
  }

  // ------------------------------------------------------------- bytes

  ghost predicate FieldBytes(f: Field) {
    f.Len? ==> Bytes(f.data)
  }

  ghost predicate AllBytes(fs: seq<Field>) {
    forall i | 0 <= i < |fs| :: FieldBytes(fs[i])
  }

  lemma {:induction false} VarintBytes(n: nat)
    ensures Bytes(EncVarint(n))
  {
    if n >= 128 {
      VarintBytes(n / 128);
    }
  }

  lemma {:induction false} EncBytes(fs: seq<Field>)
    requires AllBytes(fs)
    ensures Bytes(Enc(fs))
  {
    if fs != [] {
      EncBytes(fs[1..]);
      var f := fs[0];
      assert FieldBytes(f);
      if f.Len? {
        VarintBytes(8 * f.num + 2);
        VarintBytes(|f.data|);
      } else {
        VarintBytes(8 * f.num);
        VarintBytes(f.value);
      }
    }
  }
}
