/** Stack and Unstack of cmd.go: a whole context carried in an annotation of another. */
module Stacks {
  import opened States
  import opened Wire
  import opened Codec
  import opened CtxCodec
  import opened CodecLayout
  import Base64

  // What Go's types give of any context.
  ghost predicate Go(c: StateCtx) {
    GoCtx(c) && ByteCtx(c)
  }

  /** The annotation Stack writes. */
  function Packed(c: StateCtx, walk: Walk): Text
    requires IsWalk(walk) && Go(c)
  {
    CtxBytes(c, walk, []);
    Base64.Encode(Enc(CtxFields(c, walk, [])))
  }

  function Annotate(c: StateCtx, name: Text, value: Text): StateCtx {
    c.(current := c.current.(annotations := c.current.annotations[name := value]))
  }

  /** StackCommand.Do, as the carrier it leaves. */
  function Stacked(carrier: StateCtx, c: StateCtx, name: Text, walk: Walk): Result<StateCtx>
    requires IsWalk(walk) && Go(c)
  {
    if name == "" || Lookup(carrier.current.annotations, name) != "" then Err
    else Ok(Annotate(carrier, name, Packed(c, walk)))
  }

  // The context an annotation value holds, read into `to`.
  function Unpacked(b64: Text, to: StateCtx): Result<StateCtx> {
    var b := Base64.Decode(b64);
    if b64 == "" || b.None? then Err else Decode(CtxStep, b.value, to)
  }

  /** UnstackCommand.Do, as the carrier and the target it leaves. */
  function Unstacked(carrier: StateCtx, name: Text, to: StateCtx): Result<(StateCtx, StateCtx)> {
    var c := Unpacked(Lookup(carrier.current.annotations, name), to);
    if c.Err? then Err else Ok((Annotate(carrier, name, ""), c.value))
  }

  lemma PackedIsSet(c: StateCtx, walk: Walk)
    requires IsWalk(walk) && Go(c)
    ensures Packed(c, walk) != ""
  {
    CtxBytes(c, walk, []);
    Base64.NonemptyEncodes(Enc(CtxFields(c, walk, [])));
    assert CtxFields(c, walk, []) != [];
  }

  lemma PackedUnpacks(c: StateCtx, walk: Walk, to: StateCtx)
    requires IsWalk(walk) && Go(c)
    ensures Unpacked(Packed(c, walk), to) == if PlainCtx(c) then Ok(OverCtx(c, to)) else Err
  {
    hide CtxFields, PlainCtx, OverCtx, Enc, Base64.Encode, Base64.Decode;
    PackedIsSet(c, walk);
    CtxBytes(c, walk, []);
    Base64.RoundTrip(Enc(CtxFields(c, walk, [])));
    CtxReads(c, walk, [], to);
  }

  lemma AnnotateTwice(c: StateCtx, name: Text, value: Text, again: Text)
    ensures Annotate(Annotate(c, name, value), name, again) == Annotate(c, name, again)
  {
    assert c.current.annotations[name := value][name := again] == c.current.annotations[name := again];
  }

  lemma AnnotateCommutes(c: StateCtx, a: Text, x: Text, b: Text, y: Text)
    requires a != b
    ensures Annotate(Annotate(c, a, x), b, y) == Annotate(Annotate(c, b, y), a, x)
  {
    assert c.current.annotations[a := x][b := y] == c.current.annotations[b := y][a := x];
  }

  lemma Annotated(c: StateCtx, name: Text, value: Text, other: Text)
    ensures Lookup(Annotate(c, name, value).current.annotations, other) ==
            if other == name then value else Lookup(c.current.annotations, other)
  {
  }

  lemma AnnotateIsExact(c: StateCtx, name: Text)
    requires Lookup(c.current.annotations, name) == ""
    ensures Annotate(c, name, "") == c <==> name in c.current.annotations
  {
    assert name in Annotate(c, name, "").current.annotations;
    if name in c.current.annotations {
      assert c.current.annotations[name := ""] == c.current.annotations;
    }
  }

  /** Unstacking what was stacked, into any target: it overlays the target and
      clears the annotation when the context can be carried at all; a context with
      an empty map key is accepted by Stack and then cannot be unstacked. */
  lemma UnstackUndoes(carrier: StateCtx, c: StateCtx, name: Text, walk: Walk, to: StateCtx)
    requires IsWalk(walk) && Go(c) && Stacked(carrier, c, name, walk).Ok?
    ensures Unstacked(Stacked(carrier, c, name, walk).value, name, to) ==
            if PlainCtx(c) then Ok((Annotate(carrier, name, ""), OverCtx(c, to))) else Err
  {
    PackedUnpacks(c, walk, to);
    hide IsWalk, Go, Packed, Unpacked, PlainCtx, OverCtx, Annotate, Lookup;
    Annotated(carrier, name, Packed(c, walk), name);
    AnnotateTwice(carrier, name, Packed(c, walk), "");
  }

  /** A carrier whose annotation is the base 64 text of a context's message, and that is
      otherwise as it was. */
  ghost predicate Carries(was: StateCtx, now: StateCtx, name: Text, c: StateCtx) {
    && now == was.(current := was.current.(annotations := now.current.annotations))
    && name in now.current.annotations && now.current.annotations.Keys == was.current.annotations.Keys + {name}
    && (forall k | k in was.current.annotations && k != name :: now.current.annotations[k] == was.current.annotations[k])
    && exists fs :: CtxOnWire(fs, c) && Base64.Decode(now.current.annotations[name]) == Some(Enc(fs))
  }

  lemma PackedIsMessage(c: StateCtx, walk: Walk)
    requires IsWalk(walk) && Go(c)
    ensures exists fs :: CtxOnWire(fs, c) && Base64.Decode(Packed(c, walk)) == Some(Enc(fs))
  {
    CtxBytes(c, walk, []);
    hide CtxOnWire, CtxFields, Enc, Base64.Encode, Base64.Decode, IsWalk, GoCtx, ByteCtx;
    CtxIsOnWire(c, walk, []);
    Base64.RoundTrip(Enc(CtxFields(c, walk, [])));
  }

  lemma AnnotatedCarries(was: StateCtx, name: Text, value: Text, c: StateCtx)
    requires exists fs :: CtxOnWire(fs, c) && Base64.Decode(value) == Some(Enc(fs))
    ensures Carries(was, Annotate(was, name, value), name, c)
  {
    hide CtxOnWire, Base64.Decode, Enc;
  }

  /** What Stack leaves. */
  lemma StackedHolds(carrier: StateCtx, c: StateCtx, name: Text, walk: Walk)
    requires IsWalk(walk) && Go(c) && Stacked(carrier, c, name, walk).Ok?
    ensures name != "" && Carries(carrier, Stacked(carrier, c, name, walk).value, name, c)
  {
    hide Packed, Annotate, Carries, Lookup, Go, IsWalk;
    PackedIsMessage(c, walk);
    AnnotatedCarries(carrier, name, Packed(c, walk), c);
  }

  /** Into a fresh context the stacked one comes back itself; the carrier is as it
      was exactly when it already had the annotation, empty. */
  lemma UnstackRestores(carrier: StateCtx, c: StateCtx, name: Text, walk: Walk)
    requires IsWalk(walk) && Go(c) && PlainCtx(c) && Stacked(carrier, c, name, walk).Ok?
    ensures var r := Unstacked(Stacked(carrier, c, name, walk).value, name, ZERO_CTX);
            && r.Ok? && r.value.1 == c
            && (r.value.0 == carrier <==> name in carrier.current.annotations)
  {
    UnstackUndoes(carrier, c, name, walk, ZERO_CTX);
    OverZeroCtx(c);
    assert Lookup(carrier.current.annotations, name) == "";
    hide *;
    AnnotateIsExact(carrier, name);
  }

  /** The cleared annotation can be stacked into again, whatever it held. */
  lemma ClearedIsReusable(carrier: StateCtx, name: Text, to: StateCtx, c: StateCtx, walk: Walk)
    requires IsWalk(walk) && Go(c) && name != "" && Unstacked(carrier, name, to).Ok?
    ensures Stacked(Unstacked(carrier, name, to).value.0, c, name, walk).Ok?
  {
  }

  /** An annotation in use is refused until it is unstacked. */
  lemma UsedIsRefused(carrier: StateCtx, c: StateCtx, d: StateCtx, name: Text, walk: Walk)
    requires IsWalk(walk) && Go(c) && Go(d) && Stacked(carrier, c, name, walk).Ok?
    ensures Stacked(Stacked(carrier, c, name, walk).value, d, name, walk) == Err
  {
    PackedIsSet(c, walk);
  }

  /** Contexts stacked under different names do not disturb one another. */
  lemma NamesAreIndependent(carrier: StateCtx, c: StateCtx, name: Text, other: Text, walk: Walk, to: StateCtx)
    requires IsWalk(walk) && Go(c) && name != other && Stacked(carrier, c, name, walk).Ok?
    ensures var before, after := Unstacked(carrier, other, to), Unstacked(Stacked(carrier, c, name, walk).value, other, to);
            && before.Ok? == after.Ok?
            && (before.Ok? ==> before.value.1 == after.value.1 && Stacked(before.value.0, c, name, walk) == Ok(after.value.0))
  {
    var p := Packed(c, walk);
    hide IsWalk, Packed, Unpacked, Go, Annotate, Lookup;
    Annotated(carrier, name, p, other);
    Annotated(carrier, other, "", name);
    AnnotateCommutes(carrier, name, p, other, "");
  }

  // ------------------------------------------------------------- any depth

  /** A context and the annotation the one below it is stacked under. */
  datatype Layer = Layer(ctx: StateCtx, name: Text)

  ghost predicate GoLayers(layers: seq<Layer>) {
    forall i | 0 <= i < |layers| :: Go(layers[i].ctx) && PlainCtx(layers[i].ctx) && Bytes(layers[i].name)
  }

  // Unstacking from the top into fresh contexts; the contexts left, base first.
  function Unpile(top: StateCtx, names: seq<Text>): Result<seq<StateCtx>>
    decreases |names|
  {
    if names == [] then Ok([top])
    else
      var r := Unstacked(top, names[|names| - 1], ZERO_CTX);
      if r.Err? then Err
      else
        var below := Unpile(r.value.1, names[..|names| - 1]);
        if below.Err? then Err else Ok(below.value + [r.value.0])
  }

  lemma StackedIsGo(carrier: StateCtx, c: StateCtx, name: Text, walk: Walk)
    requires IsWalk(walk) && Go(c) && Go(carrier) && Bytes(name)
    ensures Stacked(carrier, c, name, walk).Ok? ==> Go(Stacked(carrier, c, name, walk).value)
    ensures Stacked(carrier, c, name, walk).Ok? && PlainCtx(carrier) ==> PlainCtx(Stacked(carrier, c, name, walk).value)
  {
    if Stacked(carrier, c, name, walk).Ok? {
      CtxBytes(c, walk, []);
      Base64.EncodedIsBytes(Enc(CtxFields(c, walk, [])));
      AnnotatedIsGo(carrier, name, Packed(c, walk));
    }
  }

  lemma AnnotatedIsGo(c: StateCtx, name: Text, value: Text)
    requires Go(c) && Bytes(name) && Bytes(value)
    ensures Go(Annotate(c, name, value)) && (name != "" && PlainCtx(c) ==> PlainCtx(Annotate(c, name, value)))
  {
  }

  /** base stacked into the first layer, that into the second, and so on up. */
  function Pile(base: StateCtx, layers: seq<Layer>, walk: Walk): (r: Result<StateCtx>)
    requires IsWalk(walk) && Go(base) && PlainCtx(base) && GoLayers(layers)
    ensures r.Ok? ==> Go(r.value) && PlainCtx(r.value)
    decreases |layers|
  {
    hide Go, PlainCtx, IsWalk, Stacked;
    if layers == [] then Ok(base)
    else
      var top := layers[|layers| - 1];
      var below := Pile(base, layers[..|layers| - 1], walk);
      if below.Err? then Err
      else
        StackedIsGo(top.ctx, below.value, top.name, walk);
        Stacked(top.ctx, below.value, top.name, walk)
  }

  function Names(layers: seq<Layer>): seq<Text> {
    seq(|layers|, i requires 0 <= i < |layers| => layers[i].name)
  }

  // The layers as unstacking leaves them, their annotation cleared.
  function Cleared(layers: seq<Layer>): seq<StateCtx> {
    seq(|layers|, i requires 0 <= i < |layers| => Annotate(layers[i].ctx, layers[i].name, ""))
  }

  /** To any depth: unstacking a pile in reverse into fresh contexts gives back the
      base itself and every layer with its annotation empty. */
  lemma {:induction false} PileUnpiles(base: StateCtx, layers: seq<Layer>, walk: Walk)
    requires IsWalk(walk) && Go(base) && PlainCtx(base) && GoLayers(layers)
    requires Pile(base, layers, walk).Ok?
    ensures Unpile(Pile(base, layers, walk).value, Names(layers)) == Ok([base] + Cleared(layers))
    decreases |layers|
  {
    hide Go, PlainCtx, Stacked, Unstacked;
    if layers == [] {
      assert [base] + Cleared(layers) == [base];
    } else {
      var n := |layers| - 1;
      var below := Pile(base, layers[..n], walk).value;
      PileUnpiles(base, layers[..n], walk);
      UnstackUndoes(layers[n].ctx, below, layers[n].name, walk, ZERO_CTX);
      OverZeroCtx(below);
      assert Names(layers)[..n] == Names(layers[..n]);
      assert Cleared(layers) == Cleared(layers[..n]) + [Annotate(layers[n].ctx, layers[n].name, "")];
      assert ([base] + Cleared(layers[..n])) + [Annotate(layers[n].ctx, layers[n].name, "")] == [base] + Cleared(layers);
    }
  }
}
