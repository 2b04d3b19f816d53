/** The protobuf codec of protobuf.go for data, state contexts and delayed states. */
module CtxCodec {
  import opened States
  import opened Wire
  import opened Codec
  import Base64

  // ------------------------------------------------------------- data

  predicate IsBinary(d: Data) {
    Lookup(d.annotations, "binary") == "true"
  }

  // A blob is bytes, and its revision an int64, in Go.
  predicate GoData(d: Data) {
    IsInt64(d.rev) && Bytes(d.blob)
  }

  function BlobText(d: Data): Text
    requires Bytes(d.blob)
  {
    if IsBinary(d) then Base64.Encode(d.blob) else d.blob
  }

  /** marshalData. */
  function DataFields(d: Data, walk: Walk, path: seq<nat>): seq<Field>
    requires GoData(d)
  {
    IntField(2, d.rev) + (TextField(4, BlobText(d)) + MapFields(d.annotations, 5, walk(path + [5], d.annotations.Keys)))
  }

  // The data read so far and the blob as it was on the wire.
  datatype DataAcc = DataAcc(data: Data, blob: Text)

  const ZERO_DATA := Data(0, map[], "")

  function DataStep(a: DataAcc, f: Field): Result<DataAcc> {
    match f.num
    case 2 => if ReadInt(f).Some? then Ok(a.(data := a.data.(rev := ReadInt(f).value))) else Err
    case 4 => if f.Len? then Ok(a.(blob := f.data)) else Err
    case 5 =>
      if f.Len? then
        var m := AddItem(f.data, a.data.annotations);
        if m.Err? then Err else Ok(a.(data := a.data.(annotations := m.value)))
      else Err
    case _ => Ok(a)
  }

  /** UnmarshalData into a fresh Data: the annotations read decide how the blob is decoded. */
  function ReadData(src: Text): Result<Data> {
    var a := Decode(DataStep, src, DataAcc(ZERO_DATA, ""));
    if a.Err? then Err else FinishData(a.value)
  }

  function FinishData(a: DataAcc): Result<Data> {
    if a.blob == "" then Ok(a.data)
    else if IsBinary(a.data) then
      var b := Base64.Decode(a.blob);
      if b.None? then Err else Ok(a.data.(blob := b.value))
    else Ok(a.data.(blob := a.blob))
  }

  lemma DataAnnotationsRead(m: Dict, order: seq<Text>, a: DataAcc)
    requires Enumerates(order, m.Keys)
    ensures Fold(DataStep, MapFields(m, 5, order), a) ==
            if NoEmptyKey(m) then Ok(a.(data := a.data.(annotations := a.data.annotations + m))) else Err
  {
    WalkReads(DataStep, 5, (x: DataAcc) => x.data.annotations, (x: DataAcc, n: Dict) => x.(data := x.data.(annotations := n)),
              m, order, a);
  }

  lemma DataHeadReads(d: Data, rest: seq<Field>)
    requires GoData(d)
    ensures Fold(DataStep, IntField(2, d.rev) + (TextField(4, BlobText(d)) + rest), DataAcc(ZERO_DATA, "")) ==
            Fold(DataStep, rest, DataAcc(ZERO_DATA.(rev := d.rev), BlobText(d)))
  {
    var start, mid, text := DataAcc(ZERO_DATA, ""), DataAcc(ZERO_DATA.(rev := d.rev), ""), BlobText(d);
    hide BlobText;
    FoldConcat(DataStep, IntField(2, d.rev), TextField(4, text) + rest, start);
    FoldOne(DataStep, Varint(2, ToUint64(d.rev)), start);
    IntReads(2, d.rev);
    FoldConcat(DataStep, TextField(4, text), rest, mid);
    FoldOne(DataStep, Len(4, text), mid);
  }

  lemma BlobFinishes(d: Data)
    requires GoData(d)
    ensures FinishData(DataAcc(d.(blob := ""), BlobText(d))) == Ok(d)
  {
    assert IsBinary(d.(blob := "")) == IsBinary(d);
    if IsBinary(d) {
      Base64.RoundTrip(d.blob);
      Base64.NonemptyEncodes(d.blob);
    }
  }

  /** Data comes back, binary blobs through base 64, exactly when no annotation key is empty. */
  lemma DataRoundTrip(d: Data, walk: Walk, path: seq<nat>)
    requires IsWalk(walk) && GoData(d)
    ensures ReadData(Enc(DataFields(d, walk, path))) == if NoEmptyKey(d.annotations) then Ok(d) else Err
  {
    var order := walk(path + [5], d.annotations.Keys);
    var rest := MapFields(d.annotations, 5, order);
    var mid := DataAcc(ZERO_DATA.(rev := d.rev), BlobText(d));
    DecodeIsFold(DataStep, DataFields(d, walk, path), DataAcc(ZERO_DATA, ""));
    hide BlobText, FinishData, DataStep;
    DataHeadReads(d, rest);
    DataAnnotationsRead(d.annotations, order, mid);
    assert map[] + d.annotations == d.annotations;
    if NoEmptyKey(d.annotations) {
      assert mid.(data := mid.data.(annotations := d.annotations)) == DataAcc(d.(blob := ""), BlobText(d));
      BlobFinishes(d);
    }
  }

  // ------------------------------------------------------------- data maps

  datatype DataItem = DataItem(key: Text, data: Option<Data>)

  function DataItemStep(i: DataItem, f: Field): Result<DataItem> {
    if f.num == 1 then if f.Len? then Ok(i.(key := f.data)) else Err
    else if f.num == 2 then
      if f.Len? then
        var d := ReadData(f.data);
        if d.Err? then Err else Ok(i.(data := Some(d.value)))
      else Err
    else Ok(i)
  }

  /** unmarshalDataMapItem. */
  function AddData(src: Text, datas: map<Text, Data>): Result<map<Text, Data>> {
    var i := Decode(DataItemStep, src, DataItem("", None));
    if i.Err? || i.value.key == "" || i.value.data.None? then Err
    else Ok(datas[i.value.key := i.value.data.value])
  }

  predicate GoDatas(datas: map<Text, Data>) {
    forall k | k in datas :: GoData(datas[k])
  }

  predicate PlainDatas(datas: map<Text, Data>) {
    "" !in datas && forall k | k in datas :: NoEmptyKey(datas[k].annotations)
  }

  function DataItemFields(key: Text, d: Data, walk: Walk, path: seq<nat>): seq<Field>
    requires GoData(d)
  {
    [Len(1, key), Len(2, Enc(DataFields(d, walk, path)))]
  }

  lemma DataItemReads(key: Text, d: Data, walk: Walk, path: seq<nat>, datas: map<Text, Data>)
    requires IsWalk(walk) && GoData(d)
    ensures AddData(Enc(DataItemFields(key, d, walk, path)), datas) ==
            if key != "" && NoEmptyKey(d.annotations) then Ok(datas[key := d]) else Err
  {
    var start := DataItem("", None);
    var f1, f2 := Len(1, key), Len(2, Enc(DataFields(d, walk, path)));
    DecodeIsFold(DataItemStep, [f1, f2], start);
    DataRoundTrip(d, walk, path);
    hide DataFields, IsWalk, ReadData, Fold, Enc;
    FoldConcat(DataItemStep, [f1], [f2], start);
    FoldOne(DataItemStep, f1, start);
    FoldOne(DataItemStep, f2, DataItem(key, None));
    assert [f1] + [f2] == [f1, f2];
  }

  /** The datas of a context, one message each; `order` is sorted in the source,
      which does not matter to reading. */
  function DatasFields(datas: map<Text, Data>, order: seq<Text>, walk: Walk, path: seq<nat>): seq<Field>
    requires GoDatas(datas) && forall i | 0 <= i < |order| :: order[i] in datas
  {
    if order == [] then []
    else
      [Len(4, Enc(DataItemFields(order[0], datas[order[0]], walk, path + [|order|])))] +
      DatasFields(datas, order[1..], walk, path)
  }

  // ------------------------------------------------------------- contexts

  function CtxStep(c: StateCtx, f: Field): Result<StateCtx> {
    match f.num
    case 1 =>
      if f.Len? then
        var s := Decode(StateStep, f.data, c.committed);
        if s.Err? then Err else Ok(c.(committed := s.value))
      else Err
    case 2 =>
      if f.Len? then
        var s := Decode(StateStep, f.data, c.current);
        if s.Err? then Err else Ok(c.(current := s.value))
      else Err
    case 3 =>
      if f.Len? then
        var ts := Decode(TransitionStep, f.data, ZERO_TRANSITION);
        if ts.Err? then Err else Ok(c.(transitions := c.transitions + [ts.value]))
      else Err
    case 4 =>
      if f.Len? then
        var datas := AddData(f.data, c.datas);
        if datas.Err? then Err else Ok(c.(datas := datas.value))
      else Err
    case _ => Ok(c)
  }

  function TransitionsFields(tss: seq<Transition>, walk: Walk, path: seq<nat>): seq<Field> {
    if tss == [] then []
    else [Len(3, Enc(TransitionFields(tss[0], walk, path + [|tss|])))] + TransitionsFields(tss[1..], walk, path)
  }

  predicate PlainTransitions(tss: seq<Transition>) {
    forall i | 0 <= i < |tss| :: NoEmptyKey(tss[i].annotations)
  }

  lemma OneTransitionReads(ts: Transition, walk: Walk, path: seq<nat>, to: StateCtx)
    requires IsWalk(walk)
    ensures CtxStep(to, Len(3, Enc(TransitionFields(ts, walk, path)))) ==
            if NoEmptyKey(ts.annotations) then Ok(to.(transitions := to.transitions + [ts])) else Err
  {
    hide IsWalk, TransitionFields, TransitionStep, Enc, Wire.Decode;
    TransitionReads(ts, walk, path, ZERO_TRANSITION);
    assert map[] + ts.annotations == ts.annotations;
  }

  lemma {:induction false} TransitionsRead(tss: seq<Transition>, walk: Walk, path: seq<nat>, to: StateCtx)
    requires IsWalk(walk)
    ensures Fold(CtxStep, TransitionsFields(tss, walk, path), to) ==
            if PlainTransitions(tss) then Ok(to.(transitions := to.transitions + tss)) else Err
    decreases |tss|
  {
    hide IsWalk, CtxStep, TransitionFields, Enc;
    if tss == [] {
      assert to.transitions + tss == to.transitions;
    } else {
      OneTransitionReads(tss[0], walk, path + [|tss|], to);
      TransitionsRead(tss[1..], walk, path, to.(transitions := to.transitions + [tss[0]]));
      assert (to.transitions + [tss[0]]) + tss[1..] == to.transitions + tss;
      assert PlainTransitions(tss) <==> NoEmptyKey(tss[0].annotations) && PlainTransitions(tss[1..]);
    }
  }

  function AddDatas(to: map<Text, Data>, datas: map<Text, Data>, order: seq<Text>): map<Text, Data>
    requires forall i | 0 <= i < |order| :: order[i] in datas
    decreases |order|
  {
    if order == [] then to else AddDatas(to[order[0] := datas[order[0]]], datas, order[1..])
  }

  lemma {:induction false} AddDatasAt(to: map<Text, Data>, datas: map<Text, Data>, order: seq<Text>, k: Text)
    requires forall i | 0 <= i < |order| :: order[i] in datas
    ensures k in AddDatas(to, datas, order) <==> k in to || k in order
    ensures k in order ==> k in datas && AddDatas(to, datas, order)[k] == datas[k]
    ensures k in to && k !in order ==> AddDatas(to, datas, order)[k] == to[k]
    decreases |order|
  {
    if order != [] {
      AddDatasAt(to[order[0] := datas[order[0]]], datas, order[1..], k);
    }
  }

  lemma AddDatasIsMerge(to: map<Text, Data>, datas: map<Text, Data>, order: seq<Text>)
    requires Enumerates(order, datas.Keys)
    ensures AddDatas(to, datas, order) == to + datas
  {
    forall k ensures k in AddDatas(to, datas, order) <==> k in to + datas {
      AddDatasAt(to, datas, order, k);
    }
    forall k | k in to + datas ensures AddDatas(to, datas, order)[k] == (to + datas)[k] {
      AddDatasAt(to, datas, order, k);
    }
  }

  predicate PlainIn(datas: map<Text, Data>, order: seq<Text>) {
    forall i | 0 <= i < |order| :: order[i] != "" && order[i] in datas && NoEmptyKey(datas[order[i]].annotations)
  }

  lemma OneDataReads(key: Text, d: Data, walk: Walk, path: seq<nat>, to: StateCtx)
    requires IsWalk(walk) && GoData(d)
    ensures CtxStep(to, Len(4, Enc(DataItemFields(key, d, walk, path)))) ==
            if key != "" && NoEmptyKey(d.annotations) then Ok(to.(datas := to.datas[key := d])) else Err
  {
    hide IsWalk, DataItemFields, AddData, Enc;
    DataItemReads(key, d, walk, path, to.datas);
  }

  lemma {:induction false} DatasRead(datas: map<Text, Data>, order: seq<Text>, walk: Walk, path: seq<nat>, to: StateCtx)
    requires IsWalk(walk) && GoDatas(datas) && forall i | 0 <= i < |order| :: order[i] in datas
    ensures Fold(CtxStep, DatasFields(datas, order, walk, path), to) ==
            if PlainIn(datas, order) then Ok(to.(datas := AddDatas(to.datas, datas, order))) else Err
    decreases |order|
  {
    hide IsWalk, CtxStep, DataItemFields, Enc;
    if order != [] {
      var k := order[0];
      OneDataReads(k, datas[k], walk, path + [|order|], to);
      DatasRead(datas, order[1..], walk, path, to.(datas := to.datas[k := datas[k]]));
      assert PlainIn(datas, order) <==> k != "" && NoEmptyKey(datas[k].annotations) && PlainIn(datas, order[1..]);
    }
  }

  predicate GoCtx(c: StateCtx) {
    Int64State(c.current) && Int64State(c.committed) && GoDatas(c.datas)
  }

  /** The contexts the codec can carry: no map in them has an empty key. */
  predicate PlainCtx(c: StateCtx) {
    Plain(c.current) && Plain(c.committed) && PlainTransitions(c.transitions) && PlainDatas(c.datas)
  }

  function StatesFields(c: StateCtx, walk: Walk, path: seq<nat>): seq<Field>
    requires GoCtx(c)
  {
    [Len(1, Enc(StateFields(c.committed, walk, path + [1])))] + [Len(2, Enc(StateFields(c.current, walk, path + [2])))]
  }

  function CtxTail(c: StateCtx, walk: Walk, path: seq<nat>): seq<Field>
    requires GoCtx(c) && IsWalk(walk)
  {
    assert Enumerates(walk(path + [4], c.datas.Keys), c.datas.Keys);
    TransitionsFields(c.transitions, walk, path + [3]) +
    DatasFields(c.datas, walk(path + [4], c.datas.Keys), walk, path + [4])
  }

  /** marshalStateCtx. */
  function CtxFields(c: StateCtx, walk: Walk, path: seq<nat>): seq<Field>
    requires GoCtx(c) && IsWalk(walk)
  {
    StatesFields(c, walk, path) + CtxTail(c, walk, path)
  }

  function OverCtx(c: StateCtx, to: StateCtx): StateCtx {
    StateCtx(OverState(c.current, to.current), OverState(c.committed, to.committed), to.transitions + c.transitions, to.datas + c.datas)
  }

  lemma StatesRead(c: StateCtx, walk: Walk, path: seq<nat>, to: StateCtx)
    requires IsWalk(walk) && GoCtx(c)
    ensures Fold(CtxStep, StatesFields(c, walk, path), to) ==
            if Plain(c.current) && Plain(c.committed) then
              Ok(to.(committed := OverState(c.committed, to.committed), current := OverState(c.current, to.current)))
            else Err
  {
    var f1, f2 := Len(1, Enc(StateFields(c.committed, walk, path + [1]))), Len(2, Enc(StateFields(c.current, walk, path + [2])));
    StateReads(c.committed, walk, path + [1], to.committed);
    StateReads(c.current, walk, path + [2], to.current);
    hide IsWalk, StateFields, StateStep, Plain, OverState, Enc, Wire.Decode, Fold;
    FoldConcat(CtxStep, [f1], [f2], to);
    FoldOne(CtxStep, f1, to);
    FoldOne(CtxStep, f2, to.(committed := OverState(c.committed, to.committed)));
  }

  lemma CtxTailReads(c: StateCtx, walk: Walk, path: seq<nat>, to: StateCtx)
    requires IsWalk(walk) && GoCtx(c)
    ensures Fold(CtxStep, CtxTail(c, walk, path), to) ==
            if PlainTransitions(c.transitions) && PlainDatas(c.datas) then
              Ok(to.(transitions := to.transitions + c.transitions, datas := to.datas + c.datas))
            else Err
  {
    var order := walk(path + [4], c.datas.Keys);
    assert Enumerates(order, c.datas.Keys);
    hide IsWalk, CtxStep, Fold, TransitionsFields, DatasFields;
    FoldConcat(CtxStep, TransitionsFields(c.transitions, walk, path + [3]), DatasFields(c.datas, order, walk, path + [4]), to);
    TransitionsRead(c.transitions, walk, path + [3], to);
    DatasRead(c.datas, order, walk, path + [4], to.(transitions := to.transitions + c.transitions));
    AddDatasIsMerge(to.datas, c.datas, order);
    PlainInAll(c.datas, order);
  }

  lemma PlainInAll(datas: map<Text, Data>, order: seq<Text>)
    requires Enumerates(order, datas.Keys)
    ensures PlainIn(datas, order) <==> PlainDatas(datas)
  {
    if PlainIn(datas, order) {
      forall k | k in datas ensures k != "" && NoEmptyKey(datas[k].annotations) {
        assert k in order;
      }
    }
  }

  /** Reading a marshalled context into any context overlays it, or fails when
      some map has an empty key. */
  lemma CtxReads(c: StateCtx, walk: Walk, path: seq<nat>, to: StateCtx)
    requires IsWalk(walk) && GoCtx(c)
    ensures Decode(CtxStep, Enc(CtxFields(c, walk, path)), to) == if PlainCtx(c) then Ok(OverCtx(c, to)) else Err
  {
    DecodeIsFold(CtxStep, CtxFields(c, walk, path), to);
    hide IsWalk, StatesFields, CtxTail, CtxStep, Fold, OverState;
    FoldConcat(CtxStep, StatesFields(c, walk, path), CtxTail(c, walk, path), to);
    StatesRead(c, walk, path, to);
    CtxTailReads(c, walk, path, to.(committed := OverState(c.committed, to.committed), current := OverState(c.current, to.current)));
  }

  lemma OverZeroCtx(c: StateCtx)
    ensures OverCtx(c, ZERO_CTX) == c
  {
    OverZeroState(c.current);
    OverZeroState(c.committed);
    assert map[] + c.datas == c.datas && [] + c.transitions == c.transitions;
  }

  /** Round trip: a context read into a fresh one comes back unchanged exactly
      when no map in it has an empty key, and cannot be read otherwise. */
  lemma CtxRoundTrip(c: StateCtx, walk: Walk, path: seq<nat>)
    requires IsWalk(walk) && GoCtx(c)
    ensures var r := Decode(CtxStep, Enc(CtxFields(c, walk, path)), ZERO_CTX);
            if PlainCtx(c) then r == Ok(c) else r == Err
  {
    CtxReads(c, walk, path, ZERO_CTX);
    OverZeroCtx(c);
  }

  // ------------------------------------------------------------- delayed states

  // executeAt is in seconds; None is Go's zero time.
  datatype DelayedState = DelayedState(state: State, offset: int, executeAt: Option<int>)

  const ZERO_DELAYED := DelayedState(ZERO_STATE, 0, None)

  predicate GoDelayed(ds: DelayedState) {
    Int64State(ds.state) && IsInt64(ds.offset) && (ds.executeAt.Some? ==> IsInt64(ds.executeAt.value))
  }

  /** marshalDelayedState. */
  function DelayedFields(ds: DelayedState, walk: Walk, path: seq<nat>): seq<Field>
    requires GoDelayed(ds)
  {
    [Len(1, Enc(StateFields(ds.state, walk, path + [1])))] + (IntField(2, ds.offset) + TimeField(3, ds.executeAt))
  }

  function DelayedStep(ds: DelayedState, f: Field): Result<DelayedState> {
    match f.num
    case 1 =>
      if f.Len? then
        var s := Decode(StateStep, f.data, ds.state);
        if s.Err? then Err else Ok(ds.(state := s.value))
      else Err
    case 2 => if ReadInt(f).Some? then Ok(ds.(offset := ReadInt(f).value)) else Err
    case 3 =>
      if ReadInt(f).None? then Err
      else if ReadInt(f).value != 0 then Ok(ds.(executeAt := Some(ReadInt(f).value)))
      else Ok(ds)
    case _ => Ok(ds)
  }

  lemma DelayedTailReads(ds: DelayedState, s: State)
    requires GoDelayed(ds)
    ensures Fold(DelayedStep, IntField(2, ds.offset) + TimeField(3, ds.executeAt), DelayedState(s, 0, None)) ==
            Ok(DelayedState(s, ds.offset, if ds.executeAt == Some(0) then None else ds.executeAt))
  {
    hide Wire.Decode;
    var start, mid := DelayedState(s, 0, None), DelayedState(s, ds.offset, None);
    FoldConcat(DelayedStep, IntField(2, ds.offset), TimeField(3, ds.executeAt), start);
    IntReads(2, ds.offset);
    FoldOne(DelayedStep, Varint(2, ToUint64(ds.offset)), start);
    if ds.executeAt.Some? {
      IntReads(3, ds.executeAt.value);
      FoldOne(DelayedStep, Varint(3, ToUint64(ds.executeAt.value)), mid);
    }
  }

  /** A delayed state comes back exactly when its state can be read and it is not
      due at second 0, the one time the reader takes for "no time". */
  lemma DelayedRoundTrip(ds: DelayedState, walk: Walk, path: seq<nat>)
    requires IsWalk(walk) && GoDelayed(ds)
    ensures Decode(DelayedStep, Enc(DelayedFields(ds, walk, path)), ZERO_DELAYED) ==
            if !Plain(ds.state) then Err
            else Ok(ds.(executeAt := if ds.executeAt == Some(0) then None else ds.executeAt))
    ensures Decode(DelayedStep, Enc(DelayedFields(ds, walk, path)), ZERO_DELAYED) == Ok(ds) <==>
            Plain(ds.state) && ds.executeAt != Some(0)
  {
    var f := Len(1, Enc(StateFields(ds.state, walk, path + [1])));
    var tail := IntField(2, ds.offset) + TimeField(3, ds.executeAt);
    DecodeIsFold(DelayedStep, [f] + tail, ZERO_DELAYED);
    StateReads(ds.state, walk, path + [1], ZERO_STATE);
    OverZeroState(ds.state);
    hide IsWalk, StateFields, StateStep, Plain, OverState, Enc, Wire.Decode;
    FoldConcat(DelayedStep, [f], tail, ZERO_DELAYED);
    FoldOne(DelayedStep, f, ZERO_DELAYED);
    DelayedTailReads(ds, ds.state);
  }

  // ------------------------------------------------------------- bytes

  ghost predicate ByteMap(m: Dict) {
    forall k | k in m :: Bytes(k) && Bytes(m[k])
  }

  ghost predicate ByteState(s: State) {
    Bytes(s.id) && ByteMap(s.annotations) && ByteMap(s.labels) && Bytes(s.transition.to) && ByteMap(s.transition.annotations)
  }

  /** Every string of the context is a string of bytes, as every Go string is. */
  ghost predicate ByteCtx(c: StateCtx) {
    && ByteState(c.current) && ByteState(c.committed)
    && (forall i | 0 <= i < |c.transitions| :: Bytes(c.transitions[i].to) && ByteMap(c.transitions[i].annotations))
    && forall k | k in c.datas :: Bytes(k) && Bytes(c.datas[k].blob) && ByteMap(c.datas[k].annotations)
  }

  lemma ConcatBytes(a: seq<Field>, b: seq<Field>)
    requires AllBytes(a) && AllBytes(b)
    ensures AllBytes(a + b)
  {
  }

  lemma {:induction false} MapBytes(m: Dict, num: nat, order: seq<Text>)
    requires ByteMap(m) && Enumerates(order, m.Keys)
    ensures AllBytes(MapFields(m, num, order))
  {
    MapBytesOf(m, num, order);
  }

  lemma {:induction false} MapBytesOf(m: Dict, num: nat, order: seq<Text>)
    requires ByteMap(m) && forall i | 0 <= i < |order| :: order[i] in m
    ensures AllBytes(MapFields(m, num, order))
  {
    if order != [] {
      MapBytesOf(m, num, order[1..]);
      EncBytes(ItemFields(order[0], m[order[0]]));
    }
  }

  lemma TransitionBytes(ts: Transition, walk: Walk, path: seq<nat>)
    requires IsWalk(walk) && Bytes(ts.to) && ByteMap(ts.annotations)
    ensures Bytes(Enc(TransitionFields(ts, walk, path)))
  {
    MapBytes(ts.annotations, 3, walk(path + [3], ts.annotations.Keys));
    EncBytes(TransitionFields(ts, walk, path));
  }

  lemma StateBytes(s: State, walk: Walk, path: seq<nat>)
    requires IsWalk(walk) && Int64State(s) && ByteState(s)
    ensures Bytes(Enc(StateFields(s, walk, path)))
  {
    MapBytes(s.annotations, 3, walk(path + [3], s.annotations.Keys));
    MapBytes(s.labels, 4, walk(path + [4], s.labels.Keys));
    TransitionBytes(s.transition, walk, path + [6]);
    hide IsWalk, MapFields, TransitionFields, Enc, ByteMap, Enumerates;
    ConcatBytes(MapFields(s.annotations, 3, walk(path + [3], s.annotations.Keys)), MapFields(s.labels, 4, walk(path + [4], s.labels.Keys)));
    ConcatBytes(StateMaps(s, walk, path), StateTail(s, walk, path));
    ConcatBytes(StateHead(s), StateMaps(s, walk, path) + StateTail(s, walk, path));
    EncBytes(StateFields(s, walk, path));
  }

  lemma {:induction false} TransitionsBytes(tss: seq<Transition>, walk: Walk, path: seq<nat>)
    requires IsWalk(walk) && forall i | 0 <= i < |tss| :: Bytes(tss[i].to) && ByteMap(tss[i].annotations)
    ensures AllBytes(TransitionsFields(tss, walk, path))
  {
    if tss != [] {
      TransitionBytes(tss[0], walk, path + [|tss|]);
      TransitionsBytes(tss[1..], walk, path);
    }
  }

  lemma DataBytes(key: Text, d: Data, walk: Walk, path: seq<nat>)
    requires IsWalk(walk) && GoData(d) && Bytes(key) && ByteMap(d.annotations)
    ensures Bytes(Enc(DataItemFields(key, d, walk, path)))
  {
    MapBytes(d.annotations, 5, walk(path + [5], d.annotations.Keys));
    Base64.EncodedIsBytes(d.blob);
    EncBytes(DataFields(d, walk, path));
    hide IsWalk, DataFields, Enc;
    EncBytes(DataItemFields(key, d, walk, path));
  }

  lemma {:induction false} DatasBytes(datas: map<Text, Data>, order: seq<Text>, walk: Walk, path: seq<nat>)
    requires IsWalk(walk) && GoDatas(datas) && forall i | 0 <= i < |order| :: order[i] in datas
    requires forall k | k in datas :: Bytes(k) && Bytes(datas[k].blob) && ByteMap(datas[k].annotations)
    ensures AllBytes(DatasFields(datas, order, walk, path))
  {
    if order != [] {
      DataBytes(order[0], datas[order[0]], walk, path + [|order|]);
      DatasBytes(datas, order[1..], walk, path);
    }
  }

  lemma StatesBytes(c: StateCtx, walk: Walk, path: seq<nat>)
    requires IsWalk(walk) && GoCtx(c) && ByteCtx(c)
    ensures AllBytes(StatesFields(c, walk, path))
  {
    StateBytes(c.committed, walk, path + [1]);
    StateBytes(c.current, walk, path + [2]);
    hide IsWalk, StateFields, Enc;
  }

  lemma TailBytes(c: StateCtx, walk: Walk, path: seq<nat>)
    requires IsWalk(walk) && GoCtx(c) && ByteCtx(c)
    ensures AllBytes(CtxTail(c, walk, path))
  {
    assert Enumerates(walk(path + [4], c.datas.Keys), c.datas.Keys);
    TransitionsBytes(c.transitions, walk, path + [3]);
    DatasBytes(c.datas, walk(path + [4], c.datas.Keys), walk, path + [4]);
    hide IsWalk, TransitionsFields, DatasFields;
  }

  /** What is marshalled is a byte slice, so base 64 can carry it. */
  lemma CtxBytes(c: StateCtx, walk: Walk, path: seq<nat>)
    requires IsWalk(walk) && GoCtx(c) && ByteCtx(c)
    ensures Bytes(Enc(CtxFields(c, walk, path)))
  {
    StatesBytes(c, walk, path);
    TailBytes(c, walk, path);
    hide IsWalk, StatesFields, CtxTail, Enc, ByteCtx;
    ConcatBytes(StatesFields(c, walk, path), CtxTail(c, walk, path));
    EncBytes(CtxFields(c, walk, path));
  }
}
