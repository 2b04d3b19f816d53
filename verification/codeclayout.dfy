/** The messages of protobuf.go as their definitions there number their fields: what
    a marshaler writes, field by field, whatever the order it writes them in. */
module CodecLayout {
  import opened States
  import opened Wire
  import opened Codec
  import opened CtxCodec
  import Base64

  // ------------------------------------------------------------- fields by number

  /** The fields of a message with this number, in order. */
  function Under(fs: seq<Field>, num: nat): seq<Field> {
    if fs == [] then [] else (if fs[0].num == num then [fs[0]] else []) + Under(fs[1..], num)
  }

  lemma {:induction false} AtConcat(a: seq<Field>, b: seq<Field>, num: nat)
    ensures Under(a + b, num) == Under(a, num) + Under(b, num)
  {
    if a == [] {
      assert a + b == b;
    } else {
      var first := if a[0].num == num then [a[0]] else [];
      assert (a + b)[1..] == a[1..] + b && (a + b)[0] == a[0];
      AtConcat(a[1..], b, num);
      assert Under(a + b, num) == first + Under(a[1..] + b, num);
      assert Under(a, num) == first + Under(a[1..], num);
      hide Under;
      Reassoc(first, Under(a[1..], num), Under(b, num));
    }
  }

  lemma Reassoc(a: seq<Field>, b: seq<Field>, c: seq<Field>)
    ensures a + (b + c) == (a + b) + c
  {
  }

  ghost predicate AllNumbered(fs: seq<Field>, num: nat) {
    forall i | 0 <= i < |fs| :: fs[i].num == num
  }

  lemma {:induction false} AtNumbered(fs: seq<Field>, of: nat, num: nat)
    requires AllNumbered(fs, of)
    ensures Under(fs, num) == if num == of then fs else []
  {
    if fs != [] {
      AtNumbered(fs[1..], of, num);
    }
  }

  lemma AtOne(f: Field, num: nat)
    ensures Under([f], num) == if f.num == num then [f] else []
  {
    assert [f][1..] == [];
  }

  // ------------------------------------------------------------- simple fields

  // An absent field stands for the zero value.
  ghost predicate TextOnWire(fs: seq<Field>, num: nat, value: Text) {
    fs == if value == "" then [] else [Len(num, value)]
  }

  function Unsigned(value: int): int {
    if value < 0 then value + 0x1_0000_0000_0000_0000 else value
  }

  ghost predicate IntOnWire(fs: seq<Field>, num: nat, value: int) {
    IsInt64(value) && fs == if value == 0 then [] else [Varint(num, Unsigned(value))]
  }

  ghost predicate TimeOnWire(fs: seq<Field>, num: nat, value: Option<int>) {
    match value
    case None => fs == []
    case Some(t) => IsInt64(t) && fs == [Varint(num, Unsigned(t))]
  }

  // A pair of a string map: its key is field 1 and its value field 2.
  ghost predicate IsPair(f: Field, num: nat, key: Text, value: Text) {
    f == Len(num, Enc([Len(1, key)] + if value == "" then [] else [Len(2, value)]))
  }

  ghost predicate IsPairOf(f: Field, num: nat, m: Dict, key: Text) {
    key in m && IsPair(f, num, key, m[key])
  }

  ghost predicate IsSomePair(f: Field, num: nat, m: Dict) {
    exists k :: IsPairOf(f, num, m, k)
  }

  /** A string map is one message per pair, in any order. */
  ghost predicate MapOnWire(fs: seq<Field>, num: nat, m: Dict) {
    && (forall i {:trigger fs[i]} | 0 <= i < |fs| :: IsSomePair(fs[i], num, m))
    && forall k {:trigger k in m} | k in m :: exists i :: 0 <= i < |fs| && IsPairOf(fs[i], num, m, k)
  }

  lemma {:induction false} MapFieldAt(m: Dict, num: nat, order: seq<Text>)
    ensures |MapFields(m, num, order)| == |order|
    ensures forall i | 0 <= i < |order| :: IsPair(MapFields(m, num, order)[i], num, order[i], Lookup(m, order[i]))
  {
    if order != [] {
      MapFieldAt(m, num, order[1..]);
    }
  }

  // The fields hold the pairs of the listed keys, in that order.
  ghost predicate HoldsPairs(fs: seq<Field>, num: nat, m: Dict, order: seq<Text>) {
    |fs| == |order| && forall i | 0 <= i < |order| :: IsPairOf(fs[i], num, m, order[i])
  }

  lemma PairsAreHeld(m: Dict, num: nat, order: seq<Text>)
    requires Enumerates(order, m.Keys)
    ensures HoldsPairs(MapFields(m, num, order), num, m, order) && AllNumbered(MapFields(m, num, order), num)
  {
    MapFieldAt(m, num, order);
    hide MapFields, Enc;
    forall i | 0 <= i < |order| ensures IsPairOf(MapFields(m, num, order)[i], num, m, order[i]) {
      assert order[i] in order;
    }
  }

  lemma PairsAreOnWire(fs: seq<Field>, num: nat, m: Dict, order: seq<Text>)
    requires HoldsPairs(fs, num, m, order) && Enumerates(order, m.Keys)
    ensures MapOnWire(fs, num, m)
  {
    hide IsPairOf;
    forall i | 0 <= i < |fs| ensures IsSomePair(fs[i], num, m) {
      assert IsPairOf(fs[i], num, m, order[i]);
    }
    forall k | k in m ensures exists i :: 0 <= i < |fs| && IsPairOf(fs[i], num, m, k) {
      assert k in order;
      var i :| 0 <= i < |order| && order[i] == k;
      assert IsPairOf(fs[i], num, m, k);
    }
  }

  lemma MapIsOnWire(m: Dict, num: nat, order: seq<Text>)
    requires Enumerates(order, m.Keys)
    ensures MapOnWire(MapFields(m, num, order), num, m) && AllNumbered(MapFields(m, num, order), num)
  {
    hide MapFields, MapOnWire, HoldsPairs, AllNumbered, Enumerates;
    PairsAreHeld(m, num, order);
    PairsAreOnWire(MapFields(m, num, order), num, m, order);
  }

  // ------------------------------------------------------------- transitions and states

  /** message Transition: to = 2, annotations = 3. */
  ghost predicate TransitionOnWire(fs: seq<Field>, ts: Transition) {
    && TextOnWire(Under(fs, 2), 2, ts.to) && MapOnWire(Under(fs, 3), 3, ts.annotations)
    && forall i | 0 <= i < |fs| :: 2 <= fs[i].num <= 3
  }

  lemma TwoAt(a: seq<Field>, m: nat, b: seq<Field>, n: nat)
    requires AllNumbered(a, m) && AllNumbered(b, n) && m < n
    ensures Under(a + b, m) == a && Under(a + b, n) == b
  {
    AtConcat(a, b, m);
    AtConcat(a, b, n);
    AtNumbered(a, m, m);
    AtNumbered(a, m, n);
    AtNumbered(b, n, m);
    AtNumbered(b, n, n);
    hide Under, AllNumbered;
  }

  lemma TransitionFromParts(ts: Transition, b: seq<Field>)
    requires MapOnWire(b, 3, ts.annotations) && AllNumbered(b, 3)
    ensures TransitionOnWire(TextField(2, ts.to) + b, ts)
  {
    hide MapOnWire, Under;
    TwoAt(TextField(2, ts.to), 2, b, 3);
    forall i | 0 <= i < |TextField(2, ts.to) + b| ensures 2 <= (TextField(2, ts.to) + b)[i].num <= 3 {
    }
  }

  lemma TransitionIsOnWire(ts: Transition, walk: Walk, path: seq<nat>)
    requires IsWalk(walk)
    ensures TransitionOnWire(TransitionFields(ts, walk, path), ts)
  {
    WalkEnumerates(walk, path + [3], ts.annotations.Keys);
    hide IsWalk, TransitionOnWire, MapFields, MapOnWire, Enumerates, TextField, AllNumbered;
    MapIsOnWire(ts.annotations, 3, walk(path + [3], ts.annotations.Keys));
    TransitionFromParts(ts, MapFields(ts.annotations, 3, walk(path + [3], ts.annotations.Keys)));
  }

  lemma WalkEnumerates(walk: Walk, path: seq<nat>, keys: set<Text>)
    requires IsWalk(walk)
    ensures Enumerates(walk(path, keys), keys)
  {
  }

  // The field holds a message that some predicate describes.
  ghost predicate HoldsTransition(f: Field, num: nat, ts: Transition) {
    exists fs :: f == Len(num, Enc(fs)) && TransitionOnWire(fs, ts)
  }

  /** message State: id = 1, rev = 2, annotations = 3, labels = 4, committed_at = 5 and
      transition = 6. */
  ghost predicate StateOnWire(fs: seq<Field>, s: State) {
    && TextOnWire(Under(fs, 1), 1, s.id) && IntOnWire(Under(fs, 2), 2, s.rev)
    && MapOnWire(Under(fs, 3), 3, s.annotations) && MapOnWire(Under(fs, 4), 4, s.labels)
    && TimeOnWire(Under(fs, 5), 5, s.committedAt)
    && |Under(fs, 6)| == 1 && HoldsTransition(Under(fs, 6)[0], 6, s.transition)
    && forall i | 0 <= i < |fs| :: 1 <= fs[i].num <= 6
  }

  ghost predicate HoldsState(f: Field, num: nat, s: State) {
    exists fs :: f == Len(num, Enc(fs)) && StateOnWire(fs, s)
  }

  // Six groups of fields, each under its own number, are found under it.
  lemma SixAt(a: seq<Field>, b: seq<Field>, c: seq<Field>, d: seq<Field>, e: seq<Field>, f: seq<Field>)
    requires AllNumbered(a, 1) && AllNumbered(b, 2) && AllNumbered(c, 3) && AllNumbered(d, 4) && AllNumbered(e, 5) && AllNumbered(f, 6)
    ensures var fs := (a + b) + ((c + d) + (e + f));
            && Under(fs, 1) == a && Under(fs, 2) == b && Under(fs, 3) == c && Under(fs, 4) == d && Under(fs, 5) == e && Under(fs, 6) == f
            && forall i | 0 <= i < |fs| :: 1 <= fs[i].num <= 6
  {
    var fs := (a + b) + ((c + d) + (e + f));
    forall num: nat
      ensures Under(fs, num) == if num == 1 then a else if num == 2 then b else if num == 3 then c
                             else if num == 4 then d else if num == 5 then e else if num == 6 then f else []
    {
      AtConcat(a + b, (c + d) + (e + f), num);
      AtConcat(a, b, num);
      AtConcat(c + d, e + f, num);
      AtConcat(c, d, num);
      AtConcat(e, f, num);
      AtNumbered(a, 1, num);
      AtNumbered(b, 2, num);
      AtNumbered(c, 3, num);
      AtNumbered(d, 4, num);
      AtNumbered(e, 5, num);
      AtNumbered(f, 6, num);
    }
    hide Under;
  }

  lemma StateFromParts(s: State, c: seq<Field>, d: seq<Field>, f: Field)
    requires Int64State(s) && MapOnWire(c, 3, s.annotations) && AllNumbered(c, 3) && MapOnWire(d, 4, s.labels) && AllNumbered(d, 4)
    requires f.num == 6 && HoldsTransition(f, 6, s.transition)
    ensures StateOnWire((TextField(1, s.id) + IntField(2, s.rev)) + ((c + d) + (TimeField(5, s.committedAt) + [f])), s)
  {
    hide MapOnWire, Under, HoldsTransition;
    SixAt(TextField(1, s.id), IntField(2, s.rev), c, d, TimeField(5, s.committedAt), [f]);
  }

  lemma TransitionIsHeld(ts: Transition, num: nat, walk: Walk, path: seq<nat>)
    requires IsWalk(walk)
    ensures HoldsTransition(Len(num, Enc(TransitionFields(ts, walk, path))), num, ts)
  {
    hide IsWalk, TransitionOnWire, TransitionFields, Enc;
    TransitionIsOnWire(ts, walk, path);
  }

  lemma StateIsOnWire(s: State, walk: Walk, path: seq<nat>)
    requires IsWalk(walk) && Int64State(s)
    ensures StateOnWire(StateFields(s, walk, path), s)
  {
    WalkEnumerates(walk, path + [3], s.annotations.Keys);
    WalkEnumerates(walk, path + [4], s.labels.Keys);
    TransitionIsHeld(s.transition, 6, walk, path + [6]);
    hide IsWalk, StateOnWire, MapFields, MapOnWire, Enumerates, TextField, IntField, TimeField, AllNumbered, TransitionFields, HoldsTransition, Enc, Under;
    MapIsOnWire(s.annotations, 3, walk(path + [3], s.annotations.Keys));
    MapIsOnWire(s.labels, 4, walk(path + [4], s.labels.Keys));
    StateFromParts(s, MapFields(s.annotations, 3, walk(path + [3], s.annotations.Keys)),
                   MapFields(s.labels, 4, walk(path + [4], s.labels.Keys)), Len(6, Enc(TransitionFields(s.transition, walk, path + [6]))));
  }

  lemma StateIsHeld(s: State, num: nat, walk: Walk, path: seq<nat>)
    requires IsWalk(walk) && Int64State(s)
    ensures HoldsState(Len(num, Enc(StateFields(s, walk, path))), num, s)
  {
    hide IsWalk, StateOnWire, StateFields, Enc;
    StateIsOnWire(s, walk, path);
  }

  // ------------------------------------------------------------- data

  /** message Data: rev = 2, the blob as text = 4, annotations = 5; a binary blob travels
      in base 64. */
  ghost predicate DataOnWire(fs: seq<Field>, d: Data) {
    && GoData(d) && IntOnWire(Under(fs, 2), 2, d.rev) && MapOnWire(Under(fs, 5), 5, d.annotations)
    && TextOnWire(Under(fs, 4), 4, if Lookup(d.annotations, "binary") == "true" then Base64.Encode(d.blob) else d.blob)
    && forall i | 0 <= i < |fs| :: fs[i].num == 2 || fs[i].num == 4 || fs[i].num == 5
  }

  lemma ThreeAt(a: seq<Field>, b: seq<Field>, c: seq<Field>)
    requires AllNumbered(a, 2) && AllNumbered(b, 4) && AllNumbered(c, 5)
    ensures var fs := a + (b + c);
            && Under(fs, 2) == a && Under(fs, 4) == b && Under(fs, 5) == c
            && forall i | 0 <= i < |fs| :: fs[i].num == 2 || fs[i].num == 4 || fs[i].num == 5
  {
    forall num: nat ensures Under(a + (b + c), num) == if num == 2 then a else if num == 4 then b else if num == 5 then c else [] {
      AtConcat(a, b + c, num);
      AtConcat(b, c, num);
      AtNumbered(a, 2, num);
      AtNumbered(b, 4, num);
      AtNumbered(c, 5, num);
    }
    hide Under;
  }

  lemma DataFromParts(d: Data, c: seq<Field>)
    requires GoData(d) && MapOnWire(c, 5, d.annotations) && AllNumbered(c, 5)
    ensures DataOnWire(IntField(2, d.rev) + (TextField(4, BlobText(d)) + c), d)
  {
    hide MapOnWire, Under, Base64.Encode, Bytes;
    ThreeAt(IntField(2, d.rev), TextField(4, BlobText(d)), c);
  }

  lemma DataIsOnWire(d: Data, walk: Walk, path: seq<nat>)
    requires IsWalk(walk) && GoData(d)
    ensures DataOnWire(DataFields(d, walk, path), d)
  {
    WalkEnumerates(walk, path + [5], d.annotations.Keys);
    hide IsWalk, DataOnWire, MapFields, MapOnWire, Enumerates, TextField, IntField, BlobText, AllNumbered;
    MapIsOnWire(d.annotations, 5, walk(path + [5], d.annotations.Keys));
    DataFromParts(d, MapFields(d.annotations, 5, walk(path + [5], d.annotations.Keys)));
  }

  // ------------------------------------------------------------- contexts

  // A named data: its name is field 1 and the data field 2.
  ghost predicate HoldsData(f: Field, num: nat, name: Text, d: Data) {
    exists fs :: f == Len(num, Enc([Len(1, name), Len(2, Enc(fs))])) && DataOnWire(fs, d)
  }

  ghost predicate TransitionsOnWire(fs: seq<Field>, tss: seq<Transition>) {
    |fs| == |tss| && forall i | 0 <= i < |fs| :: HoldsTransition(fs[i], 3, tss[i])
  }

  ghost predicate IsDataOf(f: Field, datas: map<Text, Data>, name: Text) {
    name in datas && f.num == 4 && HoldsData(f, 4, name, datas[name])
  }

  ghost predicate IsSomeData(f: Field, datas: map<Text, Data>) {
    exists k :: IsDataOf(f, datas, k)
  }

  ghost predicate DatasOnWire(fs: seq<Field>, datas: map<Text, Data>) {
    && (forall i {:trigger fs[i]} | 0 <= i < |fs| :: IsSomeData(fs[i], datas))
    && forall k {:trigger k in datas} | k in datas :: exists i :: 0 <= i < |fs| && IsDataOf(fs[i], datas, k)
  }

  /** message StateCtx: committed = 1, current = 2, transitions = 3, datas = 4. */
  ghost predicate CtxOnWire(fs: seq<Field>, c: StateCtx) {
    && |Under(fs, 1)| == 1 && HoldsState(Under(fs, 1)[0], 1, c.committed)
    && |Under(fs, 2)| == 1 && HoldsState(Under(fs, 2)[0], 2, c.current)
    && TransitionsOnWire(Under(fs, 3), c.transitions) && DatasOnWire(Under(fs, 4), c.datas)
    && forall i | 0 <= i < |fs| :: 1 <= fs[i].num <= 4
  }

  lemma TransitionsOnWireCons(f: Field, fs: seq<Field>, tss: seq<Transition>)
    requires tss != [] && HoldsTransition(f, 3, tss[0]) && TransitionsOnWire(fs, tss[1..])
    ensures TransitionsOnWire([f] + fs, tss)
  {
    hide HoldsTransition;
    forall i | 0 <= i < |tss| ensures HoldsTransition(([f] + fs)[i], 3, tss[i]) {
      assert i > 0 ==> ([f] + fs)[i] == fs[i - 1] && tss[i] == tss[1..][i - 1];
    }
  }

  lemma {:induction false} TransitionsAreOnWire(tss: seq<Transition>, walk: Walk, path: seq<nat>)
    requires IsWalk(walk)
    ensures TransitionsOnWire(TransitionsFields(tss, walk, path), tss)
    decreases |tss|
  {
    if tss != [] {
      hide HoldsTransition, TransitionFields, IsWalk, Enc, TransitionsOnWire;
      TransitionIsHeld(tss[0], 3, walk, path + [|tss|]);
      TransitionsAreOnWire(tss[1..], walk, path);
      TransitionsOnWireCons(Len(3, Enc(TransitionFields(tss[0], walk, path + [|tss|]))), TransitionsFields(tss[1..], walk, path), tss);
    }
  }

  lemma TransitionsAreNumbered(fs: seq<Field>, tss: seq<Transition>)
    requires TransitionsOnWire(fs, tss)
    ensures AllNumbered(fs, 3)
  {
    hide TransitionOnWire;
  }

  lemma DataIsHeld(name: Text, d: Data, num: nat, walk: Walk, path: seq<nat>)
    requires IsWalk(walk) && GoData(d)
    ensures HoldsData(Len(num, Enc(DataItemFields(name, d, walk, path))), num, name, d)
  {
    hide IsWalk, DataOnWire, DataFields, Enc, GoData;
    DataIsOnWire(d, walk, path);
  }

  ghost predicate HoldsDatas(fs: seq<Field>, datas: map<Text, Data>, order: seq<Text>) {
    |fs| == |order| && forall i | 0 <= i < |order| :: IsDataOf(fs[i], datas, order[i])
  }

  lemma HoldsDatasCons(f: Field, fs: seq<Field>, datas: map<Text, Data>, order: seq<Text>)
    requires order != [] && IsDataOf(f, datas, order[0]) && HoldsDatas(fs, datas, order[1..])
    ensures HoldsDatas([f] + fs, datas, order)
  {
    hide IsDataOf;
    forall i | 0 <= i < |order| ensures IsDataOf(([f] + fs)[i], datas, order[i]) {
      assert i > 0 ==> ([f] + fs)[i] == fs[i - 1] && order[i] == order[1..][i - 1];
    }
  }

  lemma {:induction false} DatasAreHeld(datas: map<Text, Data>, order: seq<Text>, walk: Walk, path: seq<nat>)
    requires IsWalk(walk) && GoDatas(datas) && forall i | 0 <= i < |order| :: order[i] in datas
    ensures HoldsDatas(DatasFields(datas, order, walk, path), datas, order)
    decreases |order|
  {
    if order != [] {
      DataIsHeld(order[0], datas[order[0]], 4, walk, path + [|order|]);
      DatasAreHeld(datas, order[1..], walk, path);
      hide HoldsData, DataItemFields, IsWalk, Enc, GoData, HoldsDatas;
      HoldsDatasCons(Len(4, Enc(DataItemFields(order[0], datas[order[0]], walk, path + [|order|]))),
                     DatasFields(datas, order[1..], walk, path), datas, order);
    }
  }

  lemma HeldAreNumbered(fs: seq<Field>, datas: map<Text, Data>, order: seq<Text>)
    requires HoldsDatas(fs, datas, order)
    ensures AllNumbered(fs, 4)
  {
    hide HoldsData;
  }

  lemma HeldAreOnWire(fs: seq<Field>, datas: map<Text, Data>, order: seq<Text>)
    requires HoldsDatas(fs, datas, order) && Enumerates(order, datas.Keys)
    ensures DatasOnWire(fs, datas)
  {
    hide IsDataOf;
    forall i | 0 <= i < |fs| ensures IsSomeData(fs[i], datas) {
      assert IsDataOf(fs[i], datas, order[i]);
    }
    forall k | k in datas ensures exists i :: 0 <= i < |fs| && IsDataOf(fs[i], datas, k) {
      assert k in order;
      var i :| 0 <= i < |order| && order[i] == k;
      assert IsDataOf(fs[i], datas, k);
    }
  }

  lemma FourAt(a: Field, b: Field, c: seq<Field>, d: seq<Field>)
    requires a.num == 1 && b.num == 2 && AllNumbered(c, 3) && AllNumbered(d, 4)
    ensures var fs := ([a] + [b]) + (c + d);
            && Under(fs, 1) == [a] && Under(fs, 2) == [b] && Under(fs, 3) == c && Under(fs, 4) == d
            && forall i | 0 <= i < |fs| :: 1 <= fs[i].num <= 4
  {
    SixAt([a], [b], c, d, [], []);
    assert ([a] + [b]) + ((c + d) + ([] + [])) == ([a] + [b]) + (c + d);
  }

  lemma CtxFromParts(c: StateCtx, f1: Field, f2: Field, tss: seq<Field>, datas: seq<Field>)
    requires f1.num == 1 && HoldsState(f1, 1, c.committed) && f2.num == 2 && HoldsState(f2, 2, c.current)
    requires TransitionsOnWire(tss, c.transitions) && AllNumbered(tss, 3) && DatasOnWire(datas, c.datas) && AllNumbered(datas, 4)
    ensures CtxOnWire(([f1] + [f2]) + (tss + datas), c)
  {
    hide HoldsState, TransitionsOnWire, DatasOnWire, Under, AllNumbered;
    FourAt(f1, f2, tss, datas);
  }

  lemma ListedAre(order: seq<Text>, datas: map<Text, Data>)
    requires Enumerates(order, datas.Keys)
    ensures forall i | 0 <= i < |order| :: order[i] in datas
  {
  }

  lemma DatasAreOnWire(datas: map<Text, Data>, order: seq<Text>, walk: Walk, path: seq<nat>)
    requires IsWalk(walk) && GoDatas(datas) && Enumerates(order, datas.Keys) && forall i | 0 <= i < |order| :: order[i] in datas
    ensures DatasOnWire(DatasFields(datas, order, walk, path), datas) && AllNumbered(DatasFields(datas, order, walk, path), 4)
  {
    hide *;
    DatasAreHeld(datas, order, walk, path);
    HeldAreNumbered(DatasFields(datas, order, walk, path), datas, order);
    HeldAreOnWire(DatasFields(datas, order, walk, path), datas, order);
  }

  lemma CtxIsOnWire(c: StateCtx, walk: Walk, path: seq<nat>)
    requires IsWalk(walk) && GoCtx(c)
    ensures CtxOnWire(CtxFields(c, walk, path), c)
  {
    var order := walk(path + [4], c.datas.Keys);
    WalkEnumerates(walk, path + [4], c.datas.Keys);
    ListedAre(order, c.datas);
    hide StateFields, HoldsState, TransitionsFields, DatasFields, TransitionsOnWire, DatasOnWire, AllNumbered, CtxOnWire, Enc, IsWalk, GoDatas, Int64State, Enumerates;
    DatasAreOnWire(c.datas, order, walk, path + [4]);
    StateIsHeld(c.committed, 1, walk, path + [1]);
    StateIsHeld(c.current, 2, walk, path + [2]);
    TransitionsAreOnWire(c.transitions, walk, path + [3]);
    TransitionsAreNumbered(TransitionsFields(c.transitions, walk, path + [3]), c.transitions);
    CtxFromParts(c, Len(1, Enc(StateFields(c.committed, walk, path + [1]))), Len(2, Enc(StateFields(c.current, walk, path + [2]))),
                 TransitionsFields(c.transitions, walk, path + [3]), DatasFields(c.datas, order, walk, path + [4]));
  }

  // ------------------------------------------------------------- delayed states

  /** message DelayedState: state = 1, offset = 2, execute_at = 3. */
  ghost predicate DelayedOnWire(fs: seq<Field>, ds: DelayedState) {
    && |Under(fs, 1)| == 1 && HoldsState(Under(fs, 1)[0], 1, ds.state)
    && IntOnWire(Under(fs, 2), 2, ds.offset) && TimeOnWire(Under(fs, 3), 3, ds.executeAt)
    && forall i | 0 <= i < |fs| :: 1 <= fs[i].num <= 3
  }

  lemma LeadAt(f: Field, a: seq<Field>, b: seq<Field>)
    requires f.num == 1 && AllNumbered(a, 2) && AllNumbered(b, 3)
    ensures var fs := [f] + (a + b);
            Under(fs, 1) == [f] && Under(fs, 2) == a && Under(fs, 3) == b && forall i | 0 <= i < |fs| :: 1 <= fs[i].num <= 3
  {
    forall num: nat ensures Under([f] + (a + b), num) == if num == 1 then [f] else if num == 2 then a else if num == 3 then b else [] {
      AtConcat([f], a + b, num);
      AtConcat(a, b, num);
      AtOne(f, num);
      AtNumbered(a, 2, num);
      AtNumbered(b, 3, num);
    }
    hide Under;
  }

  lemma DelayedFromParts(ds: DelayedState, f: Field)
    requires GoDelayed(ds) && f.num == 1 && HoldsState(f, 1, ds.state)
    ensures DelayedOnWire([f] + (IntField(2, ds.offset) + TimeField(3, ds.executeAt)), ds)
  {
    hide HoldsState, Under;
    LeadAt(f, IntField(2, ds.offset), TimeField(3, ds.executeAt));
  }

  lemma DelayedIsOnWire(ds: DelayedState, walk: Walk, path: seq<nat>)
    requires IsWalk(walk) && GoDelayed(ds)
    ensures DelayedOnWire(DelayedFields(ds, walk, path), ds)
  {
    hide StateFields, HoldsState, Enc, IsWalk, DelayedOnWire, IntField, TimeField;
    StateIsHeld(ds.state, 1, walk, path + [1]);
    DelayedFromParts(ds, Len(1, Enc(StateFields(ds.state, walk, path + [1]))));
  }
}
