/** Marshalling and unmarshalling of command trees, and what it keeps: the tree,
    the contexts it points to and which of its pointers are equal. */
module CommandCodec {
  import opened States
  import opened Wire
  import opened Codec
  import opened CtxCodec
  import opened Commands

  // ------------------------------------------------------------- references

  function RefFields(num: nat, r: Ref, table: seq<nat>): seq<Field>
    requires |table| < TWO63
  {
    if r.Some? then [Len(num, Enc([Varint(1, ToUint64(Idx(table, r.value)))]))] else []
  }

  function RefStep(idx: int, f: Field): Result<int> {
    if f.num == 1 then if ReadInt(f).Some? then Ok(ReadInt(f).value) else Err
    else Ok(idx)
  }

  /** unmarshalStateCtxRef among n contexts; an index outside them, where the code
      panics, is an error. */
  function ReadRef(src: Text, n: nat): Result<nat> {
    var idx := Decode(RefStep, src, -1);
    if idx.Err? || !(0 <= idx.value < n) then Err else Ok(idx.value)
  }

  lemma RefReads(a: nat, table: seq<nat>)
    requires |table| < TWO63 && a in table
    ensures ReadRef(Enc([Varint(1, ToUint64(Idx(table, a)))]), |table|) == Ok(Idx(table, a))
  {
    var f := Varint(1, ToUint64(Idx(table, a)));
    DecodeIsFold(RefStep, [f], -1);
    FoldOne(RefStep, f, -1);
    IntReads(1, Idx(table, a));
  }

  // ------------------------------------------------------------- bodies

  predicate GoBody(b: Body) {
    && IsInt64(b.rev) && IsInt64(b.limit)
    && (b.at.Some? ==> IsInt64(b.at.value)) && (b.until.Some? ==> IsInt64(b.until.value))
    && (b.result.Some? ==> GoDelayed(b.result.value))
    && (b.found.Some? ==> GoStates(b.found.value.states))
    && (b.due.Some? ==> GoDues(b.due.value.states))
  }

  predicate GoStates(states: seq<State>) {
    forall i | 0 <= i < |states| :: Int64State(states[i])
  }

  predicate GoDues(states: seq<DelayedState>) {
    forall i | 0 <= i < |states| :: GoDelayed(states[i])
  }

  // ------------------------------------------------------------- label sets and results

  /** The label sets of a query, one message each. */
  function LabelsFields(sets: seq<Dict>, num: nat, walk: Walk, path: seq<nat>): seq<Field> {
    if sets == [] then []
    else [Len(num, Enc(MapFields(sets[0], 1, walk(path + [|sets|], sets[0].Keys))))] + LabelsFields(sets[1..], num, walk, path)
  }

  function LabelStep(m: Dict, f: Field): Result<Dict> {
    if f.num != 1 then Ok(m) else if f.Len? then AddItem(f.data, m) else Err
  }

  function MoreFields(more: bool): seq<Field> {
    if more then [Varint(2, 1)] else []
  }

  function StateList(states: seq<State>, walk: Walk, path: seq<nat>): seq<Field>
    requires GoStates(states)
  {
    if states == [] then []
    else [Len(1, Enc(StateFields(states[0], walk, path + [|states|])))] + StateList(states[1..], walk, path)
  }

  function FoundFields(num: nat, found: Option<Found>, walk: Walk, path: seq<nat>): seq<Field>
    requires found.Some? ==> GoStates(found.value.states)
  {
    if found.None? then []
    else [Len(num, Enc(StateList(found.value.states, walk, path) + MoreFields(found.value.more)))]
  }

  function FoundStep(r: Found, f: Field): Result<Found> {
    if f.num == 1 then
      if f.Len? then
        var s := Decode(StateStep, f.data, ZERO_STATE);
        if s.Err? then Err else Ok(r.(states := r.states + [s.value]))
      else Err
    else if f.num == 2 then if f.Varint? && f.value < 2 then Ok(r.(more := f.value == 1)) else Err
    else Ok(r)
  }

  function DelayedList(states: seq<DelayedState>, walk: Walk, path: seq<nat>): seq<Field>
    requires GoDues(states)
  {
    if states == [] then []
    else [Len(1, Enc(DelayedFields(states[0], walk, path + [|states|])))] + DelayedList(states[1..], walk, path)
  }

  function DueFields(num: nat, due: Option<Due>, walk: Walk, path: seq<nat>): seq<Field>
    requires due.Some? ==> GoDues(due.value.states)
  {
    if due.None? then []
    else [Len(num, Enc(DelayedList(due.value.states, walk, path) + MoreFields(due.value.more)))]
  }

  function DueStep(r: Due, f: Field): Result<Due> {
    if f.num == 1 then
      if f.Len? then
        var ds := Decode(DelayedStep, f.data, ZERO_DELAYED);
        if ds.Err? then Err else Ok(r.(states := r.states + [ds.value]))
      else Err
    else if f.num == 2 then if f.Varint? && f.value < 2 then Ok(r.(more := f.value == 1)) else Err
    else Ok(r)
  }

  predicate PlainSets(sets: seq<Dict>) {
    forall i | 0 <= i < |sets| :: NoEmptyKey(sets[i])
  }

  predicate PlainStates(states: seq<State>) {
    forall i | 0 <= i < |states| :: Plain(states[i])
  }

  predicate PlainDues(states: seq<DelayedState>) {
    forall i | 0 <= i < |states| :: Plain(states[i].state)
  }

  // A delayed state due at second 0 arrives without its time.
  function OnTime(ds: DelayedState): DelayedState {
    ds.(executeAt := if ds.executeAt == Some(0) then None else ds.executeAt)
  }

  function AllOnTime(states: seq<DelayedState>): seq<DelayedState> {
    seq(|states|, i requires 0 <= i < |states| => OnTime(states[i]))
  }

  lemma LabelSetReads(m: Dict, order: seq<Text>)
    requires Enumerates(order, m.Keys)
    ensures Decode(LabelStep, Enc(MapFields(m, 1, order)), map[]) == if NoEmptyKey(m) then Ok(m) else Err
  {
    DecodeIsFold(LabelStep, MapFields(m, 1, order), map[]);
    WalkReads(LabelStep, 1, (x: Dict) => x, (x: Dict, n: Dict) => n, m, order, map[]);
    assert map[] + m == m;
  }

  lemma MoreReads(more: bool, states: seq<State>)
    ensures Fold(FoundStep, MoreFields(more), Found(states, false)) == Ok(Found(states, more))
  {
    if more {
      FoldOne(FoundStep, Varint(2, 1), Found(states, false));
    }
  }

  lemma {:induction false} StateListReads(states: seq<State>, walk: Walk, path: seq<nat>, to: seq<State>)
    requires GoStates(states) && IsWalk(walk)
    ensures Fold(FoundStep, StateList(states, walk, path), Found(to, false)) ==
            if PlainStates(states) then Ok(Found(to + states, false)) else Err
    decreases |states|
  {
    hide IsWalk, StateFields, StateStep, Plain, Enc, Wire.Decode;
    if states == [] {
      assert to + states == to;
    } else {
      StateReads(states[0], walk, path + [|states|], ZERO_STATE);
      OverZeroState(states[0]);
      StateListReads(states[1..], walk, path, to + [states[0]]);
      assert (to + [states[0]]) + states[1..] == to + states;
      assert PlainStates(states) <==> Plain(states[0]) && PlainStates(states[1..]);
    }
  }

  lemma FoundMessageReads(found: Found, walk: Walk, path: seq<nat>)
    requires GoStates(found.states) && IsWalk(walk)
    ensures Decode(FoundStep, Enc(StateList(found.states, walk, path) + MoreFields(found.more)), Found([], false)) ==
            if PlainStates(found.states) then Ok(found) else Err
  {
    var a, b := StateList(found.states, walk, path), MoreFields(found.more);
    hide IsWalk, StateList, FoundStep, MoreFields;
    DecodeIsFold(FoundStep, a + b, Found([], false));
    FoldConcat(FoundStep, a, b, Found([], false));
    StateListReads(found.states, walk, path, []);
    assert [] + found.states == found.states;
    MoreReads(found.more, found.states);
  }

  lemma DueMoreReads(more: bool, states: seq<DelayedState>)
    ensures Fold(DueStep, MoreFields(more), Due(states, false)) == Ok(Due(states, more))
  {
    if more {
      FoldOne(DueStep, Varint(2, 1), Due(states, false));
    }
  }

  lemma {:induction false} DelayedListReads(states: seq<DelayedState>, walk: Walk, path: seq<nat>, to: seq<DelayedState>)
    requires GoDues(states) && IsWalk(walk)
    ensures Fold(DueStep, DelayedList(states, walk, path), Due(to, false)) ==
            if PlainDues(states) then Ok(Due(to + AllOnTime(states), false)) else Err
    decreases |states|
  {
    hide IsWalk, DelayedFields, DelayedStep, Plain, Enc, Wire.Decode;
    if states == [] {
      assert to + AllOnTime(states) == to;
    } else {
      DelayedRoundTrip(states[0], walk, path + [|states|]);
      DelayedListReads(states[1..], walk, path, to + [OnTime(states[0])]);
      assert (to + [OnTime(states[0])]) + AllOnTime(states[1..]) == to + AllOnTime(states);
      assert PlainDues(states) <==> Plain(states[0].state) && PlainDues(states[1..]);
    }
  }

  lemma DueMessageReads(due: Due, walk: Walk, path: seq<nat>)
    requires GoDues(due.states) && IsWalk(walk)
    ensures Decode(DueStep, Enc(DelayedList(due.states, walk, path) + MoreFields(due.more)), Due([], false)) ==
            if PlainDues(due.states) then Ok(Due(AllOnTime(due.states), due.more)) else Err
  {
    var a, b := DelayedList(due.states, walk, path), MoreFields(due.more);
    hide IsWalk, DelayedList, DueStep, MoreFields;
    DecodeIsFold(DueStep, a + b, Due([], false));
    FoldConcat(DueStep, a, b, Due([], false));
    DelayedListReads(due.states, walk, path, []);
    assert [] + AllOnTime(due.states) == AllOnTime(due.states);
    DueMoreReads(due.more, AllOnTime(due.states));
  }

  function ResultFields(num: nat, ds: Option<DelayedState>, walk: Walk, path: seq<nat>): seq<Field>
    requires ds.Some? ==> GoDelayed(ds.value)
  {
    if ds.Some? then [Len(num, Enc(DelayedFields(ds.value, walk, path)))] else []
  }

  function PartFields(s: Slot, b: Body, table: seq<nat>, walk: Walk, path: seq<nat>): seq<Field>
    requires GoBody(b) && |table| < TWO63
  {
    match s.part
    case Ctx => RefFields(s.num, b.ctx, table)
    case Other => RefFields(s.num, b.other, table)
    case Txt => TextField(s.num, b.text)
    case Dic => MapFields(b.dict, s.num, walk(path + [s.num], b.dict.Keys))
    case Rev => IntField(s.num, b.rev)
    case Res => ResultFields(s.num, b.result, walk, path + [s.num])
    case At => TimeField(s.num, b.at)
    case Flag => if b.flag then [Varint(s.num, 1)] else []
    case Until => TimeField(s.num, b.until)
    case Labs => LabelsFields(b.labels, s.num, walk, path + [s.num])
    case Lim => IntField(s.num, b.limit)
    case Fnd => FoundFields(s.num, b.found, walk, path + [s.num])
    case Dues => DueFields(s.num, b.due, walk, path + [s.num])
  }

  function SlotsFields(slots: seq<Slot>, b: Body, table: seq<nat>, walk: Walk, path: seq<nat>): seq<Field>
    requires GoBody(b) && |table| < TWO63
  {
    if slots == [] then [] else PartFields(slots[0], b, table, walk, path) + SlotsFields(slots[1..], b, table, walk, path)
  }

  function PartOf(slots: seq<Slot>, num: nat): Option<Part> {
    if slots == [] then None else if slots[0].num == num then Some(slots[0].part) else PartOf(slots[1..], num)
  }

  function ReadPart(part: Part, n: nat, b: Body, f: Field): Result<Body> {
    match part
    case Ctx =>
      if f.Len? then
        var r := ReadRef(f.data, n);
        if r.Err? then Err else Ok(b.(ctx := Some(r.value)))
      else Err
    case Other =>
      if f.Len? then
        var r := ReadRef(f.data, n);
        if r.Err? then Err else Ok(b.(other := Some(r.value)))
      else Err
    case Txt => if f.Len? then Ok(b.(text := f.data)) else Err
    case Dic =>
      if f.Len? then
        var m := AddItem(f.data, b.dict);
        if m.Err? then Err else Ok(b.(dict := m.value))
      else Err
    case Rev => if ReadInt(f).Some? then Ok(b.(rev := ReadInt(f).value)) else Err
    case Res =>
      if f.Len? then
        var ds := Decode(DelayedStep, f.data, ZERO_DELAYED);
        if ds.Err? then Err else Ok(b.(result := Some(ds.value)))
      else Err
    case At => if ReadInt(f).Some? then Ok(b.(at := Some(ReadInt(f).value))) else Err
    case Flag => if f.Varint? && f.value < 2 then Ok(b.(flag := f.value == 1)) else Err
    case Until => if ReadInt(f).Some? then Ok(b.(until := Some(ReadInt(f).value))) else Err
    case Labs =>
      if f.Len? then
        var m := Decode(LabelStep, f.data, map[]);
        if m.Err? then Err else Ok(b.(labels := b.labels + [m.value]))
      else Err
    case Lim => if ReadInt(f).Some? then Ok(b.(limit := ReadInt(f).value)) else Err
    case Fnd =>
      if f.Len? then
        var r := Decode(FoundStep, f.data, Found([], false));
        if r.Err? then Err else Ok(b.(found := Some(r.value)))
      else Err
    case Dues =>
      if f.Len? then
        var r := Decode(DueStep, f.data, Due([], false));
        if r.Err? then Err else Ok(b.(due := Some(r.value)))
      else Err
  }

  /** The switch of a command's unmarshaler, given its layout. */
  function BodyStep(slots: seq<Slot>, n: nat): (Body, Field) -> Result<Body> {
    (b: Body, f: Field) =>
      var part := PartOf(slots, f.num);
      if part.None? then Ok(b) else ReadPart(part.value, n, b, f)
  }

  // What arrives: contexts renumbered, delayed states due at second 0 without their time.
  function Arrived(b: Body, table: seq<nat>): Body {
    b.(ctx := Renumber(b.ctx, table), other := Renumber(b.other, table), result := Delivered(b.result), due := DueDelivered(b.due))
  }

  function Delivered(ds: Option<DelayedState>): Option<DelayedState> {
    if ds.Some? then Some(OnTime(ds.value)) else None
  }

  function DueDelivered(due: Option<Due>): Option<Due> {
    if due.Some? then Some(Due(AllOnTime(due.value.states), due.value.more)) else None
  }

  predicate PlainBody(b: Body) {
    forall part: Part :: PlainPart(part, b)
  }

  predicate ZeroAt(part: Part, b: Body) {
    SetPart(part, b, ZERO_BODY) == b
  }

  lemma OneFieldReads(slots: seq<Slot>, s: Slot, n: nat, f: Field, to: Body)
    requires PartOf(slots, s.num) == Some(s.part) && f.num == s.num
    ensures Fold(BodyStep(slots, n), [f], to) == ReadPart(s.part, n, to, f)
  {
    FoldOne(BodyStep(slots, n), f, to);
  }

  lemma RefPartReads(slots: seq<Slot>, s: Slot, b: Body, table: seq<nat>, to: Body)
    requires PartOf(slots, s.num) == Some(s.part) && (s.part == Ctx || s.part == Other)
    requires |table| < TWO63 && RefIn(b.ctx, table) && RefIn(b.other, table) && ZeroAt(s.part, to)
    ensures Fold(BodyStep(slots, |table|), RefFields(s.num, if s.part == Ctx then b.ctx else b.other, table), to) ==
            Ok(SetPart(s.part, to, Arrived(b, table)))
  {
    var r := if s.part == Ctx then b.ctx else b.other;
    if r.Some? {
      RefReads(r.value, table);
      OneFieldReads(slots, s, |table|, RefFields(s.num, r, table)[0], to);
    }
  }

  lemma DictReads(slots: seq<Slot>, s: Slot, n: nat, m: Dict, order: seq<Text>, to: Body)
    requires PartOf(slots, s.num) == Some(s.part) && s.part == Dic && Enumerates(order, m.Keys) && to.dict == map[]
    ensures Fold(BodyStep(slots, n), MapFields(m, s.num, order), to) == if NoEmptyKey(m) then Ok(to.(dict := m)) else Err
  {
    WalkReads(BodyStep(slots, n), s.num, (b: Body) => b.dict, (b: Body, d: Dict) => b.(dict := d), m, order, to);
    assert map[] + m == m;
  }

  lemma ResultReads(slots: seq<Slot>, s: Slot, n: nat, ds: Option<DelayedState>, walk: Walk, path: seq<nat>, to: Body)
    requires PartOf(slots, s.num) == Some(s.part) && s.part == Res && IsWalk(walk) && to.result == None
    requires ds.Some? ==> GoDelayed(ds.value)
    ensures Fold(BodyStep(slots, n), ResultFields(s.num, ds, walk, path), to) ==
            if ds.Some? && !Plain(ds.value.state) then Err else Ok(to.(result := Delivered(ds)))
  {
    if ds.Some? {
      DelayedRoundTrip(ds.value, walk, path);
      OneFieldReads(slots, s, n, ResultFields(s.num, ds, walk, path)[0], to);
    }
  }

  lemma OneSetReads(slots: seq<Slot>, s: Slot, n: nat, m: Dict, order: seq<Text>, to: Body)
    requires PartOf(slots, s.num) == Some(s.part) && s.part == Labs && Enumerates(order, m.Keys)
    ensures BodyStep(slots, n)(to, Len(s.num, Enc(MapFields(m, 1, order)))) ==
            if NoEmptyKey(m) then Ok(to.(labels := to.labels + [m])) else Err
  {
    LabelSetReads(m, order);
  }

  lemma {:induction false} LabelsRead(slots: seq<Slot>, s: Slot, n: nat, sets: seq<Dict>, walk: Walk, path: seq<nat>, to: Body)
    requires PartOf(slots, s.num) == Some(s.part) && s.part == Labs && IsWalk(walk)
    ensures Fold(BodyStep(slots, n), LabelsFields(sets, s.num, walk, path), to) ==
            if PlainSets(sets) then Ok(to.(labels := to.labels + sets)) else Err
    decreases |sets|
  {
    if sets == [] {
      assert to.labels + sets == to.labels;
    } else {
      var m, order := sets[0], walk(path + [|sets|], sets[0].Keys);
      assert Enumerates(order, m.Keys);
      hide IsWalk, BodyStep, NoEmptyKey, Enc, MapFields, Enumerates, PartOf, Fold;
      OneSetReads(slots, s, n, m, order, to);
      FoldCons(BodyStep(slots, n), Len(s.num, Enc(MapFields(m, 1, order))), LabelsFields(sets[1..], s.num, walk, path), to);
      SetsSplit(sets, to.labels);
      LabelsRead(slots, s, n, sets[1..], walk, path, to.(labels := to.labels + [m]));
    }
  }

  lemma SetsSplit(sets: seq<Dict>, to: seq<Dict>)
    requires sets != []
    ensures (to + [sets[0]]) + sets[1..] == to + sets
    ensures PlainSets(sets) <==> NoEmptyKey(sets[0]) && PlainSets(sets[1..])
  {
  }

  lemma FoundReads(slots: seq<Slot>, s: Slot, n: nat, found: Option<Found>, walk: Walk, path: seq<nat>, to: Body)
    requires PartOf(slots, s.num) == Some(s.part) && s.part == Fnd && IsWalk(walk) && to.found == None
    requires found.Some? ==> GoStates(found.value.states)
    ensures Fold(BodyStep(slots, n), FoundFields(s.num, found, walk, path), to) ==
            if found.Some? && !PlainStates(found.value.states) then Err else Ok(to.(found := found))
  {
    if found.Some? {
      FoundMessageReads(found.value, walk, path);
      hide IsWalk, StateList, FoundStep, Wire.Decode, Enc, PlainStates;
      OneFieldReads(slots, s, n, FoundFields(s.num, found, walk, path)[0], to);
    }
  }

  lemma DueReads(slots: seq<Slot>, s: Slot, n: nat, due: Option<Due>, walk: Walk, path: seq<nat>, to: Body)
    requires PartOf(slots, s.num) == Some(s.part) && s.part == Dues && IsWalk(walk) && to.due == None
    requires due.Some? ==> GoDues(due.value.states)
    ensures Fold(BodyStep(slots, n), DueFields(s.num, due, walk, path), to) ==
            if due.Some? && !PlainDues(due.value.states) then Err else Ok(to.(due := DueDelivered(due)))
  {
    if due.Some? {
      DueMessageReads(due.value, walk, path);
      hide IsWalk, DelayedList, DueStep, Wire.Decode, Enc, PlainDues;
      OneFieldReads(slots, s, n, DueFields(s.num, due, walk, path)[0], to);
    }
  }

  // The parts that are one plain field.
  predicate IsScalar(part: Part) {
    part == Txt || part == Rev || part == At || part == Flag || part == Until || part == Lim
  }

  lemma ScalarReads(slots: seq<Slot>, s: Slot, n: nat, b: Body, table: seq<nat>, walk: Walk, path: seq<nat>, to: Body)
    requires PartOf(slots, s.num) == Some(s.part) && IsScalar(s.part)
    requires GoBody(b) && |table| < TWO63 && ZeroAt(s.part, to)
    ensures Fold(BodyStep(slots, n), PartFields(s, b, table, walk, path), to) == Ok(SetPart(s.part, to, b))
  {
    var fs := PartFields(s, b, table, walk, path);
    IntReads(s.num, b.rev);
    IntReads(s.num, b.limit);
    if b.at.Some? {
      IntReads(s.num, b.at.value);
    }
    if b.until.Some? {
      IntReads(s.num, b.until.value);
    }
    if fs != [] {
      OneFieldReads(slots, s, n, fs[0], to);
      assert fs == [fs[0]];
    }
  }

  predicate PlainPart(part: Part, b: Body) {
    match part
    case Dic => NoEmptyKey(b.dict)
    case Res => b.result.Some? ==> Plain(b.result.value.state)
    case Labs => PlainSets(b.labels)
    case Fnd => b.found.Some? ==> PlainStates(b.found.value.states)
    case Dues => b.due.Some? ==> PlainDues(b.due.value.states)
    case _ => true
  }

  lemma PartReads(slots: seq<Slot>, s: Slot, b: Body, table: seq<nat>, walk: Walk, path: seq<nat>, to: Body)
    requires PartOf(slots, s.num) == Some(s.part) && IsWalk(walk)
    requires GoBody(b) && |table| < TWO63 && RefIn(b.ctx, table) && RefIn(b.other, table) && ZeroAt(s.part, to)
    ensures Fold(BodyStep(slots, |table|), PartFields(s, b, table, walk, path), to) ==
            if PlainPart(s.part, b) then Ok(SetPart(s.part, to, Arrived(b, table))) else Err
  {
    hide BodyStep, Fold, RefFields, ResultFields, MapFields, LabelsFields, FoundFields, DueFields, Plain, Renumber;
    match s.part {
      case Ctx => RefPartReads(slots, s, b, table, to);
      case Other => RefPartReads(slots, s, b, table, to);
      case Dic => DictReads(slots, s, |table|, b.dict, walk(path + [s.num], b.dict.Keys), to);
      case Res => ResultReads(slots, s, |table|, b.result, walk, path + [s.num], to);
      case Labs =>
        LabelsRead(slots, s, |table|, b.labels, walk, path + [s.num], to);
        assert [] + b.labels == b.labels;
      case Fnd => FoundReads(slots, s, |table|, b.found, walk, path + [s.num], to);
      case Dues => DueReads(slots, s, |table|, b.due, walk, path + [s.num], to);
      case _ => ScalarReads(slots, s, |table|, b, table, walk, path, to);
    }
  }

  // ------------------------------------------------------------- whole bodies

  // Each part has its own number and appears once.
  predicate Distinct(slots: seq<Slot>) {
    forall i, j | 0 <= i < j < |slots| :: slots[i].num != slots[j].num && slots[i].part != slots[j].part
  }

  lemma LayoutsAreDistinct(kind: Kind)
    ensures Distinct(Layout(kind))
  {
  }

  lemma {:induction false} PartOfSlot(slots: seq<Slot>, i: nat)
    requires Distinct(slots) && i < |slots|
    ensures PartOf(slots, slots[i].num) == Some(slots[i].part)
  {
    if i > 0 {
      PartOfSlot(slots[1..], i - 1);
    }
  }

  predicate PlainSlots(slots: seq<Slot>, b: Body) {
    forall i | 0 <= i < |slots| :: PlainPart(slots[i].part, b)
  }

  lemma {:induction false} SlotsRead(slots: seq<Slot>, i: nat, b: Body, table: seq<nat>, walk: Walk, path: seq<nat>, to: Body)
    requires Distinct(slots) && i <= |slots| && IsWalk(walk)
    requires GoBody(b) && |table| < TWO63 && RefIn(b.ctx, table) && RefIn(b.other, table)
    requires forall j | i <= j < |slots| :: ZeroAt(slots[j].part, to)
    ensures Fold(BodyStep(slots, |table|), SlotsFields(slots[i..], b, table, walk, path), to) ==
            if PlainSlots(slots[i..], b) then Ok(SetAll(slots[i..], to, Arrived(b, table))) else Err
    decreases |slots| - i
  {
    hide IsWalk, BodyStep, PartFields, PlainPart, Arrived, GoBody;
    if i < |slots| {
      var s, rest := slots[i], slots[i + 1..];
      assert slots[i..][1..] == rest && slots[i..][0] == s;
      PartOfSlot(slots, i);
      PartReads(slots, s, b, table, walk, path, to);
      FoldConcat(BodyStep(slots, |table|), PartFields(s, b, table, walk, path), SlotsFields(rest, b, table, walk, path), to);
      var next := SetPart(s.part, to, Arrived(b, table));
      StillZero(slots, i, to, Arrived(b, table));
      SlotsRead(slots, i + 1, b, table, walk, path, next);
      assert PlainSlots(slots[i..], b) <==> PlainPart(s.part, b) && PlainSlots(rest, b);
    }
  }

  lemma StillZero(slots: seq<Slot>, i: nat, to: Body, b: Body)
    requires Distinct(slots) && i < |slots| && forall j | i <= j < |slots| :: ZeroAt(slots[j].part, to)
    ensures forall j | i < j < |slots| :: ZeroAt(slots[j].part, SetPart(slots[i].part, to, b))
  {
    forall j | i < j < |slots| ensures ZeroAt(slots[j].part, SetPart(slots[i].part, to, b)) {
      OtherStaysZero(slots[i].part, slots[j].part, to, b);
    }
  }

  lemma OtherStaysZero(p: Part, q: Part, to: Body, b: Body)
    requires p != q && ZeroAt(q, to)
    ensures ZeroAt(q, SetPart(p, to, b))
  {
  }

  ghost predicate Holds(slots: seq<Slot>, part: Part) {
    exists i :: 0 <= i < |slots| && slots[i].part == part
  }

  // The two bodies have the same part.
  predicate Same(part: Part, a: Body, b: Body) {
    SetPart(part, a, b) == a
  }

  lemma SetSameTwice(p: Part, r: Body, to: Body, b: Body)
    ensures SetPart(p, r, SetPart(p, to, b)) == SetPart(p, r, b)
  {
  }

  lemma SetOthers(p: Part, q: Part, r: Body, to: Body, b: Body)
    requires p != q
    ensures SetPart(p, r, SetPart(q, to, b)) == SetPart(p, r, to)
  {
  }

  lemma SameAfterSet(p: Part, q: Part, r: Body, to: Body, b: Body)
    ensures Same(p, r, SetPart(q, to, b)) == Same(p, r, if p == q then b else to)
  {
    hide SetPart;
    if p == q {
      SetSameTwice(p, r, to, b);
    } else {
      SetOthers(p, q, r, to, b);
    }
  }

  lemma SameEverywhere(a: Body, b: Body)
    requires forall part :: Same(part, a, b)
    ensures a == b
  {
    assert Same(Ctx, a, b) && Same(Other, a, b) && Same(Txt, a, b) && Same(Dic, a, b);
    assert Same(Rev, a, b) && Same(Res, a, b) && Same(At, a, b) && Same(Flag, a, b);
    assert Same(Until, a, b) && Same(Labs, a, b) && Same(Lim, a, b) && Same(Fnd, a, b) && Same(Dues, a, b);
  }

  lemma {:induction false} SetAllAt(slots: seq<Slot>, to: Body, b: Body, part: Part)
    ensures Same(part, SetAll(slots, to, b), if Holds(slots, part) then b else to)
    decreases |slots|
  {
    if slots != [] {
      var next := SetPart(slots[0].part, to, b);
      SetAllAt(slots[1..], next, b, part);
      HoldsCons(slots, part);
      SameAfterSet(part, slots[0].part, SetAll(slots, to, b), to, b);
    }
  }

  lemma HoldsCons(slots: seq<Slot>, part: Part)
    requires slots != []
    ensures Holds(slots, part) <==> slots[0].part == part || Holds(slots[1..], part)
  {
    if Holds(slots[1..], part) {
      var i :| 0 <= i < |slots[1..]| && slots[1..][i].part == part;
      assert slots[i + 1].part == part;
    }
    if Holds(slots, part) && slots[0].part != part {
      var i :| 0 <= i < |slots| && slots[i].part == part;
      assert slots[1..][i - 1].part == part;
    }
  }

  lemma ZeroArrives(part: Part, r: Body, b: Body, table: seq<nat>)
    requires Same(part, b, ZERO_BODY) && Same(part, r, ZERO_BODY)
    ensures Same(part, r, Arrived(b, table))
  {
  }

  lemma KindArrives(kind: Kind, b: Body, table: seq<nat>)
    requires OfKind(kind, b)
    ensures SetAll(Layout(kind), ZERO_BODY, Arrived(b, table)) == Arrived(b, table)
  {
    var slots, arrived := Layout(kind), Arrived(b, table);
    var r := SetAll(slots, ZERO_BODY, arrived);
    assert SetAll(slots, ZERO_BODY, b) == b;
    hide Layout, SetAll, Arrived, Same;
    forall part ensures Same(part, r, arrived) {
      SetAllAt(slots, ZERO_BODY, b, part);
      SetAllAt(slots, ZERO_BODY, arrived, part);
      if !Holds(slots, part) {
        ZeroArrives(part, r, b, table);
      }
    }
    SameEverywhere(r, arrived);
  }

  lemma ZeroIsPlain(part: Part, b: Body)
    requires Same(part, b, ZERO_BODY)
    ensures PlainPart(part, b)
  {
  }

  lemma KindPlain(kind: Kind, b: Body)
    requires OfKind(kind, b)
    ensures PlainSlots(Layout(kind), b) <==> PlainBody(b)
  {
    var slots := Layout(kind);
    assert SetAll(slots, ZERO_BODY, b) == b;
    hide Layout, SetAll, PlainPart, Same;
    if PlainSlots(slots, b) {
      forall part: Part ensures PlainPart(part, b) {
        SetAllAt(slots, ZERO_BODY, b, part);
        if !Holds(slots, part) {
          ZeroIsPlain(part, b);
        }
      }
    }
  }

  /** One command body, sent and read. */
  lemma BodyReads(kind: Kind, b: Body, table: seq<nat>, walk: Walk, path: seq<nat>)
    requires OfKind(kind, b) && GoBody(b) && IsWalk(walk)
    requires |table| < TWO63 && RefIn(b.ctx, table) && RefIn(b.other, table)
    ensures Decode(BodyStep(Layout(kind), |table|), Enc(SlotsFields(Layout(kind), b, table, walk, path)), ZERO_BODY) ==
            if PlainBody(b) then Ok(Arrived(b, table)) else Err
  {
    var slots := Layout(kind);
    LayoutsAreDistinct(kind);
    KindArrives(kind, b, table);
    KindPlain(kind, b);
    hide Layout, OfKind, IsWalk, BodyStep, GoBody, Arrived, PlainBody, SlotsFields, SetAll, PlainSlots;
    DecodeIsFold(BodyStep(slots, |table|), SlotsFields(slots, b, table, walk, path), ZERO_BODY);
    assert slots[0..] == slots;
    SlotsRead(slots, 0, b, table, walk, path, ZERO_BODY);
  }

  // ------------------------------------------------------------- command trees

  /** What Go's types and constructors give of any command. */
  predicate GoCommand(c: Command)
    decreases Size(c)
  {
    match c
    case Nil => true
    case Noop => true
    case Cmd(kind, b) => OfKind(kind, b) && GoBody(b)
    case Commit(cs) => GoCommands(cs)
  }

  predicate GoCommands(cs: seq<Command>)
    decreases SizeAll(cs)
  {
    cs == [] || (GoCommand(cs[0]) && GoCommands(cs[1..]))
  }

  /** marshalCommand. */
  function CmdFields(c: Command, table: seq<nat>, walk: Walk, path: seq<nat>): seq<Field>
    requires GoCommand(c) && |table| < TWO63
    decreases Size(c)
  {
    match c
    case Nil => []
    case Noop => [Len(10, "")]
    case Cmd(kind, b) => [Len(Number(kind), Enc(SlotsFields(Layout(kind), b, table, walk, path)))]
    case Commit(cs) => [Len(9, Enc(SubFields(cs, table, walk, path)))]
  }

  function SubFields(cs: seq<Command>, table: seq<nat>, walk: Walk, path: seq<nat>): seq<Field>
    requires GoCommands(cs) && |table| < TWO63
    decreases SizeAll(cs)
  {
    if cs == [] then []
    else [Len(1, Enc(CmdFields(cs[0], table, walk, path + [|cs|])))] + SubFields(cs[1..], table, walk, path)
  }

  /** unmarshalCommand: the first field that is a command decides; none is nil. */
  function ReadCommand(src: Text, n: nat): Result<Command>
    decreases |src|
  {
    if src == "" then Ok(Nil)
    else
      var next := NextField(src);
      if next.None? then Err
      else
        var f := next.value.0;
        if f.num == 9 then
          if f.Len? then
            var cs := ReadSubs(f.data, n);
            if cs.Err? then Err else Ok(Commit(cs.value))
          else Err
        else if f.num == 10 then Ok(Noop)
        else if KindOf(f.num).Some? then
          if f.Len? then
            var b := Decode(BodyStep(Layout(KindOf(f.num).value), n), f.data, ZERO_BODY);
            if b.Err? then Err else Ok(Cmd(KindOf(f.num).value, b.value))
          else Err
        else ReadCommand(next.value.1, n)
  }

  /** unmarshalCommitCommand's list of commands. */
  function ReadSubs(src: Text, n: nat): Result<seq<Command>>
    decreases |src|
  {
    if src == "" then Ok([])
    else
      var next := NextField(src);
      if next.None? then Err
      else
        var rest := ReadSubs(next.value.1, n);
        var f := next.value.0;
        if f.num == 1 then
          if f.Len? then
            var c := ReadCommand(f.data, n);
            if c.Err? || rest.Err? then Err else Ok([c.value] + rest.value)
          else Err
        else rest
  }

  predicate PlainCommand(c: Command)
    decreases Size(c)
  {
    match c
    case Nil => true
    case Noop => true
    case Cmd(_, b) => PlainBody(b)
    case Commit(cs) => PlainCommands(cs)
  }

  predicate PlainCommands(cs: seq<Command>)
    decreases SizeAll(cs)
  {
    cs == [] || (PlainCommand(cs[0]) && PlainCommands(cs[1..]))
  }

  /** The tree that arrives: the same commands over renumbered contexts. */
  function ArrivedCommand(c: Command, table: seq<nat>): Command
    decreases Size(c)
  {
    match c
    case Nil => Nil
    case Noop => Noop
    case Cmd(kind, b) => Cmd(kind, Arrived(b, table))
    case Commit(cs) => Commit(ArrivedCommands(cs, table))
  }

  function ArrivedCommands(cs: seq<Command>, table: seq<nat>): seq<Command>
    decreases SizeAll(cs)
  {
    if cs == [] then [] else [ArrivedCommand(cs[0], table)] + ArrivedCommands(cs[1..], table)
  }

  lemma OneField(f: Field)
    ensures Enc([f]) != "" && NextField(Enc([f])) == Some((f, ""))
  {
    FieldRoundTrip(f, "");
    assert [f][1..] == [];
    assert EncField(f) + "" == Enc([f]);
  }

  lemma KindOfNumber(kind: Kind)
    ensures KindOf(Number(kind)) == Some(kind) && Number(kind) != 9 && Number(kind) != 10
  {
  }

  lemma {:induction false} CommandReads(c: Command, table: seq<nat>, walk: Walk, path: seq<nat>)
    requires GoCommand(c) && |table| < TWO63 && Covered(c, table) && IsWalk(walk)
    ensures ReadCommand(Enc(CmdFields(c, table, walk, path)), |table|) ==
            if PlainCommand(c) then Ok(ArrivedCommand(c, table)) else Err
    decreases Size(c)
  {
    hide IsWalk, OfKind, GoBody, SlotsFields, Arrived, PlainBody, BodyStep, Layout;
    match c {
      case Nil =>
      case Noop => OneField(Len(10, ""));
      case Cmd(kind, b) =>
        KindOfNumber(kind);
        OneField(Len(Number(kind), Enc(SlotsFields(Layout(kind), b, table, walk, path))));
        hide Number, KindOf, Enc, NextField;
        BodyReads(kind, b, table, walk, path);
      case Commit(cs) =>
        OneField(Len(9, Enc(SubFields(cs, table, walk, path))));
        hide Enc, NextField;
        SubsRead(cs, table, walk, path);
    }
  }

  lemma {:induction false} SubsRead(cs: seq<Command>, table: seq<nat>, walk: Walk, path: seq<nat>)
    requires GoCommands(cs) && |table| < TWO63 && CoveredAll(cs, table) && IsWalk(walk)
    ensures ReadSubs(Enc(SubFields(cs, table, walk, path)), |table|) ==
            if PlainCommands(cs) then Ok(ArrivedCommands(cs, table)) else Err
    decreases SizeAll(cs)
  {
    hide IsWalk, ReadCommand, CmdFields, ArrivedCommand, PlainCommand;
    if cs != [] {
      var f, rest := Len(1, Enc(CmdFields(cs[0], table, walk, path + [|cs|]))), SubFields(cs[1..], table, walk, path);
      CommandReads(cs[0], table, walk, path + [|cs|]);
      SubsRead(cs[1..], table, walk, path);
      FieldRoundTrip(f, Enc(rest));
      assert ([f] + rest)[1..] == rest;
      assert Enc([f] + rest) == EncField(f) + Enc(rest);
      hide NextField, EncField, Enc;
    }
  }

  // ------------------------------------------------------------- the whole message

  // The contexts at the addresses of a table.
  type Heap = map<nat, StateCtx>

  predicate GoHeap(table: seq<nat>, heap: Heap) {
    forall i | 0 <= i < |table| :: table[i] in heap && GoCtx(heap[table[i]])
  }

  function CtxsFields(table: seq<nat>, heap: Heap, walk: Walk, path: seq<nat>): seq<Field>
    requires GoHeap(table, heap) && IsWalk(walk)
  {
    if table == [] then []
    else [Len(1, Enc(CtxFields(heap[table[0]], walk, path + [|table|])))] + CtxsFields(table[1..], heap, walk, path)
  }

  /** MarshalCommand. */
  function Marshal(c: Command, heap: Heap, walk: Walk): Text
    requires GoCommand(c) && GoHeap(Table(c), heap) && |Table(c)| < TWO63 && IsWalk(walk)
  {
    Enc(CtxsFields(Table(c), heap, walk, [1]) + CmdFields(c, Table(c), walk, [2]))
  }

  function CtxListStep(ctxs: seq<StateCtx>, f: Field): Result<seq<StateCtx>> {
    if f.num != 1 then Ok(ctxs)
    else if !f.Len? then Err
    else
      var c := Decode(CtxStep, f.data, ZERO_CTX);
      if c.Err? then Err else Ok(ctxs + [c.value])
  }

  /** UnmarshalCommand: a first pass reads the contexts, new ones at addresses 0,
      1, ..., a second the command. */
  function Unmarshal(src: Text): Result<(Command, seq<StateCtx>)> {
    var ctxs := Decode(CtxListStep, src, []);
    if ctxs.Err? then Err
    else
      var c := ReadCommand(src, |ctxs.value|);
      if c.Err? then Err else Ok((c.value, ctxs.value))
  }

  predicate PlainHeap(table: seq<nat>, heap: Heap)
    requires GoHeap(table, heap)
  {
    forall i | 0 <= i < |table| :: PlainCtx(heap[table[i]])
  }

  function Contents(table: seq<nat>, heap: Heap): seq<StateCtx>
    requires GoHeap(table, heap)
  {
    seq(|table|, i requires 0 <= i < |table| => heap[table[i]])
  }

  lemma OneCtxReads(c: StateCtx, walk: Walk, path: seq<nat>, ctxs: seq<StateCtx>)
    requires GoCtx(c) && IsWalk(walk)
    ensures CtxListStep(ctxs, Len(1, Enc(CtxFields(c, walk, path)))) == if PlainCtx(c) then Ok(ctxs + [c]) else Err
  {
    CtxRoundTrip(c, walk, path);
  }

  lemma {:induction false} CtxsRead(table: seq<nat>, heap: Heap, walk: Walk, path: seq<nat>, ctxs: seq<StateCtx>)
    requires GoHeap(table, heap) && IsWalk(walk)
    ensures Fold(CtxListStep, CtxsFields(table, heap, walk, path), ctxs) ==
            if PlainHeap(table, heap) then Ok(ctxs + Contents(table, heap)) else Err
    decreases |table|
  {
    hide IsWalk, CtxListStep, GoCtx, PlainCtx, CtxFields, Enc;
    if table == [] {
      assert ctxs + Contents(table, heap) == ctxs;
    } else {
      var c := heap[table[0]];
      OneCtxReads(c, walk, path + [|table|], ctxs);
      CtxsRead(table[1..], heap, walk, path, ctxs + [c]);
      assert PlainHeap(table, heap) <==> PlainCtx(c) && PlainHeap(table[1..], heap);
      assert (ctxs + [c]) + Contents(table[1..], heap) == ctxs + Contents(table, heap);
    }
  }

  // The command field is none of the first pass's business, nor the contexts of the second's.
  lemma CommandIsNoCtx(c: Command, table: seq<nat>, walk: Walk, path: seq<nat>, ctxs: seq<StateCtx>)
    requires GoCommand(c) && |table| < TWO63
    ensures Fold(CtxListStep, CmdFields(c, table, walk, path), ctxs) == Ok(ctxs)
  {
    var fs := CmdFields(c, table, walk, path);
    if fs != [] {
      assert fs == [fs[0]] && fs[0].num != 1;
      FoldOne(CtxListStep, fs[0], ctxs);
    }
  }

  lemma {:induction false} CtxsAreSkipped(table: seq<nat>, heap: Heap, walk: Walk, path: seq<nat>, fs: seq<Field>, n: nat)
    requires GoHeap(table, heap) && IsWalk(walk)
    ensures ReadCommand(Enc(CtxsFields(table, heap, walk, path) + fs), n) == ReadCommand(Enc(fs), n)
    decreases |table|
  {
    hide IsWalk, GoCtx, CtxFields;
    if table == [] {
      assert CtxsFields(table, heap, walk, path) + fs == fs;
    } else {
      var f, rest := Len(1, Enc(CtxFields(heap[table[0]], walk, path + [|table|]))), CtxsFields(table[1..], heap, walk, path) + fs;
      CtxsAreSkipped(table[1..], heap, walk, path, fs, n);
      hide ReadCommand, Enc;
      SkipsOne(f, rest, n);
      Reassociate([f], CtxsFields(table[1..], heap, walk, path), fs);
    }
  }

  lemma Reassociate(a: seq<Field>, b: seq<Field>, c: seq<Field>)
    ensures (a + b) + c == a + (b + c)
  {
  }

  lemma SkipsOne(f: Field, rest: seq<Field>, n: nat)
    requires f.num == 1
    ensures ReadCommand(Enc([f] + rest), n) == ReadCommand(Enc(rest), n)
  {
    FieldRoundTrip(f, Enc(rest));
    assert ([f] + rest)[1..] == rest;
    assert Enc([f] + rest) == EncField(f) + Enc(rest);
    hide Enc, EncField, NextField;
  }

  /** Unmarshal after Marshal: the command tree and its contexts come back, over
      new addresses, exactly when no map in them has an empty key. */
  lemma CommandRoundTrip(c: Command, heap: Heap, walk: Walk)
    requires GoCommand(c) && GoHeap(Table(c), heap) && |Table(c)| < TWO63 && IsWalk(walk)
    ensures Unmarshal(Marshal(c, heap, walk)) ==
            if PlainCommand(c) && PlainHeap(Table(c), heap) then Ok((ArrivedCommand(c, Table(c)), Contents(Table(c), heap)))
            else Err
  {
    var table := Table(c);
    var a, b := CtxsFields(table, heap, walk, [1]), CmdFields(c, table, walk, [2]);
    hide IsWalk, GoCommand, GoHeap, PlainCommand, PlainHeap, Table, CtxsFields, CmdFields, CtxListStep, ReadCommand, ArrivedCommand;
    DecodeIsFold(CtxListStep, a + b, []);
    FoldConcat(CtxListStep, a, b, []);
    CtxsRead(table, heap, walk, [1], []);
    assert [] + Contents(table, heap) == Contents(table, heap);
    CommandIsNoCtx(c, table, walk, [2], Contents(table, heap));
    CtxsAreSkipped(table, heap, walk, [1], b, |table|);
    TableCovers(c);
    CommandReads(c, table, walk, [2]);
  }

  // ------------------------------------------------------------- sharing

  /** Every pointer field of a command tree, in order. */
  function Pointers(c: Command): seq<Ref>
    decreases Size(c)
  {
    match c
    case Nil => []
    case Noop => []
    case Cmd(_, b) => [b.ctx, b.other]
    case Commit(cs) => PointersOf(cs)
  }

  function PointersOf(cs: seq<Command>): seq<Ref>
    decreases SizeAll(cs)
  {
    if cs == [] then [] else Pointers(cs[0]) + PointersOf(cs[1..])
  }

  /** The table holds the contexts the command points to, and no others. */
  lemma {:induction false} TableExactly(c: Command, a: nat)
    ensures a in Table(c) <==> Some(a) in Pointers(c)
    decreases Size(c)
  {
    match c {
      case Cmd(_, b) =>
        assert Pointers(c)[0] == b.ctx && Pointers(c)[1] == b.other;
      case Commit(cs) => TablesExactly(cs, a);
      case _ =>
    }
  }

  lemma {:induction false} TablesExactly(cs: seq<Command>, a: nat)
    ensures a in Tables(cs) <==> Some(a) in PointersOf(cs)
    decreases SizeAll(cs)
  {
    if cs != [] {
      TableExactly(cs[0], a);
      TablesExactly(cs[1..], a);
    }
  }

  // Pointer i of the second list is pointer i of the first, as an index into the table.
  ghost predicate Renumbered(ps: seq<Ref>, qs: seq<Ref>, table: seq<nat>) {
    |ps| == |qs| && forall i | 0 <= i < |ps| :: RefIn(ps[i], table) && qs[i] == Renumber(ps[i], table)
  }

  lemma {:induction false} PointersArrive(c: Command, table: seq<nat>)
    requires Covered(c, table)
    ensures Renumbered(Pointers(c), Pointers(ArrivedCommand(c, table)), table)
    decreases Size(c)
  {
    if c.Commit? {
      PointersOfArrive(c.commands, table);
    }
  }

  lemma {:induction false} PointersOfArrive(cs: seq<Command>, table: seq<nat>)
    requires CoveredAll(cs, table)
    ensures Renumbered(PointersOf(cs), PointersOf(ArrivedCommands(cs, table)), table)
    decreases SizeAll(cs)
  {
    if cs != [] {
      PointersArrive(cs[0], table);
      PointersOfArrive(cs[1..], table);
      var arrived := ArrivedCommands(cs, table);
      assert arrived[0] == ArrivedCommand(cs[0], table) && arrived[1..] == ArrivedCommands(cs[1..], table);
    }
  }

  /** Sharing, over a whole command tree: two of its pointers are equal after the
      trip exactly when they were before, nil stays nil, and every pointer leads to
      a context with the contents it led to. */
  lemma SharingIsKept(c: Command, heap: Heap)
    requires GoHeap(Table(c), heap)
    ensures var ps, qs := Pointers(c), Pointers(ArrivedCommand(c, Table(c)));
            && |ps| == |qs|
            && (forall i, j | 0 <= i < |ps| && 0 <= j < |ps| :: qs[i] == qs[j] <==> ps[i] == ps[j])
            && forall i | 0 <= i < |ps| ::
                 qs[i].Some? == ps[i].Some?
                 && (ps[i].Some? ==>
                       qs[i].value < |Table(c)| && ps[i].value in heap
                       && Contents(Table(c), heap)[qs[i].value] == heap[ps[i].value])
  {
    var table := Table(c);
    TableCovers(c);
    PointersArrive(c, table);
    hide Table, Pointers, ArrivedCommand, Covered;
    var ps, qs := Pointers(c), Pointers(ArrivedCommand(c, table));
    assert forall i | 0 <= i < |ps| :: RefIn(ps[i], table) && qs[i] == Renumber(ps[i], table);
  }
}
