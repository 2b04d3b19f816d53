/** The protobuf codec of protobuf.go for states, contexts and data.

    A marshaler appends fields to a message buffer, so it is given here as the
    list of its fields; an unmarshaler is Wire.Decode with the step it makes on
    one field. */
module Codec {
  import opened States
  import opened Wire
  import Base64

  // ------------------------------------------------------------- map order

  /** Go's order of iteration over a map: any, and possibly another one at every
      place of the message, which `path` names. */
  type Walk = (seq<nat>, set<Text>) -> seq<Text>

  ghost predicate Enumerates(order: seq<Text>, keys: set<Text>) {
    forall k :: k in order <==> k in keys
  }

  ghost predicate IsWalk(walk: Walk) {
    forall path, keys :: Enumerates(walk(path, keys), keys)
  }

  ghost function Listed(keys: set<Text>): (order: seq<Text>)
    ensures Enumerates(order, keys)
  {
    if keys == {} then []
    else
      var k :| k in keys;
      [k] + Listed(keys - {k})
  }

  /** There are such orders: what is proved of every walk is not about none. */
  lemma WalksExist() returns (walk: Walk)
    ensures IsWalk(walk)
  {
    walk := (path: seq<nat>, keys: set<Text>) => Listed(keys);
  }

  // ------------------------------------------------------------- string maps

  function ItemFields(key: Text, value: Text): seq<Field> {
    [Len(1, key)] + if value != "" then [Len(2, value)] else []
  }

  /** marshalStringMap: one message per pair. */
  function MapFields(m: Dict, num: nat, order: seq<Text>): seq<Field> {
    if order == [] then []
    else [Len(num, Enc(ItemFields(order[0], Lookup(m, order[0]))))] + MapFields(m, num, order[1..])
  }

  datatype Item = Item(key: Text, value: Text)

  function ItemStep(i: Item, f: Field): Result<Item> {
    if f.num == 1 then if f.Len? && f.data != "" then Ok(i.(key := f.data)) else Err
    else if f.num == 2 then if f.Len? then Ok(i.(value := f.data)) else Err
    else Ok(i)
  }

  /** unmarshalStringMapItem: refuses an empty key. */
  function AddItem(src: Text, m: Dict): Result<Dict> {
    var i := Decode(ItemStep, src, Item("", ""));
    if i.Err? then Err else Ok(m[i.value.key := i.value.value])
  }

  lemma ItemReads(key: Text, value: Text, m: Dict)
    ensures AddItem(Enc(ItemFields(key, value)), m) == if key == "" then Err else Ok(m[key := value])
  {
    var start := Item("", "");
    DecodeIsFold(ItemStep, ItemFields(key, value), start);
    FoldConcat(ItemStep, [Len(1, key)], if value != "" then [Len(2, value)] else [], start);
    FoldOne(ItemStep, Len(1, key), start);
    if key != "" && value != "" {
      FoldOne(ItemStep, Len(2, value), Item(key, ""));
    }
  }

  function AddAll(to: Dict, m: Dict, order: seq<Text>): Dict
    decreases |order|
  {
    if order == [] then to else AddAll(to[order[0] := Lookup(m, order[0])], m, order[1..])
  }

  lemma {:induction false} AddAllAt(to: Dict, m: Dict, order: seq<Text>, k: Text)
    ensures k in AddAll(to, m, order) <==> k in to || k in order
    ensures k in order ==> AddAll(to, m, order)[k] == Lookup(m, k)
    ensures k in to && k !in order ==> AddAll(to, m, order)[k] == to[k]
    decreases |order|
  {
    if order != [] {
      AddAllAt(to[order[0] := Lookup(m, order[0])], m, order[1..], k);
    }
  }

  lemma AddAllIsMerge(to: Dict, m: Dict, order: seq<Text>)
    requires Enumerates(order, m.Keys)
    ensures AddAll(to, m, order) == to + m
  {
    forall k ensures k in AddAll(to, m, order) <==> k in to + m {
      AddAllAt(to, m, order, k);
    }
    forall k | k in to + m ensures AddAll(to, m, order)[k] == (to + m)[k] {
      AddAllAt(to, m, order, k);
    }
  }

  /** The step adds a pair to one map of the struct for the fields with this number. */
  ghost predicate AddsTo<S(!new)>(step: (S, Field) -> Result<S>, num: nat, get: S -> Dict, put: (S, Dict) -> S) {
    && (forall s, data :: step(s, Len(num, data)) == (var m := AddItem(data, get(s)); if m.Err? then Err else Ok(put(s, m.value))))
    && (forall s, m :: get(put(s, m)) == m)
    && (forall s, m, m' :: put(put(s, m), m') == put(s, m'))
    && (forall s :: put(s, get(s)) == s)
  }

  /** Reading a marshalled map merges it into the struct's, unless a key is empty. */
  lemma {:induction false} MapReads<S(!new)>(step: (S, Field) -> Result<S>, num: nat, get: S -> Dict, put: (S, Dict) -> S, m: Dict, order: seq<Text>, s: S)
    requires AddsTo(step, num, get, put)
    ensures Fold(step, MapFields(m, num, order), s) == if "" in order then Err else Ok(put(s, AddAll(get(s), m, order)))
  {
    if order != [] {
      var k, v := order[0], Lookup(m, order[0]);
      ItemReads(k, v, get(s));
      assert order == [k] + order[1..];
      if k != "" {
        MapReads(step, num, get, put, m, order[1..], put(s, get(s)[k := v]));
      }
    }
  }

  predicate NoEmptyKey(m: Dict) {
    "" !in m
  }

  /** The same for a walk over the whole map. */
  lemma WalkReads<S(!new)>(step: (S, Field) -> Result<S>, num: nat, get: S -> Dict, put: (S, Dict) -> S, m: Dict, order: seq<Text>, s: S)
    requires AddsTo(step, num, get, put) && Enumerates(order, m.Keys)
    ensures Fold(step, MapFields(m, num, order), s) == if NoEmptyKey(m) then Ok(put(s, get(s) + m)) else Err
  {
    MapReads(step, num, get, put, m, order, s);
    AddAllIsMerge(get(s), m, order);
  }

  // Fields that are left out when they hold their zero value.
  function TextField(num: nat, value: Text): seq<Field> {
    if value != "" then [Len(num, value)] else []
  }

  function IntField(num: nat, value: int): seq<Field>
    requires IsInt64(value)
  {
    if value != 0 then [Varint(num, ToUint64(value))] else []
  }

  function TimeField(num: nat, value: Option<int>): seq<Field>
    requires value.Some? ==> IsInt64(value.value)
  {
    if value.Some? then [Varint(num, ToUint64(value.value))] else []
  }

  function Overwrite<T(==)>(value: T, zero: T, to: T): T {
    if value == zero then to else value
  }

  // ------------------------------------------------------------- transitions

  function TransitionFields(ts: Transition, walk: Walk, path: seq<nat>): seq<Field> {
    TextField(2, ts.to) + MapFields(ts.annotations, 3, walk(path + [3], ts.annotations.Keys))
  }

  function TransitionStep(ts: Transition, f: Field): Result<Transition> {
    if f.num == 2 then if f.Len? then Ok(ts.(to := f.data)) else Err
    else if f.num == 3 then
      if f.Len? then
        var m := AddItem(f.data, ts.annotations);
        if m.Err? then Err else Ok(ts.(annotations := m.value))
      else Err
    else Ok(ts)
  }

  // What a transition read into `to` makes of it.
  function OverTransition(ts: Transition, to: Transition): Transition {
    Transition(Overwrite(ts.to, "", to.to), to.annotations + ts.annotations)
  }

  lemma TransitionReads(ts: Transition, walk: Walk, path: seq<nat>, to: Transition)
    requires IsWalk(walk)
    ensures Decode(TransitionStep, Enc(TransitionFields(ts, walk, path)), to) ==
            if NoEmptyKey(ts.annotations) then Ok(OverTransition(ts, to)) else Err
  {
    var order := walk(path + [3], ts.annotations.Keys);
    var a, b := TextField(2, ts.to), MapFields(ts.annotations, 3, order);
    DecodeIsFold(TransitionStep, a + b, to);
    FoldConcat(TransitionStep, a, b, to);
    if ts.to != "" {
      FoldOne(TransitionStep, Len(2, ts.to), to);
    }
    WalkReads(TransitionStep, 3, (s: Transition) => s.annotations, (s: Transition, m: Dict) => s.(annotations := m),
              ts.annotations, order, to.(to := Overwrite(ts.to, "", to.to)));
  }

  // ------------------------------------------------------------- states

  predicate Int64State(s: State) {
    IsInt64(s.rev) && (s.committedAt.Some? ==> IsInt64(s.committedAt.value))
  }

  // The states the codec can carry: no map has an empty key.
  predicate Plain(s: State) {
    NoEmptyKey(s.annotations) && NoEmptyKey(s.labels) && NoEmptyKey(s.transition.annotations)
  }

  function StateHead(s: State): seq<Field>
    requires Int64State(s)
  {
    TextField(1, s.id) + IntField(2, s.rev)
  }

  function StateMaps(s: State, walk: Walk, path: seq<nat>): seq<Field> {
    MapFields(s.annotations, 3, walk(path + [3], s.annotations.Keys)) + MapFields(s.labels, 4, walk(path + [4], s.labels.Keys))
  }

  function StateTail(s: State, walk: Walk, path: seq<nat>): seq<Field>
    requires Int64State(s)
  {
    TimeField(5, s.committedAt) + [Len(6, Enc(TransitionFields(s.transition, walk, path + [6])))]
  }

  /** marshalState. */
  function StateFields(s: State, walk: Walk, path: seq<nat>): seq<Field>
    requires Int64State(s)
  {
    StateHead(s) + (StateMaps(s, walk, path) + StateTail(s, walk, path))
  }

  // fc.Int64: fails on a field of the other kind and beyond 64 bits.
  function ReadInt(f: Field): Option<int> {
    if f.Varint? && f.value < TWO64 then Some(FromUint64(f.value)) else None
  }

  function StateStep(s: State, f: Field): Result<State> {
    match f.num
    case 1 => if f.Len? then Ok(s.(id := f.data)) else Err
    case 2 => if ReadInt(f).Some? then Ok(s.(rev := ReadInt(f).value)) else Err
    case 3 =>
      if f.Len? then
        var m := AddItem(f.data, s.annotations);
        if m.Err? then Err else Ok(s.(annotations := m.value))
      else Err
    case 4 =>
      if f.Len? then
        var m := AddItem(f.data, s.labels);
        if m.Err? then Err else Ok(s.(labels := m.value))
      else Err
    case 5 => if ReadInt(f).Some? then Ok(s.(committedAt := Some(ReadInt(f).value))) else Err
    case 6 =>
      if f.Len? then
        var ts := Decode(TransitionStep, f.data, s.transition);
        if ts.Err? then Err else Ok(s.(transition := ts.value))
      else Err
    case _ => Ok(s)
  }

  /** What a state read into `to` makes of it: zero fields are not on the wire and
      leave `to` alone, maps merge. */
  function OverState(s: State, to: State): State {
    State(Overwrite(s.id, "", to.id), Overwrite(s.rev, 0, to.rev), to.annotations + s.annotations, to.labels + s.labels,
          Overwrite(s.committedAt, None, to.committedAt), OverTransition(s.transition, to.transition))
  }

  lemma IntReads(num: nat, value: int)
    requires IsInt64(value)
    ensures ReadInt(Varint(num, ToUint64(value))) == Some(value)
  {
  }

  lemma StateHeadReads(s: State, to: State)
    requires Int64State(s)
    ensures Fold(StateStep, StateHead(s), to) == Ok(to.(id := Overwrite(s.id, "", to.id), rev := Overwrite(s.rev, 0, to.rev)))
  {
    FoldConcat(StateStep, TextField(1, s.id), IntField(2, s.rev), to);
    FoldOne(StateStep, Len(1, s.id), to);
    FoldOne(StateStep, Varint(2, ToUint64(s.rev)), to.(id := Overwrite(s.id, "", to.id)));
    IntReads(2, s.rev);
  }

  lemma AnnotationsRead(m: Dict, order: seq<Text>, to: State)
    requires Enumerates(order, m.Keys)
    ensures Fold(StateStep, MapFields(m, 3, order), to) ==
            if NoEmptyKey(m) then Ok(to.(annotations := to.annotations + m)) else Err
  {
    WalkReads(StateStep, 3, (x: State) => x.annotations, (x: State, n: Dict) => x.(annotations := n), m, order, to);
  }

  lemma LabelsRead(m: Dict, order: seq<Text>, to: State)
    requires Enumerates(order, m.Keys)
    ensures Fold(StateStep, MapFields(m, 4, order), to) ==
            if NoEmptyKey(m) then Ok(to.(labels := to.labels + m)) else Err
  {
    WalkReads(StateStep, 4, (x: State) => x.labels, (x: State, n: Dict) => x.(labels := n), m, order, to);
  }

  lemma StateMapsReads(s: State, walk: Walk, path: seq<nat>, to: State)
    requires IsWalk(walk)
    ensures Fold(StateStep, StateMaps(s, walk, path), to) ==
            if NoEmptyKey(s.annotations) && NoEmptyKey(s.labels) then
              Ok(to.(annotations := to.annotations + s.annotations, labels := to.labels + s.labels))
            else Err
  {
    hide StateStep, Fold, MapFields, NoEmptyKey, Enumerates;
    var a, l := walk(path + [3], s.annotations.Keys), walk(path + [4], s.labels.Keys);
    FoldConcat(StateStep, MapFields(s.annotations, 3, a), MapFields(s.labels, 4, l), to);
    AnnotationsRead(s.annotations, a, to);
    LabelsRead(s.labels, l, to.(annotations := to.annotations + s.annotations));
  }

  lemma TimeReads(at: Option<int>, to: State)
    requires at.Some? ==> IsInt64(at.value)
    ensures Fold(StateStep, TimeField(5, at), to) == Ok(to.(committedAt := Overwrite(at, None, to.committedAt)))
  {
    if at.Some? {
      IntReads(5, at.value);
      FoldOne(StateStep, Varint(5, ToUint64(at.value)), to);
    }
  }

  lemma InnerTransitionReads(ts: Transition, walk: Walk, path: seq<nat>, to: State)
    requires IsWalk(walk)
    ensures StateStep(to, Len(6, Enc(TransitionFields(ts, walk, path)))) ==
            if NoEmptyKey(ts.annotations) then Ok(to.(transition := OverTransition(ts, to.transition))) else Err
  {
    hide IsWalk, TransitionFields, TransitionStep, Enc, Wire.Decode;
    TransitionReads(ts, walk, path, to.transition);
  }

  lemma StateTailReads(s: State, walk: Walk, path: seq<nat>, to: State)
    requires IsWalk(walk) && Int64State(s)
    ensures Fold(StateStep, StateTail(s, walk, path), to) ==
            if NoEmptyKey(s.transition.annotations) then
              Ok(to.(committedAt := Overwrite(s.committedAt, None, to.committedAt), transition := OverTransition(s.transition, to.transition)))
            else Err
  {
    hide IsWalk, Fold, StateStep, TransitionFields, OverTransition, Enc;
    var ts := Len(6, Enc(TransitionFields(s.transition, walk, path + [6])));
    var mid := to.(committedAt := Overwrite(s.committedAt, None, to.committedAt));
    FoldConcat(StateStep, TimeField(5, s.committedAt), [ts], to);
    TimeReads(s.committedAt, to);
    FoldOne(StateStep, ts, mid);
    InnerTransitionReads(s.transition, walk, path + [6], mid);
  }

  /** Reading a marshalled state, into any target: the state overlays the target
      when no map has an empty key, and reading fails otherwise. */
  lemma StateReads(s: State, walk: Walk, path: seq<nat>, to: State)
    requires IsWalk(walk) && Int64State(s)
    ensures Decode(StateStep, Enc(StateFields(s, walk, path)), to) == if Plain(s) then Ok(OverState(s, to)) else Err
  {
    var head, maps, tail := StateHead(s), StateMaps(s, walk, path), StateTail(s, walk, path);
    hide StateHead, StateMaps, StateTail, StateStep;
    var t1 := to.(id := Overwrite(s.id, "", to.id), rev := Overwrite(s.rev, 0, to.rev));
    DecodeIsFold(StateStep, head + (maps + tail), to);
    FoldConcat(StateStep, head, maps + tail, to);
    StateHeadReads(s, to);
    FoldConcat(StateStep, maps, tail, t1);
    StateMapsReads(s, walk, path, t1);
    StateTailReads(s, walk, path, t1.(annotations := to.annotations + s.annotations, labels := to.labels + s.labels));
  }

  lemma OverZeroState(s: State)
    ensures OverState(s, ZERO_STATE) == s
  {
    assert map[] + s.annotations == s.annotations && map[] + s.labels == s.labels;
    assert map[] + s.transition.annotations == s.transition.annotations;
  }

  /** Round trip: a state comes back unchanged exactly when no map has an empty key. */
  lemma StateRoundTrip(s: State, walk: Walk, path: seq<nat>)
    requires IsWalk(walk) && Int64State(s)
    ensures Decode(StateStep, Enc(StateFields(s, walk, path)), ZERO_STATE) == Ok(s) <==> Plain(s)
    ensures !Plain(s) ==> Decode(StateStep, Enc(StateFields(s, walk, path)), ZERO_STATE) == Err
  {
    StateReads(s, walk, path, ZERO_STATE);
    OverZeroState(s);
  }
}
