/** The loops of protobuf.go and the Do methods of cmd.go's Stack and Unstack,
    proved against the functions the codec's laws are about. */
module CodecMethods {
  import opened States
  import opened Wire
  import opened Codec
  import opened CtxCodec
  import opened Commands
  import opened Stacks
  import Base64

  method MarshalStringMap(m: Dict, num: nat, order: seq<Text>, mm0: seq<Field>) returns (mm: seq<Field>)
    ensures mm == mm0 + MapFields(m, num, order)
  {
    mm := mm0;
    for i := 0 to |order|
      invariant mm + MapFields(m, num, order[i..]) == mm0 + MapFields(m, num, order)
    {
      var k, v := order[i], Lookup(m, order[i]);
      var item: seq<Field> := [Len(1, k)];
      if v != "" {
        item := item + [Len(2, v)];
      }
      assert item == ItemFields(k, v);
      OneMore(m, num, order, i, mm);
      mm := mm + [Len(num, Enc(item))];
    }
  }

  lemma OneMore(m: Dict, num: nat, order: seq<Text>, i: nat, mm: seq<Field>)
    requires i < |order|
    ensures mm + [Len(num, Enc(ItemFields(order[i], Lookup(m, order[i]))))] + MapFields(m, num, order[i + 1..]) ==
            mm + MapFields(m, num, order[i..])
  {
    var x, rest := Len(num, Enc(ItemFields(order[i], Lookup(m, order[i])))), MapFields(m, num, order[i + 1..]);
    assert order[i..][1..] == order[i + 1..];
    Regroup(mm, [x], rest);
  }

  lemma Regroup(a: seq<Field>, b: seq<Field>, c: seq<Field>)
    ensures (a + b) + c == a + (b + c)
  {
  }

  method UnmarshalStringMapItem(src0: Text, m: Dict) returns (r: Result<Dict>)
    ensures r == AddItem(src0, m)
  {
    var src, key, value := src0, "", "";
    while src != ""
      invariant Wire.Decode(ItemStep, src, Item(key, value)) == Wire.Decode(ItemStep, src0, Item("", ""))
      decreases |src|
    {
      var next := NextField(src);
      if next.None? {
        return Err;
      }
      var f := next.value.0;
      src := next.value.1;
      match f.num {
        case 1 =>
          if !f.Len? || f.data == "" {
            return Err;
          }
          key := f.data;
        case 2 =>
          if !f.Len? {
            return Err;
          }
          value := f.data;
        case _ =>
      }
    }
    return Ok(m[key := value]);
  }

  method UnmarshalTransition(src0: Text, to: Transition) returns (r: Result<Transition>)
    ensures r == Wire.Decode(TransitionStep, src0, to)
  {
    var src, ts := src0, to;
    while src != ""
      invariant Wire.Decode(TransitionStep, src, ts) == Wire.Decode(TransitionStep, src0, to)
      decreases |src|
    {
      var next := NextField(src);
      if next.None? {
        return Err;
      }
      var f := next.value.0;
      src := next.value.1;
      match f.num {
        case 2 =>
          if !f.Len? {
            return Err;
          }
          ts := ts.(to := f.data);
        case 3 =>
          if !f.Len? {
            return Err;
          }
          var m := UnmarshalStringMapItem(f.data, ts.annotations);
          if m.Err? {
            return Err;
          }
          ts := ts.(annotations := m.value);
        case _ =>
      }
    }
    return Ok(ts);
  }

  method UnmarshalState(src0: Text, to: State) returns (r: Result<State>)
    ensures r == Wire.Decode(StateStep, src0, to)
  {
    var src, s := src0, to;
    while src != ""
      invariant Wire.Decode(StateStep, src, s) == Wire.Decode(StateStep, src0, to)
      decreases |src|
    {
      var next := NextField(src);
      if next.None? {
        return Err;
      }
      src := next.value.1;
      var s' := StateField(next.value.0, s);
      if s'.Err? {
        return Err;
      }
      s := s'.value;
    }
    return Ok(s);
  }

  // The switch inside UnmarshalState.
  method StateField(f: Field, s: State) returns (r: Result<State>)
    ensures r == StateStep(s, f)
  {
    match f.num {
      case 1 =>
        return if f.Len? then Ok(s.(id := f.data)) else Err;
      case 2 =>
        var rev := ReadInt(f);
        return if rev.Some? then Ok(s.(rev := rev.value)) else Err;
      case 3 =>
        if !f.Len? {
          return Err;
        }
        var m := UnmarshalStringMapItem(f.data, s.annotations);
        return if m.Err? then Err else Ok(s.(annotations := m.value));
      case 4 =>
        if !f.Len? {
          return Err;
        }
        var m := UnmarshalStringMapItem(f.data, s.labels);
        return if m.Err? then Err else Ok(s.(labels := m.value));
      case 5 =>
        var at := ReadInt(f);
        return if at.Some? then Ok(s.(committedAt := Some(at.value))) else Err;
      case 6 =>
        if !f.Len? {
          return Err;
        }
        var ts := UnmarshalTransition(f.data, s.transition);
        return if ts.Err? then Err else Ok(s.(transition := ts.value));
      case _ =>
        return Ok(s);
    }
  }

  method UnmarshalData(src0: Text) returns (r: Result<Data>)
    ensures r == ReadData(src0)
  {
    var src, d, blob := src0, ZERO_DATA, "";
    while src != ""
      invariant Wire.Decode(DataStep, src, DataAcc(d, blob)) == Wire.Decode(DataStep, src0, DataAcc(ZERO_DATA, ""))
      decreases |src|
    {
      var next := NextField(src);
      if next.None? {
        return Err;
      }
      var f := next.value.0;
      src := next.value.1;
      match f.num {
        case 2 =>
          var v := ReadInt(f);
          if v.None? {
            return Err;
          }
          d := d.(rev := v.value);
        case 4 =>
          if !f.Len? {
            return Err;
          }
          blob := f.data;
        case 5 =>
          if !f.Len? {
            return Err;
          }
          var m := UnmarshalStringMapItem(f.data, d.annotations);
          if m.Err? {
            return Err;
          }
          d := d.(annotations := m.value);
        case _ =>
      }
    }
    if blob == "" {
      return Ok(d);
    }
    if IsBinary(d) {
      var b := Base64.Decode(blob);
      return if b.None? then Err else Ok(d.(blob := b.value));
    }
    return Ok(d.(blob := blob));
  }

  method UnmarshalDataMapItem(src0: Text, datas: map<Text, Data>) returns (r: Result<map<Text, Data>>)
    ensures r == AddData(src0, datas)
  {
    var src, key := src0, "";
    var d: Option<Data> := None;
    while src != ""
      invariant Wire.Decode(DataItemStep, src, DataItem(key, d)) == Wire.Decode(DataItemStep, src0, DataItem("", None))
      decreases |src|
    {
      var next := NextField(src);
      if next.None? {
        return Err;
      }
      var f := next.value.0;
      src := next.value.1;
      match f.num {
        case 1 =>
          if !f.Len? {
            return Err;
          }
          key := f.data;
        case 2 =>
          if !f.Len? {
            return Err;
          }
          var read := UnmarshalData(f.data);
          if read.Err? {
            return Err;
          }
          d := Some(read.value);
        case _ =>
      }
    }
    if key == "" || d.None? {
      return Err;
    }
    return Ok(datas[key := d.value]);
  }

  method UnmarshalStateCtx(src0: Text, to: StateCtx) returns (r: Result<StateCtx>)
    ensures r == Wire.Decode(CtxStep, src0, to)
  {
    var src, c := src0, to;
    while src != ""
      invariant Wire.Decode(CtxStep, src, c) == Wire.Decode(CtxStep, src0, to)
      decreases |src|
    {
      var next := NextField(src);
      if next.None? {
        return Err;
      }
      src := next.value.1;
      var c' := CtxField(next.value.0, c);
      if c'.Err? {
        return Err;
      }
      c := c'.value;
    }
    return Ok(c);
  }

  // The switch inside UnmarshalStateCtx.
  method CtxField(f: Field, c: StateCtx) returns (r: Result<StateCtx>)
    ensures r == CtxStep(c, f)
  {
    if 1 <= f.num <= 4 && !f.Len? {
      return Err;
    }
    match f.num {
      case 1 =>
        var s := UnmarshalState(f.data, c.committed);
        return if s.Err? then Err else Ok(c.(committed := s.value));
      case 2 =>
        var s := UnmarshalState(f.data, c.current);
        return if s.Err? then Err else Ok(c.(current := s.value));
      case 3 =>
        var ts := UnmarshalTransition(f.data, ZERO_TRANSITION);
        return if ts.Err? then Err else Ok(c.(transitions := c.transitions + [ts.value]));
      case 4 =>
        var datas := UnmarshalDataMapItem(f.data, c.datas);
        return if datas.Err? then Err else Ok(c.(datas := datas.value));
      case _ =>
        return Ok(c);
    }
  }

  /** stateCtxs.idx. */
  method FindIdx(table: seq<nat>, a: nat) returns (idx: nat)
    ensures idx == Idx(table, a)
  {
    idx := 0;
    while idx < |table| && table[idx] != a
      invariant idx <= |table| && forall k | 0 <= k < idx :: table[k] != a
    {
      idx := idx + 1;
    }
    if idx == |table| {
      assert a !in table;
    } else {
      assert a in table;
    }
  }

  // ------------------------------------------------------------- commands on contexts

  /** A *StateCtx. */
  class Context {
    var value: StateCtx

    constructor ()
      ensures value == ZERO_CTX
    {
      value := ZERO_CTX;
    }
  }

  /** StackCommand.Do; carrier and context may be the same object. */
  method DoStack(carrier: Context, stacked: Context, name: Text, walk: Walk) returns (ok: bool)
    requires IsWalk(walk) && Go(stacked.value)
    modifies carrier
    ensures var r := Stacked(old(carrier.value), old(stacked.value), name, walk);
            if r.Ok? then ok && carrier.value == r.value else !ok && carrier.value == old(carrier.value)
  {
    if name == "" {
      return false;
    }
    if Lookup(carrier.value.current.annotations, name) != "" {
      return false;
    }
    var b64 := Packed(stacked.value, walk);
    carrier.value := Annotate(carrier.value, name, b64);
    return true;
  }

  // The carrier and the target after a successful Unstack; they may be one context.
  ghost predicate UnstackedInto(carrier: Context, unstacked: Context, name: Text, r: (StateCtx, StateCtx))
    reads carrier, unstacked
  {
    if carrier == unstacked then carrier.value == Annotate(r.1, name, "")
    else carrier.value == r.0 && unstacked.value == r.1
  }

  /** UnstackCommand.Do; carrier and target may be the same object.  When there is
      no context to read, both are as they were; when reading fails part-way, the code
      may leave the target half read, which the contract does not describe. */
  method DoUnstack(carrier: Context, unstacked: Context, name: Text) returns (ok: bool)
    modifies carrier, unstacked
    ensures ok == Unstacked(old(carrier.value), name, old(unstacked.value)).Ok?
    ensures ok ==> UnstackedInto(carrier, unstacked, name, Unstacked(old(carrier.value), name, old(unstacked.value)).value)
    ensures !ok && carrier != unstacked ==> carrier.value == old(carrier.value)
    ensures var b64 := old(Lookup(carrier.value.current.annotations, name));
            b64 == "" || Base64.Decode(b64).None? ==> !ok && carrier.value == old(carrier.value) && unstacked.value == old(unstacked.value)
  {
    var b64 := Lookup(carrier.value.current.annotations, name);
    if b64 == "" {
      return false;
    }
    var b := Base64.Decode(b64);
    if b.None? {
      return false;
    }
    var c := UnmarshalStateCtx(b.value, unstacked.value);
    if c.Err? {
      return false;
    }
    unstacked.value := c.value;
    carrier.value := Annotate(carrier.value, name, "");
    return true;
  }
}
