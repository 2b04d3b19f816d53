/** The command messages of protobuf.go as their definitions there number their fields. */
module CommandLayout {
  import opened States
  import opened Wire
  import opened Codec
  import opened CtxCodec
  import opened CodecLayout
  import opened Commands
  import opened CommandCodec

  // ------------------------------------------------------------- the definitions

  /** message Command: the field each command travels in. */
  ghost predicate InField(kind: Kind, num: nat) {
    || (kind == Transit && num == 3) || (kind == Park && num == 6) || (kind == Execute && num == 7)
    || (kind == Delay && num == 8) || (kind == Stack && num == 11) || (kind == Unstack && num == 12)
    || (kind == GetStateByID && num == 17) || (kind == GetStateByLabels && num == 18)
    || (kind == GetStates && num == 19) || (kind == GetDelayedStates && num == 20)
    || (kind == StoreData && num == 21) || (kind == GetData && num == 22)
  }

  /** The fields of each command's own message. */
  ghost predicate Defined(kind: Kind, part: Part, num: nat) {
    match part
    case Ctx => num == (if kind == GetStateByID then 3 else if kind == GetStateByLabels then 2 else 1)
                && kind != GetStates && kind != GetDelayedStates
    case Other => num == 2 && (kind == Stack || kind == Unstack)
    case Txt =>
      || (num == 2 && (kind == Transit || kind == StoreData || kind == GetData))
      || (num == 3 && (kind == Stack || kind == Unstack)) || (num == 5 && kind == Delay) || (num == 1 && kind == GetStateByID)
    case Dic =>
      || (num == 3 && (kind == Transit || kind == Park)) || (num == 6 && kind == Delay) || (num == 1 && kind == GetStateByLabels)
    case Rev =>
      || (num == 2 && kind == GetStateByID) || (num == 1 && kind == GetStates) || (num == 3 && kind == GetDelayedStates)
    case Res => num == 2 && kind == Delay
    case At => (num == 3 && kind == Delay) || (num == 2 && kind == GetStates) || (num == 1 && kind == GetDelayedStates)
    case Flag => num == 4 && (kind == Delay || kind == GetStates)
    case Until => num == 2 && kind == GetDelayedStates
    case Labs => num == 3 && kind == GetStates
    case Lim => (num == 5 && kind == GetStates) || (num == 4 && kind == GetDelayedStates)
    case Fnd => num == 6 && kind == GetStates
    case Dues => num == 5 && kind == GetDelayedStates
  }

  lemma {:induction false} LayoutIsDefined(kind: Kind, part: Part, num: nat)
    ensures Slot(part, num) in Layout(kind) <==> Defined(kind, part, num)
    ensures InField(kind, Number(kind))
  {
  }

  // ------------------------------------------------------------- what a part holds

  /** message StateCtxRef: idx = 1, an index into the table of contexts. */
  ghost predicate RefOnWire(fs: seq<Field>, num: nat, r: Ref, table: seq<nat>) {
    match r
    case None => fs == []
    case Some(a) => exists i: nat :: i < |table| && table[i] == a && fs == [Len(num, Enc([Varint(1, i)]))]
  }

  ghost predicate FlagOnWire(fs: seq<Field>, num: nat, flag: bool) {
    fs == if flag then [Varint(num, 1)] else []
  }

  // A label set: labels = 1.
  ghost predicate HoldsLabels(f: Field, num: nat, m: Dict) {
    exists fs :: f == Len(num, Enc(fs)) && MapOnWire(fs, 1, m)
  }

  ghost predicate LabelsOnWire(fs: seq<Field>, num: nat, sets: seq<Dict>) {
    |fs| == |sets| && forall i | 0 <= i < |fs| :: HoldsLabels(fs[i], num, sets[i])
  }

  ghost predicate StatesOnWire(fs: seq<Field>, states: seq<State>) {
    |fs| == |states| && forall i | 0 <= i < |fs| :: HoldsState(fs[i], 1, states[i])
  }

  ghost predicate HoldsDelayed(f: Field, num: nat, ds: DelayedState) {
    exists fs :: f == Len(num, Enc(fs)) && DelayedOnWire(fs, ds)
  }

  ghost predicate DuesOnWire(fs: seq<Field>, states: seq<DelayedState>) {
    |fs| == |states| && forall i | 0 <= i < |fs| :: HoldsDelayed(fs[i], 1, states[i])
  }

  /** A result: its states = 1, more = 2. */
  ghost predicate FoundOnWire(fs: seq<Field>, num: nat, found: Option<Found>) {
    match found
    case None => fs == []
    case Some(r) => exists a, b :: fs == [Len(num, Enc(a + b))] && StatesOnWire(a, r.states) && FlagOnWire(b, 2, r.more)
  }

  ghost predicate DueOnWire(fs: seq<Field>, num: nat, due: Option<Due>) {
    match due
    case None => fs == []
    case Some(r) => exists a, b :: fs == [Len(num, Enc(a + b))] && DuesOnWire(a, r.states) && FlagOnWire(b, 2, r.more)
  }

  ghost predicate ResultOnWire(fs: seq<Field>, num: nat, ds: Option<DelayedState>) {
    match ds
    case None => fs == []
    case Some(d) => |fs| == 1 && HoldsDelayed(fs[0], num, d)
  }

  /** The fields a part of a command is sent as. */
  ghost predicate PartOnWire(fs: seq<Field>, part: Part, num: nat, b: Body, table: seq<nat>) {
    match part
    case Ctx => RefOnWire(fs, num, b.ctx, table)
    case Other => RefOnWire(fs, num, b.other, table)
    case Txt => TextOnWire(fs, num, b.text)
    case Dic => MapOnWire(fs, num, b.dict)
    case Rev => IntOnWire(fs, num, b.rev)
    case Res => ResultOnWire(fs, num, b.result)
    case At => TimeOnWire(fs, num, b.at)
    case Flag => FlagOnWire(fs, num, b.flag)
    case Until => TimeOnWire(fs, num, b.until)
    case Labs => LabelsOnWire(fs, num, b.labels)
    case Lim => IntOnWire(fs, num, b.limit)
    case Fnd => FoundOnWire(fs, num, b.found)
    case Dues => DueOnWire(fs, num, b.due)
  }

  // ------------------------------------------------------------- the marshalers' parts

  lemma RefIsOnWire(num: nat, r: Ref, table: seq<nat>)
    requires |table| < TWO63 && RefIn(r, table)
    ensures RefOnWire(RefFields(num, r, table), num, r, table)
  {
  }

  lemma MapIsHeld(m: Dict, num: nat, order: seq<Text>)
    requires Enumerates(order, m.Keys)
    ensures HoldsLabels(Len(num, Enc(MapFields(m, 1, order))), num, m)
  {
    hide MapOnWire, MapFields, Enc, AllNumbered;
    MapIsOnWire(m, 1, order);
  }

  lemma LabelsCons(f: Field, fs: seq<Field>, num: nat, sets: seq<Dict>)
    requires sets != [] && HoldsLabels(f, num, sets[0]) && LabelsOnWire(fs, num, sets[1..])
    ensures LabelsOnWire([f] + fs, num, sets)
  {
    hide HoldsLabels;
    forall i | 0 <= i < |sets| ensures HoldsLabels(([f] + fs)[i], num, sets[i]) {
      assert i > 0 ==> ([f] + fs)[i] == fs[i - 1] && sets[i] == sets[1..][i - 1];
    }
  }

  lemma {:induction false} LabelsAreOnWire(sets: seq<Dict>, num: nat, walk: Walk, path: seq<nat>)
    requires IsWalk(walk)
    ensures LabelsOnWire(LabelsFields(sets, num, walk, path), num, sets)
    decreases |sets|
  {
    if sets != [] {
      var order := walk(path + [|sets|], sets[0].Keys);
      WalkEnumerates(walk, path + [|sets|], sets[0].Keys);
      hide IsWalk, MapFields, HoldsLabels, LabelsOnWire, Enc, Enumerates;
      MapIsHeld(sets[0], num, order);
      LabelsAreOnWire(sets[1..], num, walk, path);
      LabelsCons(Len(num, Enc(MapFields(sets[0], 1, order))), LabelsFields(sets[1..], num, walk, path), num, sets);
    }
  }

  lemma StatesCons(f: Field, fs: seq<Field>, states: seq<State>)
    requires states != [] && HoldsState(f, 1, states[0]) && StatesOnWire(fs, states[1..])
    ensures StatesOnWire([f] + fs, states)
  {
    hide HoldsState;
    forall i | 0 <= i < |states| ensures HoldsState(([f] + fs)[i], 1, states[i]) {
      assert i > 0 ==> ([f] + fs)[i] == fs[i - 1] && states[i] == states[1..][i - 1];
    }
  }

  lemma {:induction false} StatesAreOnWire(states: seq<State>, walk: Walk, path: seq<nat>)
    requires IsWalk(walk) && GoStates(states)
    ensures StatesOnWire(StateList(states, walk, path), states)
    decreases |states|
  {
    if states != [] {
      hide IsWalk, StateFields, HoldsState, StatesOnWire, Enc, Int64State;
      StateIsHeld(states[0], 1, walk, path + [|states|]);
      StatesAreOnWire(states[1..], walk, path);
      StatesCons(Len(1, Enc(StateFields(states[0], walk, path + [|states|]))), StateList(states[1..], walk, path), states);
    }
  }

  lemma DelayedIsHeld(ds: DelayedState, num: nat, walk: Walk, path: seq<nat>)
    requires IsWalk(walk) && GoDelayed(ds)
    ensures HoldsDelayed(Len(num, Enc(DelayedFields(ds, walk, path))), num, ds)
  {
    hide IsWalk, DelayedFields, DelayedOnWire, Enc, GoDelayed;
    DelayedIsOnWire(ds, walk, path);
  }

  lemma DuesCons(f: Field, fs: seq<Field>, states: seq<DelayedState>)
    requires states != [] && HoldsDelayed(f, 1, states[0]) && DuesOnWire(fs, states[1..])
    ensures DuesOnWire([f] + fs, states)
  {
    hide HoldsDelayed;
    forall i | 0 <= i < |states| ensures HoldsDelayed(([f] + fs)[i], 1, states[i]) {
      assert i > 0 ==> ([f] + fs)[i] == fs[i - 1] && states[i] == states[1..][i - 1];
    }
  }

  lemma {:induction false} DuesAreOnWire(states: seq<DelayedState>, walk: Walk, path: seq<nat>)
    requires IsWalk(walk) && GoDues(states)
    ensures DuesOnWire(DelayedList(states, walk, path), states)
    decreases |states|
  {
    if states != [] {
      hide IsWalk, DelayedFields, HoldsDelayed, DuesOnWire, Enc, GoDelayed;
      DelayedIsHeld(states[0], 1, walk, path + [|states|]);
      DuesAreOnWire(states[1..], walk, path);
      DuesCons(Len(1, Enc(DelayedFields(states[0], walk, path + [|states|]))), DelayedList(states[1..], walk, path), states);
    }
  }

  lemma FoundIsOnWire(num: nat, found: Option<Found>, walk: Walk, path: seq<nat>)
    requires IsWalk(walk) && (found.Some? ==> GoStates(found.value.states))
    ensures FoundOnWire(FoundFields(num, found, walk, path), num, found)
  {
    if found.Some? {
      hide IsWalk, StateList, StatesOnWire, Enc, GoStates;
      StatesAreOnWire(found.value.states, walk, path);
    }
  }

  lemma DueIsOnWire(num: nat, due: Option<Due>, walk: Walk, path: seq<nat>)
    requires IsWalk(walk) && (due.Some? ==> GoDues(due.value.states))
    ensures DueOnWire(DueFields(num, due, walk, path), num, due)
  {
    if due.Some? {
      hide IsWalk, DelayedList, DuesOnWire, Enc, GoDues;
      DuesAreOnWire(due.value.states, walk, path);
    }
  }

  lemma ResultIsOnWire(num: nat, ds: Option<DelayedState>, walk: Walk, path: seq<nat>)
    requires IsWalk(walk) && (ds.Some? ==> GoDelayed(ds.value))
    ensures ResultOnWire(ResultFields(num, ds, walk, path), num, ds)
  {
    if ds.Some? {
      hide IsWalk, DelayedFields, HoldsDelayed, Enc, GoDelayed;
      DelayedIsHeld(ds.value, num, walk, path);
    }
  }

  lemma DictIsOnWire(m: Dict, num: nat, walk: Walk, path: seq<nat>)
    requires IsWalk(walk)
    ensures MapOnWire(MapFields(m, num, walk(path, m.Keys)), num, m)
  {
    WalkEnumerates(walk, path, m.Keys);
    hide IsWalk, MapOnWire, MapFields, Enumerates;
    MapIsOnWire(m, num, walk(path, m.Keys));
  }

  lemma PartIsOnWire(s: Slot, b: Body, table: seq<nat>, walk: Walk, path: seq<nat>)
    requires GoBody(b) && |table| < TWO63 && IsWalk(walk) && RefIn(b.ctx, table) && RefIn(b.other, table)
    ensures PartOnWire(PartFields(s, b, table, walk, path), s.part, s.num, b, table)
  {
    hide IsWalk, MapOnWire, MapFields, RefFields, RefOnWire, LabelsFields, LabelsOnWire, FoundFields, FoundOnWire, DueFields, DueOnWire,
         ResultFields, ResultOnWire, RefIn, GoStates, GoDues, GoDelayed, Enc;
    match s.part {
      case Ctx => RefIsOnWire(s.num, b.ctx, table);
      case Other => RefIsOnWire(s.num, b.other, table);
      case Dic => DictIsOnWire(b.dict, s.num, walk, path + [s.num]);
      case Res => ResultIsOnWire(s.num, b.result, walk, path + [s.num]);
      case Labs => LabelsAreOnWire(b.labels, s.num, walk, path + [s.num]);
      case Fnd => FoundIsOnWire(s.num, b.found, walk, path + [s.num]);
      case Dues => DueIsOnWire(s.num, b.due, walk, path + [s.num]);
      case _ =>
    }
  }

  // ------------------------------------------------------------- whole messages

  lemma {:induction false} LabelsNumbered(sets: seq<Dict>, num: nat, walk: Walk, path: seq<nat>)
    ensures AllNumbered(LabelsFields(sets, num, walk, path), num)
    decreases |sets|
  {
    if sets != [] {
      LabelsNumbered(sets[1..], num, walk, path);
      hide MapFields, Enc;
    }
  }

  lemma PartNumbered(s: Slot, b: Body, table: seq<nat>, walk: Walk, path: seq<nat>)
    requires GoBody(b) && |table| < TWO63
    ensures AllNumbered(PartFields(s, b, table, walk, path), s.num)
  {
    MapFieldAt(b.dict, s.num, walk(path + [s.num], b.dict.Keys));
    LabelsNumbered(b.labels, s.num, walk, path + [s.num]);
    hide MapFields, LabelsFields, Enc, StateList, DelayedList, DelayedFields, GoBody;
  }

  // The part a number stands for, if the layout has one.
  lemma {:induction false} SlotsAt(slots: seq<Slot>, b: Body, table: seq<nat>, walk: Walk, path: seq<nat>, num: nat)
    requires GoBody(b) && |table| < TWO63
    requires forall i, j | 0 <= i < j < |slots| :: slots[i].num != slots[j].num
    ensures var fs := SlotsFields(slots, b, table, walk, path);
            && (forall s | s in slots && s.num == num :: Under(fs, num) == PartFields(s, b, table, walk, path))
            && ((forall s | s in slots :: s.num != num) ==> Under(fs, num) == [])
    decreases |slots|
  {
    if slots != [] {
      var head, tail := slots[0], slots[1..];
      var a, c := PartFields(head, b, table, walk, path), SlotsFields(tail, b, table, walk, path);
      SlotsAt(tail, b, table, walk, path, num);
      PartNumbered(head, b, table, walk, path);
      hide PartFields, SlotsFields, GoBody;
      AtNumbered(a, head.num, num);
      AtConcat(a, c, num);
      hide Under, AllNumbered;
      assert slots == [head] + tail;
      forall s | s in slots ensures s == head || s in tail {
      }
      if head.num == num {
        forall s | s in tail ensures s.num != num {
          var i :| 0 <= i < |tail| && tail[i] == s;
          assert slots[i + 1] == s;
        }
      }
    }
  }

  // Every field of the message is one the definition has, and holds that part.
  ghost predicate BodyOnWire(fs: seq<Field>, kind: Kind, b: Body, table: seq<nat>) {
    && (forall part, num {:trigger Defined(kind, part, num)} | Defined(kind, part, num) :: PartOnWire(Under(fs, num), part, num, b, table))
    && forall num {:trigger Under(fs, num)} | (forall part :: !Defined(kind, part, num)) :: Under(fs, num) == []
  }

  lemma SlotOf(kind: Kind, part: Part, num: nat)
    requires Defined(kind, part, num)
    ensures Slot(part, num) in Layout(kind)
  {
    LayoutIsDefined(kind, part, num);
  }

  lemma NoSlot(kind: Kind, num: nat)
    requires forall part :: !Defined(kind, part, num)
    ensures forall s | s in Layout(kind) :: s.num != num
  {
    forall s | s in Layout(kind) ensures s.num != num {
      LayoutIsDefined(kind, s.part, s.num);
    }
  }

  lemma NumbersAreDistinct(kind: Kind)
    ensures forall i, j | 0 <= i < j < |Layout(kind)| :: Layout(kind)[i].num != Layout(kind)[j].num
  {
  }

  lemma BodyIsOnWire(kind: Kind, b: Body, table: seq<nat>, walk: Walk, path: seq<nat>)
    requires GoBody(b) && |table| < TWO63 && IsWalk(walk) && RefIn(b.ctx, table) && RefIn(b.other, table)
    ensures BodyOnWire(SlotsFields(Layout(kind), b, table, walk, path), kind, b, table)
  {
    var slots := Layout(kind);
    NumbersAreDistinct(kind);
    hide Layout, SlotsFields, PartFields, PartOnWire, GoBody, IsWalk, Under, RefIn;
    forall part, num | Defined(kind, part, num)
      ensures PartOnWire(Under(SlotsFields(slots, b, table, walk, path), num), part, num, b, table)
    {
      SlotOf(kind, part, num);
      SlotsAt(slots, b, table, walk, path, num);
      PartIsOnWire(Slot(part, num), b, table, walk, path);
    }
    forall num | (forall part :: !Defined(kind, part, num))
      ensures Under(SlotsFields(slots, b, table, walk, path), num) == []
    {
      NoSlot(kind, num);
      SlotsAt(slots, b, table, walk, path, num);
    }
  }

  /** A command, over the contexts of the table: nothing for nil, an empty message 10 for
      a Noop, message 9 with its commands as field 1 for a Commit, and otherwise the
      message of its kind. */
  ghost predicate CommandOnWire(fs: seq<Field>, c: Command, table: seq<nat>)
    decreases Size(c), 0
  {
    match c
    case Nil => fs == []
    case Noop => fs == [Len(10, "")]
    case Cmd(kind, b) => exists num, body :: InField(kind, num) && fs == [Len(num, Enc(body))] && BodyOnWire(body, kind, b, table)
    case Commit(cs) => exists subs :: fs == [Len(9, Enc(subs))] && CommandsOnWire(subs, cs, table)
  }

  ghost predicate CommandsOnWire(fs: seq<Field>, cs: seq<Command>, table: seq<nat>)
    decreases SizeAll(cs), 1
  {
    if cs == [] then fs == []
    else
      && fs != [] && (exists sub :: fs[0] == Len(1, Enc(sub)) && CommandOnWire(sub, cs[0], table))
      && CommandsOnWire(fs[1..], cs[1..], table)
  }

  lemma {:induction false} CommandIsOnWire(c: Command, table: seq<nat>, walk: Walk, path: seq<nat>)
    requires GoCommand(c) && Covered(c, table) && |table| < TWO63 && IsWalk(walk)
    ensures CommandOnWire(CmdFields(c, table, walk, path), c, table)
    decreases Size(c)
  {
    match c {
      case Cmd(kind, b) =>
        LayoutIsDefined(kind, Ctx, 0);
        BodyIsOnWire(kind, b, table, walk, path);
        hide BodyOnWire, IsWalk, SlotsFields, Layout, InField, Enc, OfKind, GoBody;
      case Commit(cs) =>
        CommandsAreOnWire(cs, table, walk, path);
        hide CommandsOnWire, IsWalk, SubFields, Enc;
      case _ =>
    }
  }

  lemma {:induction false} CommandsAreOnWire(cs: seq<Command>, table: seq<nat>, walk: Walk, path: seq<nat>)
    requires GoCommands(cs) && CoveredAll(cs, table) && |table| < TWO63 && IsWalk(walk)
    ensures CommandsOnWire(SubFields(cs, table, walk, path), cs, table)
    decreases SizeAll(cs)
  {
    if cs != [] {
      CommandIsOnWire(cs[0], table, walk, path + [|cs|]);
      CommandsAreOnWire(cs[1..], table, walk, path);
      hide CommandOnWire, IsWalk, CmdFields, Enc;
      assert SubFields(cs, table, walk, path)[1..] == SubFields(cs[1..], table, walk, path);
    }
  }

  // The contexts of a whole message, field 1 each.
  ghost predicate HoldsCtx(f: Field, num: nat, c: StateCtx) {
    exists fs :: f == Len(num, Enc(fs)) && CtxOnWire(fs, c)
  }

  ghost predicate CtxsOnWire(fs: seq<Field>, table: seq<nat>, heap: Heap) {
    |fs| == |table| && forall i | 0 <= i < |fs| :: table[i] in heap && HoldsCtx(fs[i], 1, heap[table[i]])
  }

  lemma CtxsCons(f: Field, fs: seq<Field>, table: seq<nat>, heap: Heap)
    requires table != [] && table[0] in heap && HoldsCtx(f, 1, heap[table[0]]) && CtxsOnWire(fs, table[1..], heap)
    ensures CtxsOnWire([f] + fs, table, heap)
  {
    hide HoldsCtx;
    forall i | 0 <= i < |table| ensures table[i] in heap && HoldsCtx(([f] + fs)[i], 1, heap[table[i]]) {
      assert i > 0 ==> ([f] + fs)[i] == fs[i - 1] && table[i] == table[1..][i - 1];
    }
  }

  lemma {:induction false} CtxsAreOnWire(table: seq<nat>, heap: Heap, walk: Walk, path: seq<nat>)
    requires GoHeap(table, heap) && IsWalk(walk)
    ensures CtxsOnWire(CtxsFields(table, heap, walk, path), table, heap)
    decreases |table|
  {
    if table != [] {
      hide IsWalk, CtxFields, HoldsCtx, CtxsOnWire, Enc, GoCtx;
      CtxsAreOnWire(table[1..], heap, walk, path);
      CtxIsHeld(heap[table[0]], 1, walk, path + [|table|]);
      CtxsCons(Len(1, Enc(CtxFields(heap[table[0]], walk, path + [|table|]))), CtxsFields(table[1..], heap, walk, path), table, heap);
    }
  }

  lemma CtxIsHeld(c: StateCtx, num: nat, walk: Walk, path: seq<nat>)
    requires GoCtx(c) && IsWalk(walk)
    ensures HoldsCtx(Len(num, Enc(CtxFields(c, walk, path))), num, c)
  {
    hide IsWalk, CtxFields, CtxOnWire, Enc, GoCtx;
    CtxIsOnWire(c, walk, path);
  }

  /** MarshalCommand: the contexts of the table, field 1 each, and the command. */
  lemma MarshalIsOnWire(c: Command, heap: Heap, walk: Walk)
    requires GoCommand(c) && GoHeap(Table(c), heap) && |Table(c)| < TWO63 && IsWalk(walk)
    ensures exists a, b :: Marshal(c, heap, walk) == Enc(a + b) && CtxsOnWire(a, Table(c), heap) && CommandOnWire(b, c, Table(c))
  {
    hide IsWalk, CtxsFields, CmdFields, CtxsOnWire, CommandOnWire, GoCommand, GoHeap, Table, Enc, Covered;
    TableCovers(c);
    CtxsAreOnWire(Table(c), heap, walk, [1]);
    CommandIsOnWire(c, Table(c), walk, [2]);
  }
}
