/** The command codec of protobuf.go: a tree of commands whose contexts are
    pointers, sent as indices into a table of contexts. */
module Commands {
  import opened States
  import opened Wire
  import opened Codec
  import opened CtxCodec

  // ------------------------------------------------------------- commands

  // A *StateCtx: nil, or the address of a context.
  type Ref = Option<nat>

  datatype Kind =
    | Transit | Park | Execute | Delay | Stack | Unstack | GetStateByID | GetStateByLabels | GetStates | GetDelayedStates | StoreData | GetData

  /** What a command can hold: `ctx` is its context (the carrier of Stack and
      Unstack) and `other` the stacked one, `text` its flow, alias, annotation or
      state ID, `dict` its annotations or labels, `rev` its revision, since_rev or
      offset, `at` and `until` its times, `flag` commit or latest_only; the rest
      belongs to Delay, GetStates and GetDelayedStates. */
  datatype Body = Body(
    ctx: Ref, other: Ref, text: Text, dict: Dict, rev: int, result: Option<DelayedState>, at: Option<int>, flag: bool,
    until: Option<int>, labels: seq<Dict>, limit: int, found: Option<Found>, due: Option<Due>)

  /** The results of GetStates and GetDelayedStates. */
  datatype Found = Found(states: seq<State>, more: bool)

  datatype Due = Due(states: seq<DelayedState>, more: bool)

  const ZERO_BODY := Body(None, None, "", map[], 0, None, None, false, None, [], 0, None, None)

  datatype Command = Nil | Noop | Cmd(kind: Kind, body: Body) | Commit(commands: seq<Command>)

  datatype Part = Ctx | Other | Txt | Dic | Rev | Res | At | Flag | Until | Labs | Lim | Fnd | Dues

  datatype Slot = Slot(part: Part, num: nat)

  /** The message of each command: its parts with their field numbers, in the order written. */
  function Layout(kind: Kind): seq<Slot> {
    match kind
    case Transit => [Slot(Ctx, 1), Slot(Txt, 2), Slot(Dic, 3)]
    case Park => [Slot(Ctx, 1), Slot(Dic, 3)]
    case Execute => [Slot(Ctx, 1)]
    case Delay => [Slot(Ctx, 1), Slot(Res, 2), Slot(At, 3), Slot(Flag, 4), Slot(Txt, 5), Slot(Dic, 6)]
    case Stack => [Slot(Ctx, 1), Slot(Other, 2), Slot(Txt, 3)]
    case Unstack => [Slot(Ctx, 1), Slot(Other, 2), Slot(Txt, 3)]
    case GetStateByID => [Slot(Txt, 1), Slot(Rev, 2), Slot(Ctx, 3)]
    case GetStateByLabels => [Slot(Dic, 1), Slot(Ctx, 2)]
    case GetStates => [Slot(Rev, 1), Slot(At, 2), Slot(Labs, 3), Slot(Flag, 4), Slot(Lim, 5), Slot(Fnd, 6)]
    case GetDelayedStates => [Slot(At, 1), Slot(Until, 2), Slot(Rev, 3), Slot(Lim, 4), Slot(Dues, 5)]
    case StoreData => [Slot(Ctx, 1), Slot(Txt, 2)]
    case GetData => [Slot(Ctx, 1), Slot(Txt, 2)]
  }

  // The field of the Command message a command is sent as.
  function Number(kind: Kind): nat {
    match kind
    case Transit => 3
    case Park => 6
    case Execute => 7
    case Delay => 8
    case Stack => 11
    case Unstack => 12
    case GetStateByID => 17
    case GetStateByLabels => 18
    case GetStates => 19
    case GetDelayedStates => 20
    case StoreData => 21
    case GetData => 22
  }

  function KindOf(num: nat): Option<Kind> {
    match num
    case 3 => Some(Transit)
    case 6 => Some(Park)
    case 7 => Some(Execute)
    case 8 => Some(Delay)
    case 11 => Some(Stack)
    case 12 => Some(Unstack)
    case 17 => Some(GetStateByID)
    case 18 => Some(GetStateByLabels)
    case 19 => Some(GetStates)
    case 20 => Some(GetDelayedStates)
    case 21 => Some(StoreData)
    case 22 => Some(GetData)
    case _ => None
  }

  // One part of a body taken from another.
  function SetPart(part: Part, to: Body, b: Body): Body {
    match part
    case Ctx => to.(ctx := b.ctx)
    case Other => to.(other := b.other)
    case Txt => to.(text := b.text)
    case Dic => to.(dict := b.dict)
    case Rev => to.(rev := b.rev)
    case Res => to.(result := b.result)
    case At => to.(at := b.at)
    case Flag => to.(flag := b.flag)
    case Until => to.(until := b.until)
    case Labs => to.(labels := b.labels)
    case Lim => to.(limit := b.limit)
    case Fnd => to.(found := b.found)
    case Dues => to.(due := b.due)
  }

  function SetAll(slots: seq<Slot>, to: Body, b: Body): Body
    decreases |slots|
  {
    if slots == [] then to else SetAll(slots[1..], SetPart(slots[0].part, to, b), b)
  }

  /** A command of its kind: nothing but the parts of its layout is set. */
  predicate OfKind(kind: Kind, b: Body) {
    SetAll(Layout(kind), ZERO_BODY, b) == b
  }

  // ------------------------------------------------------------- the table of contexts

  /** slices.CompactFunc: consecutive repetitions are dropped. */
  function Compact(s: seq<nat>): (r: seq<nat>)
    ensures forall a :: a in r <==> a in s
    ensures r != [] <==> s != []
    ensures r != [] ==> r[0] == s[0]
    ensures forall i | 0 <= i < |r| - 1 :: r[i] != r[i + 1]
  {
    if |s| < 2 then s
    else if s[0] == s[1] then Compact(s[1..])
    else
      assert s == [s[0]] + s[1..];
      [s[0]] + Compact(s[1..])
  }

  function RefSeq(r: Ref): seq<nat> {
    if r.Some? then [r.value] else []
  }

  function Size(c: Command): nat {
    if c.Commit? then 1 + SizeAll(c.commands) else 1
  }

  function SizeAll(cs: seq<Command>): nat {
    if cs == [] then 0 else 1 + Size(cs[0]) + SizeAll(cs[1..])
  }

  /** commandStateCtxs: the contexts of a command, compacted at every level. */
  function Table(c: Command): seq<nat>
    decreases Size(c)
  {
    match c
    case Nil => []
    case Noop => []
    case Cmd(_, b) => Compact(RefSeq(b.ctx) + RefSeq(b.other))
    case Commit(cs) => Compact(Tables(cs))
  }

  function Tables(cs: seq<Command>): seq<nat>
    decreases SizeAll(cs)
  {
    if cs == [] then [] else Table(cs[0]) + Tables(cs[1..])
  }

  /** stateCtxs.idx: the first index of an address; the table's length where the code panics. */
  function Idx(table: seq<nat>, a: nat): (i: nat)
    ensures i <= |table| && (i < |table| <==> a in table)
    ensures i < |table| ==> table[i] == a
    ensures forall k | 0 <= k < i :: table[k] != a
  {
    if table == [] || table[0] == a then 0 else 1 + Idx(table[1..], a)
  }

  function Renumber(r: Ref, table: seq<nat>): Ref {
    if r.Some? then Some(Idx(table, r.value)) else None
  }

  predicate RefIn(r: Ref, table: seq<nat>) {
    r.Some? ==> r.value in table
  }

  /** Every context the command points to is in the table. */
  predicate Covered(c: Command, table: seq<nat>)
    decreases Size(c)
  {
    match c
    case Nil => true
    case Noop => true
    case Cmd(_, b) => RefIn(b.ctx, table) && RefIn(b.other, table)
    case Commit(cs) => CoveredAll(cs, table)
  }

  predicate CoveredAll(cs: seq<Command>, table: seq<nat>)
    decreases SizeAll(cs)
  {
    cs == [] || (Covered(cs[0], table) && CoveredAll(cs[1..], table))
  }

  lemma {:induction false} CoveredMore(c: Command, table: seq<nat>, more: seq<nat>)
    requires Covered(c, table) && forall a :: a in table ==> a in more
    ensures Covered(c, more)
    decreases Size(c)
  {
    if c.Commit? {
      CoveredAllMore(c.commands, table, more);
    }
  }

  lemma {:induction false} CoveredAllMore(cs: seq<Command>, table: seq<nat>, more: seq<nat>)
    requires CoveredAll(cs, table) && forall a :: a in table ==> a in more
    ensures CoveredAll(cs, more)
    decreases SizeAll(cs)
  {
    if cs != [] {
      CoveredMore(cs[0], table, more);
      CoveredAllMore(cs[1..], table, more);
    }
  }

  /** The lookup in idx never panics: the table covers its own command. */
  lemma {:induction false} TableCovers(c: Command)
    ensures Covered(c, Table(c))
    decreases Size(c)
  {
    if c.Commit? {
      TablesCover(c.commands);
      CoveredAllMore(c.commands, Tables(c.commands), Table(c));
    }
  }

  lemma {:induction false} TablesCover(cs: seq<Command>)
    ensures CoveredAll(cs, Tables(cs))
    decreases SizeAll(cs)
  {
    if cs != [] {
      TableCovers(cs[0]);
      CoveredMore(cs[0], Table(cs[0]), Tables(cs));
      TablesCover(cs[1..]);
      CoveredAllMore(cs[1..], Tables(cs[1..]), Tables(cs));
    }
  }
}
