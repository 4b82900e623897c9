/** One operation on an object stack, and the plain stack of byte strings it refines. */
module ObstackSteps {
  import opened Common
  import O = Obstack

  type Stack = O.Stack

  datatype Op =
    | MakeRoom(len: int, a: O.Alloc)
    | Grow(data: seq<Byte>, a: O.Alloc)
    | Grow0(data: seq<Byte>, a: O.Alloc)
    | Grow1(ch: Byte, a: O.Alloc)
    | Blank(len: int, a: O.Alloc)
    | Finish
    | Alloc(len: int, a: O.Alloc)
    | Copy(data: seq<Byte>, a: O.Alloc)
    | Copy0(data: seq<Byte>, a: O.Alloc)
    | Free(addr: nat, k: nat)

  /**
   Chunks come from a chunk function that does its job, no more is taken from the growing object than
   it has, and only live objects are freed.
   */
  predicate Legal(o: Stack, op: Op) {
    O.Bounds(o) &&
    match op
    case MakeRoom(len, a) => O.Served(o, len, a)
    case Grow(data, a) => O.Served(o, |data|, a)
    case Grow0(data, a) => O.Served(o, |data| + 1, a)
    case Grow1(_, a) => O.Served(o, 1, a)
    case Blank(len, a) => O.Served(o, len, a) && O.CanResize(o, len)
    case Finish => true
    case Alloc(len, a) => O.Served(o, len, a) && O.CanResize(o, len)
    case Copy(data, a) => O.Served(o, |data|, a)
    case Copy0(data, a) => O.Served(o, |data| + 1, a)
    case Free(addr, k) => k < |o.objs| && o.objs[k].addr == addr
  }

  /** None stands for an `obstack_free` that finds no chunk. */
  function Step(o: Stack, op: Op): Option<Stack>
    requires Legal(o, op)
  {
    match op
    case MakeRoom(len, a) => Some(O.MakeRoom(o, len, a))
    case Grow(data, a) => Some(O.Grow(o, data, a))
    case Grow0(data, a) => Some(O.Grow0(o, data, a))
    case Grow1(ch, a) => Some(O.Grow(o, [ch], a))
    case Blank(len, a) => Some(O.Blank(o, len, a))
    case Finish => Some(O.Finish(o))
    case Alloc(len, a) => Some(O.Finish(O.Blank(o, len, a)))
    case Copy(data, a) => Some(O.Finish(O.Grow(o, data, a)))
    case Copy0(data, a) => Some(O.Finish(O.Grow0(o, data, a)))
    case Free(addr, k) => O.Free(o, addr, k)
  }

  // ---- The reference: a plain stack of byte strings with one growing on top ----

  datatype Plain = Plain(done: seq<seq<Byte>>, growing: seq<Byte>)

  /** `t` is `s` with `len` more bytes at the end, or with its last `-len` bytes gone. */
  predicate Resized(s: seq<Byte>, len: int, t: seq<Byte>) {
    |t| == |s| + len && (if len < 0 then t <= s else s <= t)
  }

  /** `blank` bytes are unspecified, so the reference is a relation. */
  ghost predicate PlainStep(p: Plain, op: Op, q: Plain) {
    match op
    case MakeRoom(_, _) => q == p
    case Grow(data, _) => q == p.(growing := p.growing + data)
    case Grow0(data, _) => q == p.(growing := p.growing + data + [0])
    case Grow1(ch, _) => q == p.(growing := p.growing + [ch])
    case Blank(len, _) => q.done == p.done && Resized(p.growing, len, q.growing)
    case Finish => q == Plain(p.done + [p.growing], [])
    case Alloc(len, _) =>
      && q.growing == [] && |q.done| == |p.done| + 1 && q.done[..|p.done|] == p.done
      && Resized(p.growing, len, q.done[|p.done|])
    case Copy(data, _) => q == Plain(p.done + [p.growing + data], [])
    case Copy0(data, _) => q == Plain(p.done + [p.growing + data + [0]], [])
    case Free(_, k) => k < |p.done| && q == Plain(p.done[..k], [])
  }

  /** The bytes of a finished object, as they stand in memory. */
  function Bytes(o: Stack, x: O.Obj): seq<Byte>
    requires O.GoodObj(o, x)
  {
    o.mem[x.addr..x.addr + |x.data|]
  }

  /** What memory holds: the bytes of every finished object, and of the growing one. */
  ghost function View(o: Stack): Plain
    requires O.Inv(o)
  {
    Plain(seq(|o.objs|, i requires 0 <= i < |o.objs| => Bytes(o, o.objs[i])), o.mem[o.base..o.next])
  }

  // ---- History ----

  function Datas(objs: seq<O.Obj>): seq<seq<Byte>> {
    seq(|objs|, i requires 0 <= i < |objs| => objs[i].data)
  }

  /** What the client put in. */
  function History(o: Stack): Plain {
    Plain(Datas(o.objs), o.grown)
  }

  /** Memory holds what the client put in. */
  lemma ViewIsHistory(o: Stack)
    requires O.Inv(o)
    ensures View(o) == History(o)
  {
    forall i | 0 <= i < |o.objs|
      ensures View(o).done[i] == o.objs[i].data
    {
      assert O.GoodObj(o, o.objs[i]);
    }
  }

  // ---- Each operation ----

  lemma GrowKeeps(o: Stack, data: seq<Byte>, a: O.Alloc)
    requires O.Inv(o) && O.Served(o, |data|, a)
    ensures var r := O.Grow(o, data, a);
      O.Inv(r) && r.objs == o.objs && r.grown == o.grown + data
  {
    O.MakeRoomKeeps(o, |data|, a);
    O.AppendKeeps(O.MakeRoom(o, |data|, a), data);
  }

  lemma Grow0Keeps(o: Stack, data: seq<Byte>, a: O.Alloc)
    requires O.Inv(o) && O.Served(o, |data| + 1, a)
    ensures var r := O.Grow0(o, data, a);
      O.Inv(r) && r.objs == o.objs && r.grown == o.grown + data + [0]
  {
    O.MakeRoomKeeps(o, |data| + 1, a);
    var m := O.MakeRoom(o, |data| + 1, a);
    O.AppendKeeps(m, data);
    O.AppendKeeps(O.Append(m, data), [0]);
  }

  lemma BlankKeeps(o: Stack, len: int, a: O.Alloc)
    requires O.Inv(o) && O.Served(o, len, a) && O.CanResize(o, len)
    ensures var r := O.Blank(o, len, a);
      O.Inv(r) && r.objs == o.objs && Resized(o.grown, len, r.grown)
  {
    O.MakeRoomKeeps(o, len, a);
    O.SkipKeeps(O.MakeRoom(o, len, a), len);
  }

  lemma FinishAdds(o: Stack)
    requires O.Inv(o)
    ensures O.Inv(O.Finish(o)) && History(O.Finish(o)) == Plain(Datas(o.objs) + [o.grown], [])
  {
    O.FinishKeeps(o);
    assert Datas(O.Finish(o).objs) == Datas(o.objs) + [o.grown];
  }

  /** What is to be shown of one operation. */
  ghost predicate Done(o: Stack, op: Op)
    requires Legal(o, op)
  {
    && var r := Step(o, op);
    && r.Some? && O.Inv(r.value) && PlainStep(History(o), op, History(r.value))
  }

  lemma AllocDone(o: Stack, len: int, a: O.Alloc)
    requires O.Inv(o) && Legal(o, Alloc(len, a))
    ensures Done(o, Alloc(len, a))
  {
    BlankKeeps(o, len, a);
    FinishAdds(O.Blank(o, len, a));
  }

  lemma CopyDone(o: Stack, data: seq<Byte>, a: O.Alloc)
    requires O.Inv(o) && Legal(o, Copy(data, a))
    ensures Done(o, Copy(data, a))
  {
    GrowKeeps(o, data, a);
    FinishAdds(O.Grow(o, data, a));
  }

  lemma Copy0Done(o: Stack, data: seq<Byte>, a: O.Alloc)
    requires O.Inv(o) && Legal(o, Copy0(data, a))
    ensures Done(o, Copy0(data, a))
  {
    Grow0Keeps(o, data, a);
    FinishAdds(O.Grow0(o, data, a));
  }

  lemma FreeDone(o: Stack, addr: nat, k: nat)
    requires O.Inv(o) && Legal(o, Free(addr, k))
    ensures Done(o, Free(addr, k))
  {
    O.FreeKeeps(o, k);
    assert Datas(o.objs[..k]) == Datas(o.objs)[..k];
  }

  lemma GrowthDone(o: Stack, op: Op)
    requires O.Inv(o) && Legal(o, op)
    requires op.MakeRoom? || op.Grow? || op.Grow0? || op.Grow1? || op.Blank?
    ensures Done(o, op)
  {
    match op {
      case MakeRoom(len, a) => O.MakeRoomKeeps(o, len, a);
      case Grow(data, a) => GrowKeeps(o, data, a);
      case Grow0(data, a) => Grow0Keeps(o, data, a);
      case Grow1(ch, a) => GrowKeeps(o, [ch], a);
      case Blank(len, a) => BlankKeeps(o, len, a);
    }
  }

  lemma OpDone(o: Stack, op: Op)
    requires O.Inv(o) && Legal(o, op)
    ensures Done(o, op)
  {
    match op {
      case Finish => FinishAdds(o);
      case Alloc(len, a) => AllocDone(o, len, a);
      case Copy(data, a) => CopyDone(o, data, a);
      case Copy0(data, a) => Copy0Done(o, data, a);
      case Free(addr, k) => FreeDone(o, addr, k);
      case _ => GrowthDone(o, op);
    }
  }

  /** Every operation succeeds, keeps the invariant, and does what the plain stack does. */
  lemma StepKeeps(o: Stack, op: Op)
    requires O.Inv(o) && Legal(o, op)
    ensures Step(o, op).Some? && O.Inv(Step(o, op).value)
    ensures PlainStep(View(o), op, View(Step(o, op).value))
  {
    OpDone(o, op);
    ViewIsHistory(o);
    ViewIsHistory(Step(o, op).value);
  }

}
