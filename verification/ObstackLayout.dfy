/** How an object stack uses its chunks: where objects start, which chunks it keeps, and its flag. */
module ObstackLayout {
  import opened Common
  import opened Alignment
  import opened ObstackRuns
  import opened ObstackSteps
  import O = Obstack

  // ---- Where objects start ----

  /** The first object of a new stack starts at the first aligned address after the chunk header. */
  lemma FirstObjectIsLeast(mem: seq<Byte>, c: O.Chunk, mask: nat)
    requires IsMask(mask)
    ensures var o := O.Begin(mem, c, mask);
      O.LeastAligned(o.base, c.addr + 16, mask) && o.next == o.base && o.limit == c.limit
  {
    AlignIsLeast(0, c.addr + 16, mask);
  }

  /** So does the growing object after a move. */
  lemma MovedObjectIsLeast(o: Stack, len: nat, a: O.Alloc)
    requires IsMask(o.mask) && O.Bounds(o) && O.Fresh(o, len, a.chunk)
    ensures var r := O.NewChunk(o, len, a);
      && O.LeastAligned(r.base, a.chunk.addr + 16, o.mask)
      && r.next - r.base == o.next - o.base && r.limit == a.chunk.limit
  {
    AlignIsLeast(0, a.chunk.addr + 16, o.mask);
  }

  lemma FinishLeaves(w: Stack)
    requires O.Inv(w)
    ensures var x, k := O.Finish(w), |w.objs|;
      && x.mask == w.mask && x.next == x.base && |x.objs| == k + 1 && x.objs[k].data == w.grown
      && (x.base < x.limit ==> O.LeastAligned(x.base, x.objs[k].addr + |x.objs[k].data|, w.mask))
  {
    O.FinishStartsAfter(w);
    assert |w.grown| == w.next - w.base;
  }

  /** What an allocation leaves: the object, and the next one right after it. */
  lemma AllocLeaves(o: Stack, m: int, a: O.Alloc)
    requires O.Inv(o) && Legal(o, Alloc(m, a))
    ensures var x, k := O.Finish(O.Blank(o, m, a)), |o.objs|;
      && O.Inv(x) && x.mask == o.mask && x.next == x.base && |x.objs| == k + 1
      && |x.objs[k].data| == |o.grown| + m
      && (x.base < x.limit ==> O.LeastAligned(x.base, x.objs[k].addr + |x.objs[k].data|, o.mask))
  {
    BlankKeeps(o, m, a);
    var w := O.Blank(o, m, a);
    O.FinishKeeps(w);
    FinishLeaves(w);
  }

  lemma AllocFits(x: Stack, n: nat, b: O.Alloc)
    requires O.Bounds(x) && x.next + n <= x.limit
    ensures Legal(x, Alloc(n, b)) && Step(x, Alloc(n, b)).Some?
    ensures var y, k := Step(x, Alloc(n, b)).value, |x.objs|;
      |y.objs| == k + 1 && y.objs[..k] == x.objs && y.objs[k].addr == x.base
      && |y.objs[k].data| == |x.grown| + n
  {
  }

  /** After one allocation, the next non-empty one that fits starts at the first aligned address behind it. */
  lemma AllocationsInARow(o: Stack, m: int, a: O.Alloc, n: nat, b: O.Alloc)
    requires O.Inv(o) && Legal(o, Alloc(m, a)) && n > 0
    ensures Step(o, Alloc(m, a)).Some?
    ensures var x := Step(o, Alloc(m, a)).value;
      x.next + n <= x.limit ==>
        && Legal(x, Alloc(n, b)) && Step(x, Alloc(n, b)).Some?
        && var y, k := Step(x, Alloc(n, b)).value, |o.objs|;
        && |y.objs| == k + 2 && |y.objs[k].data| == |o.grown| + m && |y.objs[k + 1].data| == n
        && O.LeastAligned(y.objs[k + 1].addr, y.objs[k].addr + |y.objs[k].data|, o.mask)
  {
    AllocLeaves(o, m, a);
    var x, k := O.Finish(O.Blank(o, m, a)), |o.objs|;
    if x.next + n <= x.limit {
      AllocFits(x, n, b);
      var y := Step(x, Alloc(n, b)).value;
      assert y.objs[k] == y.objs[..k + 1][k] == x.objs[k];
    }
  }

  // ---- The chain of chunks ----

  /** The length that an operation asks room for, and the chunk it gets if there is none. */
  function Asks(op: Op): Option<(int, O.Alloc)> {
    match op
    case MakeRoom(len, a) => Some((len, a))
    case Grow(data, a) => Some((|data|, a))
    case Grow0(data, a) => Some((|data| + 1, a))
    case Grow1(_, a) => Some((1, a))
    case Blank(len, a) => Some((len, a))
    case Alloc(len, a) => Some((len, a))
    case Copy(data, a) => Some((|data|, a))
    case Copy0(data, a) => Some((|data| + 1, a))
    case Finish => None
    case Free(_, _) => None
  }

  /** The room asked for is not there, so the growing object has to move. */
  predicate Moves(o: Stack, op: Op) {
    Asks(op).Some? && o.next + Asks(op).value.0 > o.limit
  }

  /** The older chunks, the old current chunk if and only if it was not given back, the new one. */
  predicate ChainAfter(before: seq<O.Chunk>, a: O.Alloc, after: seq<O.Chunk>)
    requires before != []
  {
    var n := |before| - 1;
    && |after| == (if a.drop then n + 1 else n + 2)
    && after[..n] == before[..n] && after[|after| - 1] == a.chunk
    && (before[n] in after <==> !a.drop) && (!a.drop ==> after[n] == before[n])
  }

  lemma NewChunkChain(o: Stack, len: nat, a: O.Alloc)
    requires O.Inv(o) && O.Fresh(o, len, a.chunk)
    ensures ChainAfter(o.chunks, a, O.NewChunk(o, len, a).chunks)
  {
    var n, r := |o.chunks| - 1, O.NewChunk(o, len, a);
    var c := o.chunks[n];
    assert O.GoodChunk(o, c) && O.Disjoint(c, a.chunk);
    forall i | 0 <= i < n
      ensures r.chunks[i] == o.chunks[i] != c
    {
      assert O.GoodChunk(o, o.chunks[i]) && O.Disjoint(o.chunks[i], c);
    }
    PtrAlignUp(a.chunk.addr + O.CONTENTS, o.mask);
  }

  lemma MakeRoomChain(o: Stack, len: int, a: O.Alloc)
    requires O.Inv(o) && O.Served(o, len, a)
    ensures var r := O.MakeRoom(o, len, a);
      if o.next + len > o.limit then ChainAfter(o.chunks, a, r.chunks) else r == o
  {
    if O.NeedsRoom(o, len) {
      NewChunkChain(o, len, a);
    }
  }

  /** The chain changes only when the object moves, and then in the one way described. */
  lemma StepChain(o: Stack, op: Op)
    requires O.Inv(o) && Legal(o, op) && !op.Free?
    ensures Step(o, op).Some?
    ensures var r := Step(o, op).value;
      if Moves(o, op) then ChainAfter(o.chunks, Asks(op).value.1, r.chunks) else r.chunks == o.chunks
  {
    if op.Finish? {
    } else {
      var (len, a) := Asks(op).value;
      MakeRoomChain(o, len, a);
    }
  }

  /** Whether an operation moves the object and keeps the chunk it leaves. */
  function KeptBy(o: Stack, op: Op): nat {
    if Moves(o, op) && !Asks(op).value.1.drop then 1 else 0
  }

  /** How many moves of a run keep the chunk they leave. */
  function Kept(o: Stack, ops: seq<Op>): nat
    decreases |ops|
  {
    if ops == [] || !Legal(o, ops[0]) || Step(o, ops[0]).None? then 0
    else KeptBy(o, ops[0]) + Kept(Step(o, ops[0]).value, ops[1..])
  }

  /** `k` chunks more, and everything below the old current one in place. */
  predicate GrownBy(before: seq<O.Chunk>, k: nat, after: seq<O.Chunk>) {
    before != [] && |after| == |before| + k && after[..|before| - 1] == before[..|before| - 1]
  }

  lemma GrownByBoth(x: seq<O.Chunk>, j: nat, y: seq<O.Chunk>, k: nat, z: seq<O.Chunk>)
    requires GrownBy(x, j, y) && GrownBy(y, k, z)
    ensures GrownBy(x, j + k, z)
  {
    var n := |x| - 1;
    assert z[..n] == z[..|y| - 1][..n] == y[..|y| - 1][..n] == y[..n];
  }

  lemma StepGrows(o: Stack, op: Op)
    requires O.Inv(o) && Legal(o, op) && !op.Free?
    ensures Step(o, op).Some? && O.Inv(Step(o, op).value)
    ensures GrownBy(o.chunks, KeptBy(o, op), Step(o, op).value.chunks)
  {
    StepChain(o, op);
    StepKeeps(o, op);
  }

  /**
   A run without frees ends with one chunk more for every move that keeps the chunk it leaves, and
   all chunks below the first current one are still in place.
   */
  lemma {:induction false} ChainGrowsByKept(o: Stack, ops: seq<Op>, r: Stack)
    requires O.Inv(o) && Runs(o, ops, r)
    requires forall i :: 0 <= i < |ops| ==> !ops[i].Free?
    ensures GrownBy(o.chunks, Kept(o, ops), r.chunks)
    decreases |ops|
  {
    if ops == [] {
    } else {
      StepGrows(o, ops[0]);
      var m := Step(o, ops[0]).value;
      ChainGrowsByKept(m, ops[1..], r);
      GrownByBoth(o.chunks, KeptBy(o, ops[0]), m.chunks, Kept(m, ops[1..]), r.chunks);
    }
  }

  lemma {:induction false} NoneKept(o: Stack, ops: seq<Op>)
    requires forall i :: 0 <= i < |ops| && Asks(ops[i]).Some? ==> Asks(ops[i]).value.1.drop
    ensures Kept(o, ops) == 0
    decreases |ops|
  {
    if ops == [] || !Legal(o, ops[0]) || Step(o, ops[0]).None? {
    } else {
      NoneKept(Step(o, ops[0]).value, ops[1..]);
    }
  }

  /** If every move gives the chunk it leaves back, the stack has as many chunks as before. */
  lemma DroppingKeepsLength(o: Stack, ops: seq<Op>, r: Stack)
    requires O.Inv(o) && Runs(o, ops, r)
    requires forall i :: 0 <= i < |ops| ==> !ops[i].Free?
    requires forall i :: 0 <= i < |ops| && Asks(ops[i]).Some? ==> Asks(ops[i]).value.1.drop
    ensures |r.chunks| == |o.chunks|
  {
    NoneKept(o, ops);
    ChainGrowsByKept(o, ops, r);
  }

  // ---- What is written ----

  /**
   Byte `p` is none of those that `op` may write: new bytes of the growing object or, if it moves,
   the new chunk without its header.
   */
  predicate Untouched(o: Stack, op: Op, p: nat) {
    if Asks(op).None? then true
    else
      var (len, a) := Asks(op).value;
      if Moves(o, op) then p < a.chunk.addr + 16 || a.chunk.limit <= p
      else p < o.next || o.next + len <= p || op.MakeRoom? || op.Blank? || op.Alloc?
  }

  lemma WriteAt(mem: seq<Byte>, p: nat, data: seq<Byte>, q: nat)
    requires p + |data| <= |mem| && q < |mem| && (q < p || p + |data| <= q)
    ensures O.Write(mem, p, data)[q] == mem[q]
  {
  }

  lemma MakeRoomWrites(o: Stack, len: int, a: O.Alloc, p: nat)
    requires O.Inv(o) && O.Served(o, len, a) && p < |o.mem|
    requires o.next + len > o.limit ==> p < a.chunk.addr + 16 || a.chunk.limit <= p
    ensures var r := O.MakeRoom(o, len, a); |r.mem| == |o.mem| && r.mem[p] == o.mem[p]
  {
    PtrAlignUp(a.chunk.addr + 16, o.mask);
    if O.NeedsRoom(o, len) {
      WriteAt(o.mem, O.First(a.chunk, o.mask), o.mem[o.base..o.next], p);
    }
  }

  /** Where the new bytes go: right behind the old ones, or inside the new chunk. */
  lemma RoomIsInside(o: Stack, len: nat, a: O.Alloc)
    requires O.Inv(o) && O.Served(o, len, a)
    ensures var m := O.MakeRoom(o, len, a);
      if o.next + len > o.limit then
        a.chunk.addr + 16 <= m.next && m.next + len <= a.chunk.limit
      else
        m.next == o.next
  {
    PtrAlignUp(a.chunk.addr + 16, o.mask);
  }

  lemma AppendWrites(m: Stack, data: seq<Byte>, p: nat)
    requires O.Bounds(m) && !O.NeedsRoom(m, |data|) && p < |m.mem|
    requires p < m.next || m.next + |data| <= p
    ensures var r := O.Append(m, data); |r.mem| == |m.mem| && r.mem[p] == m.mem[p]
  {
    WriteAt(m.mem, m.next, data, p);
  }

  lemma GrowWrites(o: Stack, data: seq<Byte>, a: O.Alloc, p: nat)
    requires O.Inv(o) && O.Served(o, |data|, a) && p < |o.mem| && Untouched(o, Grow(data, a), p)
    ensures var r := O.Grow(o, data, a); |r.mem| == |o.mem| && r.mem[p] == o.mem[p]
  {
    MakeRoomWrites(o, |data|, a, p);
    RoomIsInside(o, |data|, a);
    AppendWrites(O.MakeRoom(o, |data|, a), data, p);
  }

  lemma Grow0Writes(o: Stack, data: seq<Byte>, a: O.Alloc, p: nat)
    requires O.Inv(o) && O.Served(o, |data| + 1, a) && p < |o.mem| && Untouched(o, Grow0(data, a), p)
    ensures var r := O.Grow0(o, data, a); |r.mem| == |o.mem| && r.mem[p] == o.mem[p]
  {
    MakeRoomWrites(o, |data| + 1, a, p);
    RoomIsInside(o, |data| + 1, a);
    var m := O.MakeRoom(o, |data| + 1, a);
    AppendWrites(m, data, p);
    AppendWrites(O.Append(m, data), [0], p);
  }

  lemma RoomWrites(o: Stack, op: Op, p: nat)
    requires O.Inv(o) && Legal(o, op) && p < |o.mem| && Untouched(o, op, p)
    requires op.MakeRoom? || op.Blank? || op.Alloc?
    ensures var r := Step(o, op).value; |r.mem| == |o.mem| && r.mem[p] == o.mem[p]
  {
    MakeRoomWrites(o, op.len, op.a, p);
  }

  lemma BytesWrites(o: Stack, op: Op, p: nat)
    requires O.Inv(o) && Legal(o, op) && p < |o.mem| && Untouched(o, op, p)
    requires op.Grow? || op.Grow0? || op.Grow1? || op.Copy? || op.Copy0?
    ensures var r := Step(o, op).value; |r.mem| == |o.mem| && r.mem[p] == o.mem[p]
  {
    match op {
      case Grow(data, a) => GrowWrites(o, data, a, p);
      case Grow0(data, a) => Grow0Writes(o, data, a, p);
      case Grow1(ch, a) => GrowWrites(o, [ch], a, p);
      case Copy(data, a) => GrowWrites(o, data, a, p);
      case Copy0(data, a) => Grow0Writes(o, data, a, p);
    }
  }

  /**
   An operation writes nothing but the bytes it was given, at the end of the growing object; only
   a move writes elsewhere, inside the new chunk. Blanks, finishes and frees write nothing.
   */
  lemma StepWrites(o: Stack, op: Op, p: nat)
    requires O.Inv(o) && Legal(o, op) && p < |o.mem| && Untouched(o, op, p)
    ensures Step(o, op).Some?
    ensures var r := Step(o, op).value; |r.mem| == |o.mem| && r.mem[p] == o.mem[p]
  {
    if op.MakeRoom? || op.Blank? || op.Alloc? {
      RoomWrites(o, op, p);
    } else if op.Free? {
      O.FreeUnwinds(o, op.k);
    } else if !op.Finish? {
      BytesWrites(o, op, p);
    }
  }

  // ---- maybe_empty_object ----

  /** The current chunk holds an empty object. */
  predicate HasEmpty(o: Stack) {
    exists i :: 0 <= i < |o.objs| && o.objs[i].data == [] && o.objs[i].depth == |o.chunks| - 1
  }

  /** When the flag is up after `op`: it was and the chunk is still current, or `op` has put it up. */
  predicate FlagAfter(o: Stack, op: Op, r: Stack) {
    if op.Free? then
      r.maybeEmpty <==> o.maybeEmpty || |r.chunks| < |o.chunks|
    else
      r.maybeEmpty <==>
      || (o.maybeEmpty && !Moves(o, op))
      || (|r.objs| == |o.objs| + 1 && r.objs[|o.objs|].data == [])
  }

  lemma MakeRoomFlag(o: Stack, len: int, a: O.Alloc)
    requires O.Served(o, len, a)
    ensures O.MakeRoom(o, len, a).maybeEmpty <==> o.maybeEmpty && o.next + len <= o.limit
    ensures O.MakeRoom(o, len, a).objs == o.objs
  {
  }

  lemma FinishFlag(o: Stack)
    requires O.Inv(o)
    ensures var r := O.Finish(o);
      && |r.objs| == |o.objs| + 1
      && (r.maybeEmpty <==> o.maybeEmpty || r.objs[|o.objs|].data == [])
  {
    assert |o.grown| == o.next - o.base;
  }

  lemma AllocFlag(o: Stack, len: int, a: O.Alloc)
    requires O.Inv(o) && Legal(o, Alloc(len, a))
    ensures FlagAfter(o, Alloc(len, a), O.Finish(O.Blank(o, len, a)))
  {
    MakeRoomFlag(o, len, a);
    BlankKeeps(o, len, a);
    FinishFlag(O.Blank(o, len, a));
  }

  lemma CopyFlag(o: Stack, data: seq<Byte>, a: O.Alloc)
    requires O.Inv(o) && Legal(o, Copy(data, a))
    ensures FlagAfter(o, Copy(data, a), O.Finish(O.Grow(o, data, a)))
  {
    MakeRoomFlag(o, |data|, a);
    GrowKeeps(o, data, a);
    FinishFlag(O.Grow(o, data, a));
  }

  lemma Copy0Flag(o: Stack, data: seq<Byte>, a: O.Alloc)
    requires O.Inv(o) && Legal(o, Copy0(data, a))
    ensures FlagAfter(o, Copy0(data, a), O.Finish(O.Grow0(o, data, a)))
  {
    MakeRoomFlag(o, |data| + 1, a);
    Grow0Keeps(o, data, a);
    FinishFlag(O.Grow0(o, data, a));
  }

  /** The flag goes up only for an empty object or an unwound chunk, and down only with a new chunk. */
  lemma StepFlag(o: Stack, op: Op)
    requires O.Inv(o) && Legal(o, op)
    ensures Step(o, op).Some? && FlagAfter(o, op, Step(o, op).value)
  {
    match op {
      case Free(_, k) => O.FreeUnwinds(o, k);
      case Finish => FinishFlag(o);
      case Alloc(len, a) => AllocFlag(o, len, a);
      case Copy(data, a) => CopyFlag(o, data, a);
      case Copy0(data, a) => Copy0Flag(o, data, a);
      case _ => MakeRoomFlag(o, Asks(op).value.0, Asks(op).value.1);
    }
  }

  lemma EmptyRaisesFlag(o: Stack)
    requires O.Inv(o) && HasEmpty(o)
    ensures o.maybeEmpty
  {
    var i :| 0 <= i < |o.objs| && o.objs[i].data == [] && o.objs[i].depth == |o.chunks| - 1;
    assert O.GoodObj(o, o.objs[i]);
  }

  lemma LastIsCurrent(o: Stack, op: Op)
    requires Legal(o, op) && !op.Free?
    ensures var r := Step(o, op).value;
      |r.objs| == |o.objs| + 1 ==> r.objs[|o.objs|].depth == |r.chunks| - 1
  {
  }

  lemma FlagStaysExact(o: Stack, op: Op)
    requires O.Inv(o) && Legal(o, op) && !op.Free? && (o.maybeEmpty ==> HasEmpty(o))
    ensures Step(o, op).Some? && (Step(o, op).value.maybeEmpty ==> HasEmpty(Step(o, op).value))
  {
    StepFlag(o, op);
    StepChain(o, op);
    LastIsCurrent(o, op);
    if o.maybeEmpty && !Moves(o, op) {
      var i :| 0 <= i < |o.objs| && o.objs[i].data == [] && o.objs[i].depth == |o.chunks| - 1;
      StepSpares(o, op, i);
    }
  }

  /** Until something is freed, the flag says exactly whether the current chunk has an empty object. */
  lemma {:induction false} FlagIsExact(o: Stack, ops: seq<Op>, r: Stack)
    requires O.Inv(o) && Runs(o, ops, r) && (o.maybeEmpty ==> HasEmpty(o))
    requires forall i :: 0 <= i < |ops| ==> !ops[i].Free?
    ensures r.maybeEmpty <==> HasEmpty(r)
    decreases |ops|
  {
    if ops == [] {
      if HasEmpty(o) {
        EmptyRaisesFlag(o);
      }
    } else {
      StepKeeps(o, ops[0]);
      FlagStaysExact(o, ops[0]);
      FlagIsExact(Step(o, ops[0]).value, ops[1..], r);
    }
  }

}
