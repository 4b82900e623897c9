/** What an object stack guarantees over any sequence of operations. */
module ObstackRuns {
  import opened Common
  import opened Alignment
  import opened ObstackSteps
  import O = Obstack

  // ---- Whole runs ----

  predicate Runs(o: Stack, ops: seq<Op>, r: Stack)
    decreases |ops|
  {
    if ops == [] then r == o
    else
      && Legal(o, ops[0])
      && Step(o, ops[0]).Some?
      && Runs(Step(o, ops[0]).value, ops[1..], r)
  }

  ghost predicate PlainRuns(p: Plain, ops: seq<Op>, q: Plain)
    decreases |ops|
  {
    if ops == [] then q == p
    else exists m :: PlainStep(p, ops[0], m) && PlainRuns(m, ops[1..], q)
  }

  /** However often chunks change, the stack behaves like a plain stack of byte strings. */
  lemma {:induction false} RunRefinesPlain(o: Stack, ops: seq<Op>, r: Stack)
    requires O.Inv(o) && Runs(o, ops, r)
    ensures O.Inv(r) && PlainRuns(View(o), ops, View(r))
    decreases |ops|
  {
    if ops == [] {
    } else {
      StepKeeps(o, ops[0]);
      RunRefinesPlain(Step(o, ops[0]).value, ops[1..], r);
    }
  }

  // ---- The growing object ----

  predicate Grows(op: Op) {
    op.MakeRoom? || op.Grow? || op.Grow0? || op.Grow1? || op.Blank?
  }

  predicate OnlyGrows(ops: seq<Op>) {
    forall i :: 0 <= i < |ops| ==> Grows(ops[i])
  }

  function Known(s: seq<Byte>): seq<Option<Byte>> {
    seq(|s|, i requires 0 <= i < |s| => Some(s[i]))
  }

  function Unknown(n: nat): seq<Option<Byte>> {
    seq(n, _ => None)
  }

  /** What can be said of the growing object after `op`, byte by byte, if it was `w` before. */
  function Reshape(w: seq<Option<Byte>>, op: Op): seq<Option<Byte>> {
    match op
    case Grow(data, _) => w + Known(data)
    case Grow0(data, _) => w + Known(data + [0])
    case Grow1(ch, _) => w + Known([ch])
    case Blank(len, _) =>
      if len >= 0 then w + Unknown(len) else if 0 <= |w| + len then w[..|w| + len] else []
    case _ => w
  }

  function Shape(w: seq<Option<Byte>>, ops: seq<Op>): seq<Option<Byte>>
    decreases |ops|
  {
    if ops == [] then w else Shape(Reshape(w, ops[0]), ops[1..])
  }

  /** `s` has the length of `w` and every byte that `w` knows. */
  predicate Fits(s: seq<Byte>, w: seq<Option<Byte>>) {
    |s| == |w| && forall i :: 0 <= i < |w| ==> w[i] == None || w[i] == Some(s[i])
  }

  lemma StepFits(p: Plain, op: Op, q: Plain, w: seq<Option<Byte>>)
    requires PlainStep(p, op, q) && Grows(op) && Fits(p.growing, w)
    ensures Fits(q.growing, Reshape(w, op))
  {
  }

  lemma {:induction false} RunFits(p: Plain, ops: seq<Op>, q: Plain, w: seq<Option<Byte>>)
    requires PlainRuns(p, ops, q) && OnlyGrows(ops) && Fits(p.growing, w)
    ensures Fits(q.growing, Shape(w, ops))
    decreases |ops|
  {
    if ops == [] {
    } else {
      var m :| PlainStep(p, ops[0], m) && PlainRuns(m, ops[1..], q);
      StepFits(p, ops[0], m, w);
      RunFits(m, ops[1..], q, Reshape(w, ops[0]));
    }
  }

  /**
   Everything grown since the last finish stands at `object_base`, piece after piece, each at its
   offset, with arbitrary bytes in the blank gaps and without what a negative blank took back.
   */
  lemma GrowingIsContiguous(o: Stack, ops: seq<Op>, r: Stack, w: seq<Option<Byte>>)
    requires O.Inv(o) && Runs(o, ops, r) && OnlyGrows(ops)
    requires Fits(o.mem[o.base..o.next], w)
    ensures r.base <= r.next <= |r.mem| && Fits(r.mem[r.base..r.next], Shape(w, ops))
  {
    RunRefinesPlain(o, ops, r);
    RunFits(View(o), ops, View(r), w);
  }

  function Piece(op: Op): seq<Byte> {
    match op
    case Grow(data, _) => data
    case Grow0(data, _) => data + [0]
    case Grow1(ch, _) => [ch]
    case _ => []
  }

  /** What the grow operations of a run add up to. */
  function Pieces(ops: seq<Op>): seq<Byte> {
    if ops == [] then [] else Piece(ops[0]) + Pieces(ops[1..])
  }

  lemma KnownOfConcat(s: seq<Byte>, t: seq<Byte>)
    ensures Known(s) + Known(t) == Known(s + t)
  {
  }

  lemma ReshapeOfPiece(s: seq<Byte>, op: Op)
    requires Grows(op) && !op.Blank?
    ensures Reshape(Known(s), op) == Known(s + Piece(op))
  {
    KnownOfConcat(s, Piece(op));
    assert op.MakeRoom? ==> s + Piece(op) == s;
  }

  lemma PiecesAfter(s: seq<Byte>, ops: seq<Op>)
    requires ops != []
    ensures s + Piece(ops[0]) + Pieces(ops[1..]) == s + Pieces(ops)
  {
  }

  lemma {:induction false} ShapeOfPieces(s: seq<Byte>, ops: seq<Op>)
    requires OnlyGrows(ops) && forall i :: 0 <= i < |ops| ==> !ops[i].Blank?
    ensures Shape(Known(s), ops) == Known(s + Pieces(ops))
    decreases |ops|
  {
    if ops == [] {
      assert s + [] == s;
    } else {
      ReshapeOfPiece(s, ops[0]);
      ShapeOfPieces(s + Piece(ops[0]), ops[1..]);
      PiecesAfter(s, ops);
    }
  }

  /** Without blanks the bytes at `object_base` are the concatenation of everything grown. */
  lemma GrowingIsConcatenation(o: Stack, ops: seq<Op>, r: Stack)
    requires O.Inv(o) && Runs(o, ops, r)
    requires OnlyGrows(ops) && forall i :: 0 <= i < |ops| ==> !ops[i].Blank?
    ensures r.base <= r.next <= |r.mem|
    ensures r.mem[r.base..r.next] == o.mem[o.base..o.next] + Pieces(ops)
  {
    var s := o.mem[o.base..o.next];
    GrowingIsContiguous(o, ops, r, Known(s));
    ShapeOfPieces(s, ops);
    var t, w := r.mem[r.base..r.next], Known(s + Pieces(ops));
    forall i | 0 <= i < |t|
      ensures t[i] == (s + Pieces(ops))[i]
    {
      assert w[i] == Some((s + Pieces(ops))[i]);
    }
  }

  // ---- Finished objects ----

  /** `op` does not free object `i` or an older one. */
  predicate Spares(op: Op, i: nat) {
    op.Free? ==> op.k > i
  }

  /** Object `i`, and the chunks up to its own, are the same in both states. */
  predicate SameObject(o: Stack, r: Stack, i: nat)
    requires i < |o.objs|
  {
    && i < |r.objs| && r.objs[i] == o.objs[i]
    && var n := o.objs[i].depth + 1;
    && n <= |o.chunks| && n <= |r.chunks| && r.chunks[..n] == o.chunks[..n]
    && r.mask == o.mask
  }

  lemma MakeRoomSpares(o: Stack, len: int, a: O.Alloc, i: nat)
    requires O.Inv(o) && O.Served(o, len, a) && i < |o.objs|
    ensures SameObject(o, O.MakeRoom(o, len, a), i)
  {
    assert O.GoodObj(o, o.objs[i]);
    if O.NeedsRoom(o, len) && a.drop {
      O.DropsNoObject(o, i);
    }
  }

  lemma FinishSpares(o: Stack, m: Stack, i: nat)
    requires i < |o.objs| && O.Bounds(m) && SameObject(o, m, i)
    ensures SameObject(o, O.Finish(m), i)
  {
  }

  lemma GrowthSpares(o: Stack, op: Op, i: nat)
    requires O.Inv(o) && Legal(o, op) && i < |o.objs| && Grows(op)
    ensures SameObject(o, Step(o, op).value, i)
  {
    match op {
      case MakeRoom(len, a) => MakeRoomSpares(o, len, a, i);
      case Grow(data, a) => MakeRoomSpares(o, |data|, a, i);
      case Grow0(data, a) => MakeRoomSpares(o, |data| + 1, a, i);
      case Grow1(ch, a) => MakeRoomSpares(o, 1, a, i);
      case Blank(len, a) => MakeRoomSpares(o, len, a, i);
    }
  }

  lemma FreeSpares(o: Stack, addr: nat, k: nat, i: nat)
    requires O.Inv(o) && Legal(o, Free(addr, k)) && i < k
    ensures O.Free(o, addr, k).Some? && SameObject(o, O.Free(o, addr, k).value, i)
  {
    O.FreeUnwinds(o, k);
    assert O.GoodObj(o, o.objs[i]) && O.Ordered(o.objs[i], o.objs[k]);
  }

  lemma FinishedSpares(o: Stack, op: Op, i: nat)
    requires O.Inv(o) && Legal(o, op) && i < |o.objs| && (op.Alloc? || op.Copy? || op.Copy0?)
    ensures SameObject(o, Step(o, op).value, i)
  {
    match op {
      case Alloc(len, a) =>
        GrowthSpares(o, Blank(len, a), i);
        FinishSpares(o, O.Blank(o, len, a), i);
      case Copy(data, a) =>
        GrowthSpares(o, Grow(data, a), i);
        FinishSpares(o, O.Grow(o, data, a), i);
      case Copy0(data, a) =>
        GrowthSpares(o, Grow0(data, a), i);
        FinishSpares(o, O.Grow0(o, data, a), i);
    }
  }

  lemma StepSpares(o: Stack, op: Op, i: nat)
    requires O.Inv(o) && Legal(o, op) && i < |o.objs| && Spares(op, i)
    ensures Step(o, op).Some? && SameObject(o, Step(o, op).value, i)
  {
    match op {
      case Finish =>
        assert O.GoodObj(o, o.objs[i]);
        FinishSpares(o, o, i);
      case Free(addr, k) => FreeSpares(o, addr, k, i);
      case _ =>
        if Grows(op) {
          GrowthSpares(o, op, i);
        } else {
          FinishedSpares(o, op, i);
        }
    }
  }

  lemma FirstStep(o: Stack, ops: seq<Op>, r: Stack, i: nat) returns (m: Stack)
    requires O.Inv(o) && ops != [] && Runs(o, ops, r) && i < |o.objs| && Spares(ops[0], i)
    ensures O.Inv(m) && Runs(m, ops[1..], r) && SameObject(o, m, i)
  {
    m := Step(o, ops[0]).value;
    StepKeeps(o, ops[0]);
    StepSpares(o, ops[0], i);
  }

  lemma SameObjectIsTransitive(o: Stack, m: Stack, r: Stack, i: nat)
    requires i < |o.objs| && SameObject(o, m, i) && SameObject(m, r, i)
    ensures SameObject(o, r, i)
  {
  }

  lemma {:induction false} RunSpares(o: Stack, ops: seq<Op>, r: Stack, i: nat)
    requires O.Inv(o) && Runs(o, ops, r) && i < |o.objs|
    requires forall j :: 0 <= j < |ops| ==> Spares(ops[j], i)
    ensures O.Inv(r) && SameObject(o, r, i)
    decreases |ops|
  {
    if ops == [] {
      assert O.GoodObj(o, o.objs[i]);
    } else {
      var m := FirstStep(o, ops, r, i);
      RunSpares(m, ops[1..], r, i);
      SameObjectIsTransitive(o, m, r, i);
    }
  }

  /** A finished object never moves and never changes, until it or an older one is freed. */
  lemma ObjectsStay(o: Stack, ops: seq<Op>, r: Stack, i: nat)
    requires O.Inv(o) && Runs(o, ops, r) && i < |o.objs|
    requires forall j :: 0 <= j < |ops| ==> Spares(ops[j], i)
    ensures i < |r.objs| && r.objs[i] == o.objs[i]
    ensures var x := o.objs[i];
      x.addr + |x.data| <= |r.mem| && r.mem[x.addr..x.addr + |x.data|] == x.data
  {
    RunSpares(o, ops, r, i);
    assert O.GoodObj(r, r.objs[i]);
  }

  /** `object_base` and `next_free` never leave the current chunk. */
  lemma PointersInChunk(o: Stack, ops: seq<Op>, r: Stack)
    requires O.Inv(o) && Runs(o, ops, r)
    ensures r.chunks != []
    ensures var c := r.chunks[|r.chunks| - 1];
      c.addr + O.CONTENTS <= r.base <= r.next <= r.limit == c.limit <= |r.mem|
  {
    RunRefinesPlain(o, ops, r);
    PtrAlignUp(r.chunks[|r.chunks| - 1].addr + O.CONTENTS, r.mask);
  }

  /** A finished object lies in its chunk, clear of the growing one, and is aligned unless empty. */
  lemma ObjectInPlace(o: Stack, i: nat)
    requires O.Inv(o) && i < |o.objs|
    ensures var x := o.objs[i];
      && x.depth < |o.chunks|
      && o.chunks[x.depth].addr + O.CONTENTS <= x.addr
      && x.addr + |x.data| <= o.chunks[x.depth].limit
      && (x.data != [] ==>
            Aligned(x.addr, o.mask) && (x.addr + |x.data| <= o.base || o.next <= x.addr))
  {
    var x := o.objs[i];
    var n := |o.chunks| - 1;
    assert O.GoodObj(o, x) && O.GoodChunk(o, o.chunks[x.depth]) && O.GoodChunk(o, o.chunks[n]);
    PtrAlignUp(o.chunks[x.depth].addr + O.CONTENTS, o.mask);
    assert x.depth < n ==> O.Disjoint(o.chunks[x.depth], o.chunks[n]);
  }

  /** Finished objects do not overlap. */
  lemma ObjectsApart(o: Stack, i: nat, j: nat)
    requires O.Inv(o) && i < j < |o.objs| && o.objs[i].data != [] && o.objs[j].data != []
    ensures var x, y := o.objs[i], o.objs[j];
      x.addr + |x.data| <= y.addr || y.addr + |y.data| <= x.addr
  {
    var x, y := o.objs[i], o.objs[j];
    assert O.Ordered(x, y);
    if x.depth < y.depth {
      ObjectInPlace(o, i);
      ObjectInPlace(o, j);
      assert O.Disjoint(o.chunks[x.depth], o.chunks[y.depth]);
    }
  }

  /**
   Not every finished object is aligned: the clamp in `obstack_finish` can leave `object_base` at an
   unaligned end of the chunk. That is the only way, and such an object is empty.
   */
  lemma UnalignedExactlyAtLimit(o: Stack)
    requires O.Inv(o)
    ensures var x := O.Finish(o).objs[|o.objs|];
      && (!Aligned(x.addr, o.mask) <==> o.base == o.limit && !Aligned(o.limit, o.mask))
      && (!Aligned(x.addr, o.mask) ==> x.data == [])
  {
    assert |o.grown| == o.next - o.base;
  }

  /** Filling any chunk that ends unaligned, and then allocating nothing, gives such an object. */
  lemma EmptyObjectIsUnaligned(o: Stack, a: O.Alloc)
    requires O.Inv(o) && !Aligned(o.limit, o.mask)
    ensures O.Served(o, o.limit - o.next, a)
    ensures var full := O.Finish(O.Blank(o, o.limit - o.next, a));
      O.Bounds(full)
      && var x := O.Finish(full).objs[|o.objs| + 1];
         x.data == [] && x.addr == o.limit && !Aligned(x.addr, o.mask)
  {
    BlankKeeps(o, o.limit - o.next, a);
    var b := O.Blank(o, o.limit - o.next, a);
    PtrAlignUp(b.next, b.mask);
    O.FinishKeeps(b);
  }

  /** A chunk can end unaligned: 21 bytes from address 16, for objects aligned to 4. */
  lemma ChunkMayEndUnaligned(mem: seq<Byte>)
    requires |mem| == 37
    ensures Aligned(16, 3) && O.Inv(O.Begin(mem, O.Chunk(16, 37), 3)) && !Aligned(37, 3)
  {
    assert 3 + 1 == Pow2(2);
    PtrAlignUp(32, 3);
    O.BeginIsGood(mem, O.Chunk(16, 37), 3);
  }

  /** What freeing restores: the whole stack below object `k`. */
  predicate SameBelow(x: Stack, y: Stack) {
    && x.chunks == y.chunks && x.base == y.base && x.next == y.next && x.limit == y.limit
    && x.mask == y.mask && x.objs == y.objs && x.grown == y.grown
  }

  lemma UnwoundAlike(o: Stack, r: Stack, k: nat)
    requires k < |o.objs| && SameObject(o, r, k) && r.objs[..k] == o.objs[..k]
    ensures SameBelow(O.Unwound(r, k), O.Unwound(o, k))
  {
    var d := o.objs[k].depth;
    assert r.chunks[d] == r.chunks[..d + 1][d] == o.chunks[..d + 1][d];
  }

  /**
   Freeing object `k` unwinds exactly: whatever was done since, it leaves the stack as if the object
   had been freed at once, with all older objects in place.
   */
  lemma FreeUndoes(o: Stack, ops: seq<Op>, r: Stack, k: nat)
    requires O.Inv(o) && Runs(o, ops, r) && k < |o.objs|
    requires forall j :: 0 <= j < |ops| ==> Spares(ops[j], k)
    ensures k < |r.objs| && O.Bounds(r) && r.objs[k] == o.objs[k]
    ensures var p := o.objs[k].addr;
      && var x, y := O.Free(r, p, k), O.Free(o, p, k);
      && x.Some? && y.Some? && SameBelow(x.value, y.value)
      && O.Inv(x.value) && x.value.objs == o.objs[..k]
  {
    RunSpares(o, ops, r, k);
    forall i | 0 <= i < k
      ensures r.objs[i] == o.objs[i]
    {
      RunSpares(o, ops, r, i);
    }
    UnwoundAlike(o, r, k);
    O.FreeUnwinds(o, k);
    O.FreeUnwinds(r, k);
    O.FreeKeeps(r, k);
  }

  /** The address of a freed object is handed out again by the next allocation that fits. */
  lemma FreedSpaceIsReused(o: Stack, k: nat, len: nat, a: O.Alloc)
    requires O.Inv(o) && k < |o.objs|
    ensures var p := o.objs[k].addr;
      && var x := O.Free(o, p, k);
      && x.Some? && O.Bounds(x.value)
      && (!O.NeedsRoom(x.value, len) ==>
            && Legal(x.value, Alloc(len, a)) && Step(x.value, Alloc(len, a)).Some?
            && var y := Step(x.value, Alloc(len, a)).value;
               |y.objs| == k + 1 && y.objs[k].addr == p && |y.objs[k].data| == len)
  {
    O.FreeUnwinds(o, k);
    O.FreeKeeps(o, k);
  }

}
