/**
 The object stack of obstack.h over a flat memory: what each macro does, as a function on values.

 `_obstack_newchunk` and the out-of-line `obstack_free` are only declared in the header. They are
 modelled by what its comments say: a burst object is copied to the start of a new, larger chunk; a
 chunk holding nothing but that object may be given back, unless it may hold an empty object; and
 freeing unwinds chunk by chunk until the chunk of the object is found.
 */
module Obstack {
  import opened Common
  import opened Alignment

  /** One past the `limit` and `prev` fields at the front of a chunk. */
  const CONTENTS: nat := 16

  datatype Chunk = Chunk(addr: nat, limit: nat)

  /** A finished object; `depth` is the position of its chunk in the chain, bottom first. */
  datatype Obj = Obj(addr: nat, data: seq<Byte>, depth: nat)

  /** `struct obstack` with the memory it lives in; the last chunk is the current one. */
  datatype Stack = Stack(
    mem: seq<Byte>,
    chunks: seq<Chunk>,
    base: nat, next: nat, limit: nat,
    mask: nat,
    maybeEmpty: bool,
    // History: the finished objects, oldest first, and everything grown since the last finish.
    objs: seq<Obj>, grown: seq<Byte>)

  /** The block the chunk function returns, and whether the replaced chunk is given back. */
  datatype Alloc = Alloc(chunk: Chunk, drop: bool)

  /** Where the first object of a chunk starts. */
  function First(c: Chunk, mask: nat): nat {
    PtrAlign(c.addr + CONTENTS, mask)
  }

  /** `memcpy` */
  function Write(mem: seq<Byte>, p: nat, data: seq<Byte>): (r: seq<Byte>)
    requires p + |data| <= |mem|
    ensures |r| == |mem| && r[p..p + |data|] == data
  {
    mem[..p] + data + mem[p + |data|..]
  }

  predicate Disjoint(c: Chunk, d: Chunk) {
    c.limit <= d.addr || d.limit <= c.addr
  }

  /** What a chunk function must return for an object of the current size plus `len`. */
  predicate Fresh(o: Stack, len: nat, c: Chunk) {
    && 0 < c.addr && o.base <= o.next
    && First(c, o.mask) + (o.next - o.base) + len <= c.limit <= |o.mem|
    && forall i :: 0 <= i < |o.chunks| ==> Disjoint(o.chunks[i], c)
  }

  /** The current chunk holds nothing but the growing object, as far as the stack can tell. */
  predicate MayDrop(o: Stack)
    requires o.chunks != []
  {
    !o.maybeEmpty && o.base == First(o.chunks[|o.chunks| - 1], o.mask)
  }

  predicate Bounds(o: Stack) {
    o.chunks != [] && o.base <= o.next <= o.limit <= |o.mem|
  }

  predicate NeedsRoom(o: Stack, len: int) {
    o.next + len > o.limit
  }

  /** The outside world does its part if a new chunk is needed for `len` more bytes. */
  predicate Served(o: Stack, len: int, a: Alloc) {
    && Bounds(o)
    && (NeedsRoom(o, len) ==> Fresh(o, len, a.chunk) && (a.drop ==> MayDrop(o)))
  }

  /** A negative `len` takes no more than the growing object has. */
  predicate CanResize(o: Stack, len: int) {
    o.base <= o.next + len && 0 <= |o.grown| + len
  }

  // ---- The macros ----

  /** `_obstack_newchunk` */
  function NewChunk(o: Stack, len: nat, a: Alloc): Stack
    requires Bounds(o) && Fresh(o, len, a.chunk)
  {
    var first := First(a.chunk, o.mask);
    o.(mem := Write(o.mem, first, o.mem[o.base..o.next]),
       chunks := (if a.drop then o.chunks[..|o.chunks| - 1] else o.chunks) + [a.chunk],
       base := first, next := first + (o.next - o.base), limit := a.chunk.limit,
       maybeEmpty := false)
  }

  /** `obstack_make_room` */
  function MakeRoom(o: Stack, len: int, a: Alloc): (r: Stack)
    requires Served(o, len, a)
    ensures Bounds(r) && !NeedsRoom(r, len) && r.grown == o.grown && r.next - r.base == o.next - o.base
  {
    if NeedsRoom(o, len) then NewChunk(o, len, a) else o
  }

  /** The copy at the end of `obstack_grow`. */
  function Append(o: Stack, data: seq<Byte>): Stack
    requires Bounds(o) && !NeedsRoom(o, |data|)
  {
    o.(mem := Write(o.mem, o.next, data), next := o.next + |data|, grown := o.grown + data)
  }

  /** `obstack_grow` */
  function Grow(o: Stack, data: seq<Byte>, a: Alloc): Stack
    requires Served(o, |data|, a)
  {
    Append(MakeRoom(o, |data|, a), data)
  }

  /** `obstack_grow0` */
  function Grow0(o: Stack, data: seq<Byte>, a: Alloc): Stack
    requires Served(o, |data| + 1, a)
  {
    Append(Append(MakeRoom(o, |data| + 1, a), data), [0])
  }

  /**
   `obstack_blank_fast`: new bytes hold whatever the memory held, and a negative length gives bytes
   of the growing object up again.
   */
  function Skip(o: Stack, len: int): Stack
    requires Bounds(o) && !NeedsRoom(o, len) && CanResize(o, len)
  {
    o.(next := o.next + len,
       grown := if len < 0 then o.grown[..|o.grown| + len] else o.grown + o.mem[o.next..o.next + len])
  }

  /** `obstack_blank` */
  function Blank(o: Stack, len: int, a: Alloc): Stack
    requires Served(o, len, a) && CanResize(o, len)
  {
    Skip(MakeRoom(o, len, a), len)
  }

  /** `obstack_finish`; the object it returns is the last one of `objs`. */
  function Finish(o: Stack): Stack
    requires Bounds(o)
  {
    var up := PtrAlign(o.next, o.mask);
    var end := if up > o.limit then o.limit else up;
    o.(maybeEmpty := o.maybeEmpty || o.next == o.base, next := end, base := end,
       objs := o.objs + [Obj(o.base, o.grown, |o.chunks| - 1)], grown := [])
  }

  /**
   The out-of-line `obstack_free`: gives chunks back until it finds the one with `p`. None: it has
   given all of them back.
   */
  function Unwind(o: Stack, p: nat): Option<Stack>
    decreases |o.chunks|
  {
    if o.chunks == [] then None
    else
      var c := o.chunks[|o.chunks| - 1];
      if c.addr < p <= c.limit then Some(o.(base := p, next := p, limit := c.limit))
      else Unwind(o.(chunks := o.chunks[..|o.chunks| - 1], maybeEmpty := true), p)
  }

  /** `obstack_free` of address `p`, which leaves the `k` oldest objects and no growing one. */
  function Free(o: Stack, p: nat, k: nat): Option<Stack>
    requires Bounds(o) && k <= |o.objs|
  {
    var left := o.(objs := o.objs[..k], grown := []);
    if o.chunks[|o.chunks| - 1].addr < p < o.limit then Some(left.(base := p, next := p))
    else Unwind(left, p)
  }

  // ---- The invariant ----

  predicate GoodChunk(o: Stack, c: Chunk) {
    0 < c.addr && c.addr < First(c, o.mask) <= c.limit <= |o.mem|
  }

  /** The `i`-th object lies in its chunk, keeps its bytes, and is aligned unless it is empty. */
  predicate GoodObj(o: Stack, x: Obj) {
    && x.depth < |o.chunks|
    && var c := o.chunks[x.depth];
    && First(c, o.mask) <= x.addr && x.addr + |x.data| <= c.limit <= |o.mem|
    && o.mem[x.addr..x.addr + |x.data|] == x.data
    && (Aligned(x.addr, o.mask) || x.addr == c.limit)
    && (x.depth == |o.chunks| - 1 ==> x.addr + |x.data| <= o.base && (x.data == [] ==> o.maybeEmpty))
  }

  predicate Ordered(x: Obj, y: Obj) {
    x.depth < y.depth || (x.depth == y.depth && x.addr + |x.data| <= y.addr)
  }

  ghost predicate Inv(o: Stack) {
    && IsMask(o.mask) && Bounds(o)
    && o.limit == o.chunks[|o.chunks| - 1].limit
    && First(o.chunks[|o.chunks| - 1], o.mask) <= o.base
    && (Aligned(o.base, o.mask) || o.base == o.limit)
    && o.mem[o.base..o.next] == o.grown
    && (forall i :: 0 <= i < |o.chunks| ==> GoodChunk(o, o.chunks[i]))
    && (forall i, j :: 0 <= i < j < |o.chunks| ==> Disjoint(o.chunks[i], o.chunks[j]))
    && (forall i :: 0 <= i < |o.objs| ==> GoodObj(o, o.objs[i]))
    && (forall i, j :: 0 <= i < j < |o.objs| ==> Ordered(o.objs[i], o.objs[j]))
  }

  // ---- Where objects start ----

  /** `p` is the first aligned address from `lo` on. */
  ghost predicate LeastAligned(p: nat, lo: nat, mask: nat) {
    lo <= p && Aligned(p, mask) && forall q: nat :: lo <= q && Aligned(q, mask) ==> p <= q
  }

  /** `r` starts its next object right after the growing object of `o`, aligned if the chunk allows. */
  ghost predicate StartsAfter(o: Stack, r: Stack) {
    && r.next == r.base && r.limit == o.limit && o.next <= r.base <= o.limit
    && (forall q: nat :: o.next <= q <= o.limit && Aligned(q, o.mask) ==>
          r.base <= q && Aligned(r.base, o.mask))
    && (Aligned(r.base, o.mask) || r.base == o.limit)
  }

  lemma FinishStartsAfter(o: Stack)
    requires IsMask(o.mask) && Bounds(o)
    ensures StartsAfter(o, Finish(o))
  {
    AlignIsLeast(0, o.next, o.mask);
  }

  // ---- Memory ----

  lemma WriteElsewhere(mem: seq<Byte>, p: nat, data: seq<Byte>, lo: nat, hi: nat)
    requires p + |data| <= |mem| && lo <= hi <= |mem| && (hi <= p || p + |data| <= lo)
    ensures Write(mem, p, data)[lo..hi] == mem[lo..hi]
  {
    var r := Write(mem, p, data);
    forall i | lo <= i < hi
      ensures r[i] == mem[i]
    {
    }
  }

  /** A write outside the chunks of all objects, or above them, changes no object. */
  lemma ObjSurvivesWrite(o: Stack, x: Obj, p: nat, data: seq<Byte>, d: Chunk)
    requires GoodObj(o, x) && p + |data| <= |o.mem|
    requires d.addr <= p && p + |data| <= d.limit
    requires Disjoint(o.chunks[x.depth], d) || x.addr + |x.data| <= p
    requires o.chunks[x.depth].addr <= First(o.chunks[x.depth], o.mask)
    ensures Write(o.mem, p, data)[x.addr..x.addr + |x.data|] == x.data
  {
    if x.data == [] {
    } else {
      WriteElsewhere(o.mem, p, data, x.addr, x.addr + |x.data|);
    }
  }

  // ---- Every macro keeps the invariant ----

  /** A stack as `_obstack_begin` must leave it: one chunk, nothing in it. */
  function Begin(mem: seq<Byte>, c: Chunk, mask: nat): Stack {
    Stack(mem, [c], First(c, mask), First(c, mask), c.limit, mask, false, [], [])
  }

  lemma BeginIsGood(mem: seq<Byte>, c: Chunk, mask: nat)
    requires IsMask(mask) && 0 < c.addr && First(c, mask) <= c.limit <= |mem|
    ensures Inv(Begin(mem, c, mask))
  {
    PtrAlignUp(c.addr + CONTENTS, mask);
  }

  /** A chunk that may be given back holds no finished object, not even an empty one. */
  lemma DropsNoObject(o: Stack, i: nat)
    requires Inv(o) && MayDrop(o) && i < |o.objs|
    ensures o.objs[i].depth < |o.chunks| - 1
  {
    assert GoodObj(o, o.objs[i]);
  }

  lemma BytesSurviveNewChunk(o: Stack, len: nat, a: Alloc, i: nat)
    requires Inv(o) && Fresh(o, len, a.chunk) && i < |o.objs|
    ensures var x, r := o.objs[i], NewChunk(o, len, a);
      x.addr + |x.data| <= |r.mem| && r.mem[x.addr..x.addr + |x.data|] == x.data
  {
    var x := o.objs[i];
    PtrAlignUp(a.chunk.addr + CONTENTS, o.mask);
    assert GoodObj(o, x) && GoodChunk(o, o.chunks[x.depth]);
    ObjSurvivesWrite(o, x, First(a.chunk, o.mask), o.mem[o.base..o.next], a.chunk);
  }

  lemma ObjSurvivesNewChunk(o: Stack, len: nat, a: Alloc, i: nat)
    requires Inv(o) && Fresh(o, len, a.chunk) && (a.drop ==> MayDrop(o)) && i < |o.objs|
    ensures GoodObj(NewChunk(o, len, a), o.objs[i])
  {
    var r, x := NewChunk(o, len, a), o.objs[i];
    BytesSurviveNewChunk(o, len, a, i);
    assert GoodObj(o, x);
    if a.drop {
      DropsNoObject(o, i);
    }
    assert r.chunks[x.depth] == o.chunks[x.depth];
  }

  lemma ChunksSurviveNewChunk(o: Stack, len: nat, a: Alloc)
    requires Inv(o) && Fresh(o, len, a.chunk)
    ensures var r := NewChunk(o, len, a);
      && (forall i :: 0 <= i < |r.chunks| ==> GoodChunk(r, r.chunks[i]))
      && (forall i, j :: 0 <= i < j < |r.chunks| ==> Disjoint(r.chunks[i], r.chunks[j]))
  {
    PtrAlignUp(a.chunk.addr + CONTENTS, o.mask);
    var r := NewChunk(o, len, a);
    forall i | 0 <= i < |r.chunks|
      ensures GoodChunk(r, r.chunks[i])
    {
      assert i < |o.chunks| ==> GoodChunk(o, o.chunks[i]);
    }
  }

  lemma NewChunkKeeps(o: Stack, len: nat, a: Alloc)
    requires Inv(o) && Fresh(o, len, a.chunk) && (a.drop ==> MayDrop(o))
    ensures Inv(NewChunk(o, len, a))
  {
    PtrAlignUp(a.chunk.addr + CONTENTS, o.mask);
    ChunksSurviveNewChunk(o, len, a);
    forall i | 0 <= i < |o.objs|
      ensures GoodObj(NewChunk(o, len, a), o.objs[i])
    {
      ObjSurvivesNewChunk(o, len, a, i);
    }
  }

  lemma MakeRoomKeeps(o: Stack, len: int, a: Alloc)
    requires Inv(o) && Served(o, len, a)
    ensures var r := MakeRoom(o, len, a);
      Inv(r) && !NeedsRoom(r, len) && r.objs == o.objs && r.grown == o.grown
  {
    if NeedsRoom(o, len) {
      NewChunkKeeps(o, len, a);
    }
  }

  lemma ObjSurvivesAppend(o: Stack, data: seq<Byte>, i: nat)
    requires Inv(o) && !NeedsRoom(o, |data|) && i < |o.objs|
    ensures GoodObj(Append(o, data), o.objs[i])
  {
    assert GoodObj(o, o.objs[i]) && GoodChunk(o, o.chunks[o.objs[i].depth]);
    ObjSurvivesWrite(o, o.objs[i], o.next, data, o.chunks[|o.chunks| - 1]);
  }

  lemma AppendKeeps(o: Stack, data: seq<Byte>)
    requires Inv(o) && !NeedsRoom(o, |data|)
    ensures Inv(Append(o, data))
  {
    var r := Append(o, data);
    assert r.mem[o.base..r.next] == o.grown + data by {
      WriteElsewhere(o.mem, o.next, data, o.base, o.next);
      assert r.mem[o.base..r.next] == r.mem[o.base..o.next] + r.mem[o.next..r.next];
    }
    forall i | 0 <= i < |r.objs|
      ensures GoodObj(r, r.objs[i])
    {
      ObjSurvivesAppend(o, data, i);
    }
  }

  lemma SkipKeeps(o: Stack, len: int)
    requires Inv(o) && !NeedsRoom(o, len) && CanResize(o, len)
    ensures Inv(Skip(o, len))
  {
    var r := Skip(o, len);
    assert r.mem[r.base..r.next] == r.grown by {
      assert len >= 0 ==> r.mem[r.base..r.next] == o.mem[o.base..o.next] + o.mem[o.next..r.next];
      assert len < 0 ==> r.mem[r.base..r.next] == o.mem[o.base..o.next][..|o.grown| + len];
    }
    forall i | 0 <= i < |r.objs|
      ensures GoodObj(r, r.objs[i])
    {
      assert GoodObj(o, o.objs[i]);
    }
  }

  lemma ObjSurvivesFinish(o: Stack, i: nat)
    requires Inv(o) && i <= |o.objs|
    ensures GoodObj(Finish(o), Finish(o).objs[i])
  {
    PtrAlignUp(o.next, o.mask);
    assert i < |o.objs| ==> GoodObj(o, o.objs[i]);
  }

  lemma FinishKeeps(o: Stack)
    requires Inv(o)
    ensures Inv(Finish(o))
  {
    PtrAlignUp(o.next, o.mask);
    var r := Finish(o);
    forall i | 0 <= i < |r.objs|
      ensures GoodObj(r, r.objs[i])
    {
      ObjSurvivesFinish(o, i);
    }
    forall i, j | 0 <= i < j < |r.objs|
      ensures Ordered(r.objs[i], r.objs[j])
    {
      assert GoodObj(o, o.objs[i]);
    }
  }

  // ---- Unwinding ----

  /** The state after `obstack_free`, however it was computed. */
  function Unwound(o: Stack, k: nat): Stack
    requires k < |o.objs| && o.objs[k].depth < |o.chunks|
  {
    var Obj(p, _, d) := o.objs[k];
    o.(chunks := o.chunks[..d + 1], base := p, next := p, limit := o.chunks[d].limit,
       maybeEmpty := o.maybeEmpty || d + 1 < |o.chunks|, objs := o.objs[..k], grown := [])
  }

  lemma {:induction false} UnwindFinds(o: Stack, p: nat, d: nat)
    requires d < |o.chunks| && o.chunks[d].addr < p <= o.chunks[d].limit
    requires forall i, j :: 0 <= i < j < |o.chunks| ==> Disjoint(o.chunks[i], o.chunks[j])
    ensures Unwind(o, p) ==
            Some(o.(chunks := o.chunks[..d + 1], base := p, next := p, limit := o.chunks[d].limit,
                    maybeEmpty := o.maybeEmpty || d + 1 < |o.chunks|))
    decreases |o.chunks|
  {
    var n := |o.chunks| - 1;
    if d == n {
      assert o.chunks[..d + 1] == o.chunks;
    } else {
      assert Disjoint(o.chunks[d], o.chunks[n]);
      var below := o.(chunks := o.chunks[..n], maybeEmpty := true);
      UnwindFinds(below, p, d);
      assert below.chunks[..d + 1] == o.chunks[..d + 1];
    }
  }

  /** Some chunk contains `p`, or ends at it. */
  predicate Covered(chunks: seq<Chunk>, p: nat) {
    exists i :: 0 <= i < |chunks| && chunks[i].addr < p <= chunks[i].limit
  }

  lemma {:induction false} UnwindFindsExactly(o: Stack, p: nat)
    ensures Unwind(o, p).Some? <==> Covered(o.chunks, p)
    decreases |o.chunks|
  {
    if o.chunks == [] {
    } else {
      var n := |o.chunks| - 1;
      UnwindFindsExactly(o.(chunks := o.chunks[..n], maybeEmpty := true), p);
      assert o.chunks == o.chunks[..n] + [o.chunks[n]];
    }
  }

  /** Freeing any address at all fails exactly when no chunk covers it; NULL is such an address. */
  lemma FreeFailsExactly(o: Stack, p: nat, k: nat)
    requires Inv(o) && k <= |o.objs|
    ensures Free(o, p, k).None? <==> !Covered(o.chunks, p)
  {
    UnwindFindsExactly(o.(objs := o.objs[..k], grown := []), p);
  }

  /** The address of a live object lies in its chunk or at its end, and in no later chunk. */
  lemma ObjIsCovered(o: Stack, k: nat)
    requires Inv(o) && k < |o.objs|
    ensures var Obj(p, _, d) := o.objs[k]; var n := |o.chunks| - 1;
      && GoodObj(o, o.objs[k]) && o.chunks[d].addr < p <= o.chunks[d].limit
      && (d < n ==> !(o.chunks[n].addr < p < o.limit))
  {
    var Obj(p, _, d) := o.objs[k];
    var n := |o.chunks| - 1;
    assert GoodObj(o, o.objs[k]) && GoodChunk(o, o.chunks[d]);
    assert d < n ==> Disjoint(o.chunks[d], o.chunks[n]);
  }

  /**
   Both paths of the macro agree: the range test in the current chunk is a shortcut for the
   search, and freeing a live object never aborts.
   */
  lemma FreeUnwinds(o: Stack, k: nat)
    requires Inv(o) && k < |o.objs|
    ensures GoodObj(o, o.objs[k]) && Free(o, o.objs[k].addr, k) == Some(Unwound(o, k))
  {
    var Obj(p, _, d) := o.objs[k];
    ObjIsCovered(o, k);
    UnwindFinds(o.(objs := o.objs[..k], grown := []), p, d);
    if o.chunks[|o.chunks| - 1].addr < p < o.limit {
      assert o.chunks[..d + 1] == o.chunks;
    }
  }

  lemma ObjSurvivesFree(o: Stack, k: nat, i: nat)
    requires Inv(o) && i < k < |o.objs| && o.objs[k].depth < |o.chunks|
    ensures GoodObj(Unwound(o, k), o.objs[i])
  {
    var r := Unwound(o, k);
    assert GoodObj(o, o.objs[i]) && GoodObj(o, o.objs[k]) && Ordered(o.objs[i], o.objs[k]);
    assert r.chunks[o.objs[i].depth] == o.chunks[o.objs[i].depth];
  }

  lemma UnwoundKeeps(o: Stack, k: nat)
    requires Inv(o) && k < |o.objs| && GoodObj(o, o.objs[k])
    ensures Inv(Unwound(o, k))
  {
    var r := Unwound(o, k);
    assert GoodChunk(o, o.chunks[o.objs[k].depth]);
    assert r.mem[r.base..r.next] == [];
    forall i | 0 <= i < |r.objs|
      ensures GoodObj(r, r.objs[i])
    {
      ObjSurvivesFree(o, k, i);
    }
  }

  /** The stack then ends with the chunk of the object, and the next object starts where it stood. */
  lemma FreeKeeps(o: Stack, k: nat)
    requires Inv(o) && k < |o.objs|
    ensures var r := Free(o, o.objs[k].addr, k);
      && r.Some? && Inv(r.value) && r.value.objs == o.objs[..k] && r.value.grown == []
      && o.objs[k].depth < |o.chunks| && r.value.chunks == o.chunks[..o.objs[k].depth + 1]
      && r.value.base == r.value.next == o.objs[k].addr
  {
    FreeUnwinds(o, k);
    UnwoundKeeps(o, k);
  }

}
