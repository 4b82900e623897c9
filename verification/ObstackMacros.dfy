/**
 The two families of macros in obstack.h, as they are written: statements for GNU C, and comma
 expressions that go through the `temp` slot for other compilers. Both update the control block and
 memory in place, and both are proved to compute the same function on values.
 */
module ObstackMacros {
  import opened Common
  import opened Alignment
  import O = Obstack
  import R = ObstackRuns
  import S = ObstackSteps

  class Obstack {
    var mem: array<Byte>
    var chunks: seq<O.Chunk>
    var objectBase: nat
    var nextFree: nat
    var chunkLimit: nat
    var temp: int
    var alignmentMask: nat
    var maybeEmptyObject: bool
    // History: what the client was given, and what it has grown since.
    ghost var objs: seq<O.Obj>
    ghost var grown: seq<Byte>

    ghost function View(): O.Stack
      reads this, mem
    {
      O.Stack(mem[..], chunks, objectBase, nextFree, chunkLimit, alignmentMask, maybeEmptyObject,
              objs, grown)
    }

    constructor (mem: array<Byte>, c: O.Chunk, mask: nat)
      ensures this.mem == mem && View() == O.Begin(mem[..], c, mask)
    {
      this.mem, chunks, alignmentMask, maybeEmptyObject := mem, [c], mask, false;
      objectBase, nextFree, chunkLimit := O.First(c, mask), O.First(c, mask), c.limit;
      temp, objs, grown := 0, [], [];
    }

    method Memcpy(p: nat, data: seq<Byte>)
      requires p + |data| <= mem.Length
      modifies mem
      ensures mem[..] == O.Write(old(mem[..]), p, data)
    {
      var i := 0;
      while i < |data|
        invariant 0 <= i <= |data|
        invariant mem[..p] == old(mem[..p])
        invariant mem[p..p + i] == data[..i]
        invariant mem[p + i..] == old(mem[p + i..])
      {
        mem[p + i] := data[i];
        i := i + 1;
      }
    }

    method CopyObject(p: nat)
      requires objectBase <= nextFree && nextFree <= mem.Length && p + (nextFree - objectBase) <= mem.Length
      modifies mem
      ensures mem[..] == O.Write(old(mem[..]), p, old(mem[..])[objectBase..nextFree])
    {
      assert mem[objectBase..nextFree] == mem[..][objectBase..nextFree];
      Memcpy(p, mem[objectBase..nextFree]);
    }

    /** `_obstack_newchunk`, declared in the header and described in its comments */
    method NewChunk(len: nat, a: O.Alloc)
      requires O.Bounds(View()) && O.Fresh(View(), len, a.chunk)
      modifies this, mem
      ensures View() == O.NewChunk(old(View()), len, a)
      ensures |chunks| == |old(chunks)| + (if a.drop then 0 else 1) && chunks[|chunks| - 1] == a.chunk
      ensures mem == old(mem) && temp == old(temp)
    {
      var first := O.First(a.chunk, alignmentMask);
      CopyObject(first);
      chunks := (if a.drop then chunks[..|chunks| - 1] else chunks) + [a.chunk];
      chunkLimit := a.chunk.limit;
      nextFree := first + (nextFree - objectBase);
      objectBase := first;
      maybeEmptyObject := false;
    }

    // ---- GNU C ----

    method MakeRoom(len: int, a: O.Alloc)
      requires O.Served(View(), len, a)
      modifies this, mem
      ensures View() == O.MakeRoom(old(View()), len, a)
      ensures mem == old(mem) && temp == old(temp)
    {
      if chunkLimit - nextFree < len {
        NewChunk(len, a);
      }
    }

    /** The copy of the grow macros: `memcpy` to `next_free`, which then moves on. */
    method Fill(data: seq<Byte>)
      requires O.Bounds(View()) && !O.NeedsRoom(View(), |data|)
      modifies this, mem
      ensures View() == O.Append(old(View()), data)
      ensures mem == old(mem) && temp == old(temp)
    {
      Memcpy(nextFree, data);
      nextFree := nextFree + |data|;
      grown := grown + data;
    }

    method Grow(data: seq<Byte>, a: O.Alloc)
      requires O.Served(View(), |data|, a)
      modifies this, mem
      ensures View() == O.Grow(old(View()), data, a)
      ensures mem == old(mem) && temp == old(temp)
    {
      var len := |data|;
      if nextFree + len > chunkLimit {
        NewChunk(len, a);
      }
      Fill(data);
    }

    /** `obstack_1grow_fast` */
    method OneGrowFast(ch: Byte)
      requires O.Bounds(View()) && !O.NeedsRoom(View(), 1)
      modifies this, mem
      ensures View() == O.Append(old(View()), [ch])
      ensures mem == old(mem) && temp == old(temp)
    {
      mem[nextFree] := ch;
      nextFree := nextFree + 1;
      grown := grown + [ch];
    }

    method Grow0(data: seq<Byte>, a: O.Alloc)
      requires O.Served(View(), |data| + 1, a)
      modifies this, mem
      ensures View() == O.Grow0(old(View()), data, a)
      ensures mem == old(mem) && temp == old(temp)
    {
      var len := |data|;
      if nextFree + len + 1 > chunkLimit {
        NewChunk(len + 1, a);
      }
      Fill(data);
      OneGrowFast(0);
    }

    method OneGrow(ch: Byte, a: O.Alloc)
      requires O.Served(View(), 1, a)
      modifies this, mem
      ensures View() == O.Grow(old(View()), [ch], a)
      ensures mem == old(mem) && temp == old(temp)
    {
      if nextFree + 1 > chunkLimit {
        NewChunk(1, a);
      }
      OneGrowFast(ch);
    }

    /** `obstack_blank_fast` */
    method BlankFast(len: int)
      requires O.Bounds(View()) && !O.NeedsRoom(View(), len) && O.CanResize(View(), len)
      modifies this
      ensures View() == O.Skip(old(View()), len)
      ensures mem == old(mem) && temp == old(temp)
    {
      grown := if len < 0 then grown[..|grown| + len] else grown + mem[nextFree..nextFree + len];
      nextFree := nextFree + len;
    }

    method Blank(len: int, a: O.Alloc)
      requires O.Served(View(), len, a) && O.CanResize(View(), len)
      modifies this, mem
      ensures View() == O.Blank(old(View()), len, a)
      ensures mem == old(mem) && temp == old(temp)
    {
      if chunkLimit - nextFree < len {
        NewChunk(len, a);
      }
      BlankFast(len);
    }

    method Finish() returns (value: nat)
      requires O.Bounds(View())
      modifies this
      ensures View() == O.Finish(old(View())) && value == old(objectBase)
      ensures IsMask(alignmentMask) ==> O.StartsAfter(old(View()), View())
      ensures mem == old(mem) && temp == old(temp)
    {
      if IsMask(alignmentMask) {
        O.FinishStartsAfter(View());
      }
      objs := objs + [O.Obj(objectBase, grown, |chunks| - 1)];
      grown := [];
      var chunk := chunks[|chunks| - 1].addr;
      value := objectBase;
      if nextFree == value {
        maybeEmptyObject := true;
      }
      nextFree := PtrAlign(nextFree, alignmentMask);
      if nextFree - chunk > chunkLimit - chunk {
        nextFree := chunkLimit;
      }
      objectBase := nextFree;
    }

    method Allocate(len: int, a: O.Alloc) returns (value: nat)
      requires O.Served(View(), len, a) && O.CanResize(View(), len)
      modifies this, mem
      ensures View() == O.Finish(O.Blank(old(View()), len, a))
      ensures value == old(O.Blank(View(), len, a).base)
      ensures mem == old(mem) && temp == old(temp)
    {
      Blank(len, a);
      value := Finish();
    }

    method Copy(data: seq<Byte>, a: O.Alloc) returns (value: nat)
      requires O.Served(View(), |data|, a)
      modifies this, mem
      ensures View() == O.Finish(O.Grow(old(View()), data, a))
      ensures value == old(O.Grow(View(), data, a).base)
      ensures mem == old(mem) && temp == old(temp)
    {
      Grow(data, a);
      value := Finish();
    }

    method Copy0(data: seq<Byte>, a: O.Alloc) returns (value: nat)
      requires O.Served(View(), |data| + 1, a)
      modifies this, mem
      ensures View() == O.Finish(O.Grow0(old(View()), data, a))
      ensures value == old(O.Grow0(View(), data, a).base)
      ensures mem == old(mem) && temp == old(temp)
    {
      Grow0(data, a);
      value := Finish();
    }

    /**
     The function `obstack_free`, declared in the header. If no chunk has `p`, all are given back.
     */
    method FreeSlow(p: nat) returns (found: bool)
      modifies this
      ensures found <==> O.Unwind(old(View()), p).Some?
      ensures found ==> Some(View()) == O.Unwind(old(View()), p)
      ensures !found ==> chunks == []
      ensures mem == old(mem) && temp == old(temp)
    {
      ghost var start := View();
      while chunks != []
        invariant mem == old(mem) && temp == old(temp)
        invariant O.Unwind(View(), p) == O.Unwind(start, p)
        decreases |chunks|
      {
        var c := chunks[|chunks| - 1];
        if c.addr < p <= c.limit {
          objectBase, nextFree, chunkLimit := p, p, c.limit;
          return true;
        }
        chunks := chunks[..|chunks| - 1];
        maybeEmptyObject := true;
      }
      return false;
    }

    /** The client stops using all but the `k` oldest objects. */
    ghost method Forget(k: nat)
      requires k <= |objs|
      modifies this`objs, this`grown
      ensures View() == old(View()).(objs := old(objs)[..k], grown := [])
    {
      objs, grown := objs[..k], [];
    }

    /** Any address may be given, NULL and addresses in no chunk included. */
    method Free(obj: nat, ghost k: nat) returns (found: bool)
      requires O.Bounds(View()) && k <= |objs|
      modifies this
      ensures found <==> O.Free(old(View()), obj, k).Some?
      ensures found ==> Some(View()) == O.Free(old(View()), obj, k)
      ensures !found ==> chunks == []
      ensures mem == old(mem) && temp == old(temp)
    {
      Forget(k);
      if obj > chunks[|chunks| - 1].addr && obj < chunkLimit {
        nextFree, objectBase := obj, obj;
        found := true;
      } else {
        found := FreeSlow(obj);
      }
    }

    // ---- Other compilers ----

    method PortableMakeRoom(len: int, a: O.Alloc)
      requires O.Served(View(), len, a)
      modifies this, mem
      ensures View() == O.MakeRoom(old(View()), len, a) && mem == old(mem)
    {
      temp := len;
      if nextFree + temp > chunkLimit {
        NewChunk(temp, a);
      }
    }

    /** The same, with the length in `temp`. */
    method PortableFill(data: seq<Byte>)
      requires O.Bounds(View()) && !O.NeedsRoom(View(), |data|) && temp == |data|
      modifies this, mem
      ensures View() == O.Append(old(View()), data)
      ensures mem == old(mem) && temp == old(temp)
    {
      assert data[..temp] == data;
      Memcpy(nextFree, data[..temp]);
      nextFree := nextFree + temp;
      grown := grown + data;
    }

    method PortableGrow(data: seq<Byte>, a: O.Alloc)
      requires O.Served(View(), |data|, a)
      modifies this, mem
      ensures View() == O.Grow(old(View()), data, a) && mem == old(mem)
    {
      temp := |data|;
      if nextFree + temp > chunkLimit {
        NewChunk(temp, a);
      }
      PortableFill(data);
    }

    method PortableGrow0(data: seq<Byte>, a: O.Alloc)
      requires O.Served(View(), |data| + 1, a)
      modifies this, mem
      ensures View() == O.Grow0(old(View()), data, a) && mem == old(mem)
    {
      temp := |data|;
      if nextFree + temp + 1 > chunkLimit {
        NewChunk(temp + 1, a);
      }
      PortableFill(data);
      OneGrowFast(0);
    }

    method PortableOneGrow(ch: Byte, a: O.Alloc)
      requires O.Served(View(), 1, a)
      modifies this, mem
      ensures View() == O.Grow(old(View()), [ch], a) && mem == old(mem)
    {
      if nextFree + 1 > chunkLimit {
        NewChunk(1, a);
      }
      OneGrowFast(ch);
    }

    method PortableBlank(len: int, a: O.Alloc)
      requires O.Served(View(), len, a) && O.CanResize(View(), len)
      modifies this, mem
      ensures View() == O.Blank(old(View()), len, a) && mem == old(mem)
    {
      temp := len;
      if chunkLimit - nextFree < temp {
        NewChunk(temp, a);
      }
      BlankFast(temp);
    }

    method PortableFinish() returns (value: int)
      requires O.Bounds(View())
      modifies this
      ensures View() == O.Finish(old(View())) && value == old(objectBase) && mem == old(mem)
      ensures IsMask(alignmentMask) ==> O.StartsAfter(old(View()), View())
    {
      if IsMask(alignmentMask) {
        O.FinishStartsAfter(View());
      }
      objs := objs + [O.Obj(objectBase, grown, |chunks| - 1)];
      grown := [];
      var chunk := chunks[|chunks| - 1].addr;
      if nextFree == objectBase {
        maybeEmptyObject := true;
      }
      temp := objectBase;
      nextFree := PtrAlign(nextFree, alignmentMask);
      if nextFree - chunk > chunkLimit - chunk {
        nextFree := chunkLimit;
      }
      objectBase := nextFree;
      value := temp;
    }

    method PortableAllocate(len: int, a: O.Alloc) returns (value: int)
      requires O.Served(View(), len, a) && O.CanResize(View(), len)
      modifies this, mem
      ensures View() == O.Finish(O.Blank(old(View()), len, a)) && mem == old(mem)
      ensures value == old(O.Blank(View(), len, a).base)
    {
      PortableBlank(len, a);
      value := PortableFinish();
    }

    method PortableCopy(data: seq<Byte>, a: O.Alloc) returns (value: int)
      requires O.Served(View(), |data|, a)
      modifies this, mem
      ensures View() == O.Finish(O.Grow(old(View()), data, a)) && mem == old(mem)
      ensures value == old(O.Grow(View(), data, a).base)
    {
      PortableGrow(data, a);
      value := PortableFinish();
    }

    method PortableCopy0(data: seq<Byte>, a: O.Alloc) returns (value: int)
      requires O.Served(View(), |data| + 1, a)
      modifies this, mem
      ensures View() == O.Finish(O.Grow0(old(View()), data, a)) && mem == old(mem)
      ensures value == old(O.Grow0(View(), data, a).base)
    {
      PortableGrow0(data, a);
      value := PortableFinish();
    }

    method PortableFree(obj: nat, ghost k: nat) returns (found: bool)
      requires O.Bounds(View()) && k <= |objs|
      modifies this
      ensures found <==> O.Free(old(View()), obj, k).Some?
      ensures found ==> Some(View()) == O.Free(old(View()), obj, k)
      ensures !found ==> chunks == []
      ensures mem == old(mem)
    {
      Forget(k);
      var chunk := chunks[|chunks| - 1].addr;
      temp := obj - chunk;
      if temp > 0 && temp < chunkLimit - chunk {
        objectBase := temp + chunk;
        nextFree := objectBase;
        found := true;
      } else {
        found := FreeSlow(temp + chunk);
      }
    }

    // ---- Whole sequences of operations ----

    method GnuApply(op: S.Op) returns (found: bool)
      requires S.Legal(View(), op)
      modifies this, mem
      ensures found <==> S.Step(old(View()), op).Some?
      ensures found ==> Some(View()) == S.Step(old(View()), op)
      ensures mem == old(mem) && temp == old(temp)
    {
      found := true;
      match op {
        case MakeRoom(len, a) => MakeRoom(len, a);
        case Grow(data, a) => Grow(data, a);
        case Grow0(data, a) => Grow0(data, a);
        case Grow1(ch, a) => OneGrow(ch, a);
        case Blank(len, a) => Blank(len, a);
        case Finish => var _ := Finish();
        case Alloc(len, a) => var _ := Allocate(len, a);
        case Copy(data, a) => var _ := Copy(data, a);
        case Copy0(data, a) => var _ := Copy0(data, a);
        case Free(addr, k) => found := Free(addr, k);
      }
    }

    method GnuStep(op: S.Op)
      requires O.Inv(View()) && S.Legal(View(), op)
      modifies this, mem
      ensures Some(View()) == S.Step(old(View()), op) && O.Inv(View())
      ensures S.PlainStep(S.View(old(View())), op, S.View(View()))
      ensures mem == old(mem) && temp == old(temp)
    {
      S.StepKeeps(View(), op);
      var _ := GnuApply(op);
    }

    method PortableApply(op: S.Op) returns (found: bool)
      requires S.Legal(View(), op)
      modifies this, mem
      ensures found <==> S.Step(old(View()), op).Some?
      ensures found ==> Some(View()) == S.Step(old(View()), op)
      ensures mem == old(mem)
    {
      found := true;
      match op {
        case MakeRoom(len, a) => PortableMakeRoom(len, a);
        case Grow(data, a) => PortableGrow(data, a);
        case Grow0(data, a) => PortableGrow0(data, a);
        case Grow1(ch, a) => PortableOneGrow(ch, a);
        case Blank(len, a) => PortableBlank(len, a);
        case Finish => var _ := PortableFinish();
        case Alloc(len, a) => var _ := PortableAllocate(len, a);
        case Copy(data, a) => var _ := PortableCopy(data, a);
        case Copy0(data, a) => var _ := PortableCopy0(data, a);
        case Free(addr, k) => found := PortableFree(addr, k);
      }
    }

    method PortableStep(op: S.Op)
      requires O.Inv(View()) && S.Legal(View(), op)
      modifies this, mem
      ensures Some(View()) == S.Step(old(View()), op) && O.Inv(View())
      ensures S.PlainStep(S.View(old(View())), op, S.View(View()))
      ensures mem == old(mem)
    {
      S.StepKeeps(View(), op);
      var _ := PortableApply(op);
    }

    /**
     Any sequence of operations, with the GNU macros: memory ends up as the plain stack of byte
     strings says.
     */
    method GnuRun(ops: seq<S.Op>, ghost end: O.Stack)
      requires O.Inv(View()) && R.Runs(View(), ops, end)
      modifies this, mem
      ensures View() == end && mem == old(mem) && temp == old(temp)
      ensures O.Inv(View()) && R.PlainRuns(S.View(old(View())), ops, S.View(View()))
    {
      R.RunRefinesPlain(View(), ops, end);
      var i := 0;
      while i < |ops|
        invariant 0 <= i <= |ops| && mem == old(mem) && temp == old(temp)
        invariant O.Inv(View()) && R.Runs(View(), ops[i..], end)
      {
        assert ops[i..][1..] == ops[i + 1..];
        GnuStep(ops[i]);
        i := i + 1;
      }
    }

    /** The same sequence with the portable macros ends in the same state, but for `temp`. */
    method PortableRun(ops: seq<S.Op>, ghost end: O.Stack)
      requires O.Inv(View()) && R.Runs(View(), ops, end)
      modifies this, mem
      ensures View() == end && mem == old(mem)
      ensures O.Inv(View()) && R.PlainRuns(S.View(old(View())), ops, S.View(View()))
    {
      R.RunRefinesPlain(View(), ops, end);
      var i := 0;
      while i < |ops|
        invariant 0 <= i <= |ops| && mem == old(mem)
        invariant O.Inv(View()) && R.Runs(View(), ops[i..], end)
      {
        assert ops[i..][1..] == ops[i + 1..];
        PortableStep(ops[i]);
        i := i + 1;
      }
    }
  }

}
