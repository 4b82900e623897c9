/**
 How `compile` of regexp.h reads a pattern: into a buffer from `alloca` that grows in place when the
 next block happens to lie right below or right above it, and moves otherwise.
 */
module RegexpCompile {
  import opened Common
  import opened Alignment

  // ---- The pattern ----

  /** The characters that end a pattern, besides `eof`. */
  predicate IsStop(ch: int, eof: int) {
    ch == eof || ch == 0 || ch == 10
  }

  /** How long the pattern at the front of the input is: it ends at a stop or with the input. */
  function PatternLength(src: seq<int>, eof: int, i: nat := 0): (n: nat)
    requires i <= |src|
    ensures i <= n <= |src| && (n < |src| ==> src[n] == eof || src[n] == 0 || src[n] == 10)
    ensures forall j :: i <= j < n ==> src[j] != eof && src[j] != 0 && src[j] != 10
    decreases |src| - i
  {
    if i == |src| || IsStop(src[i], eof) then i else PatternLength(src, eof, i + 1)
  }

  /** `b` is the character itself or, if it does not fit in a `char`, equal to it modulo 256. */
  predicate Spells(b: Byte, ch: int) {
    (b - ch) % 256 == 0 && (0 <= ch < 256 ==> b == ch)
  }

  /** What storing an `int` in a `char` keeps of it. */
  function ToChar(ch: int): (b: Byte)
    ensures Spells(b, ch)
  {
    ch % 256
  }

  // ---- Where the compiled expression goes ----

  predicate IsMultiple(q: nat, m: nat) {
    m > 0 && q % m == 0
  }

  /** `expbuf` moved up by `req` and then down to a multiple of it */
  function AlignExpbuf(expbuf: nat, req: nat): nat
    requires req > 0
  {
    expbuf + req - (expbuf + req) % req
  }

  /** The aligned `regex_t`, or error 50 if the buffer cannot hold one; then the space left over. */
  function Place(expbuf: nat, endbuf: nat, req: nat, sizeofRegex: nat): Option<(nat, int)>
    requires req > 0
  {
    var p := AlignExpbuf(expbuf, req);
    if endbuf < p + sizeofRegex then None else Some((p, endbuf - (p + sizeofRegex)))
  }

  /**
   The place is the first aligned address after `expbuf`, never `expbuf` itself; it is found exactly
   if a whole `regex_t` fits between it and `endbuf`.
   */
  lemma PlaceIsFirstAligned(expbuf: nat, endbuf: nat, req: nat, sizeofRegex: nat)
    requires req > 0
    ensures var p := AlignExpbuf(expbuf, req);
      && expbuf < p <= expbuf + req && IsMultiple(p, req)
      && (forall q: nat :: expbuf < q && IsMultiple(q, req) ==> p <= q)
      && (Place(expbuf, endbuf, req, sizeofRegex).Some? <==> p + sizeofRegex <= endbuf)
      && (forall r :: Place(expbuf, endbuf, req, sizeofRegex) == Some(r) ==>
            r.0 == p && r.0 + sizeofRegex + r.1 == endbuf && 0 <= r.1)
  {
    var x := expbuf + req;
    FloorIsRest(x, req);
    FloorIsMultiple(x, req);
    forall q: nat | expbuf < q && IsMultiple(q, req)
      ensures Floor(x, req) <= q
    {
      FloorIsBelow(x, q, req);
    }
  }

  // ---- Memory and input ----

  /** Whatever a fresh block happens to hold. */
  function Leftover(a: nat): Byte {
    a % 256
  }

  /** The call frame of `compile`: memory as a map from addresses, and the input macros. */
  class Frame {
    var mem: map<nat, Byte>
    var top: nat
    const emptyString: nat
    const eof: int
    /** What the next calls of `GETC` return, before `eof`. */
    var rest: seq<int>
    /** History: bytes moved by `memcpy` so far. */
    ghost var copied: nat

    predicate Valid()
      reads this
    {
      && (forall a :: a in mem ==> 0 < a < top)
      && emptyString in mem && mem[emptyString] == 0
    }

    constructor (input: seq<int>, eof: int)
      ensures Valid() && rest == input && this.eof == eof && copied == 0
    {
      this.eof, rest, copied := eof, input, 0;
      emptyString, mem, top := 1, map[1 := 0], 2;
    }

    /** All `n` addresses from `p` on are allocated. */
    predicate Region(p: nat, n: nat)
      reads this`mem
    {
      forall a :: p <= a < p + n ==> a in mem
    }

    /** The characters stand at `p`. */
    predicate Holds(p: nat, chars: seq<int>)
      reads this`mem
    {
      forall a :: p <= a < p + |chars| ==> a in mem && mem[a] == ToChar(chars[a - p])
    }

    lemma HeldIsSpelled(p: nat, src: seq<int>, n: nat)
      requires n <= |src| && Holds(p, src[..n])
      ensures forall i :: 0 <= i < n ==> p + i in mem && Spells(mem[p + i], src[i])
    {
      forall i | 0 <= i < n
        ensures p + i in mem && mem[p + i] == ToChar(src[i])
      {
        assert src[..n][p + i - p] == src[i];
      }
    }

    /** Any block of memory that was not allocated before; nothing else is promised. */
    method Alloca(n: nat) returns (p: nat)
      requires Valid()
      modifies this`mem, this`top
      ensures Valid() && 0 < p && Region(p, n)
      ensures forall a :: p <= a < p + n ==> a !in old(mem)
      ensures forall a :: a in old(mem) ==> a in mem && mem[a] == old(mem[a])
      ensures forall a :: a in mem ==> a in old(mem) || p <= a < p + n
    {
      p := top;
      mem := mem + map a: nat | p <= a < p + n :: Leftover(a);
      top := p + n;
    }

    /** `memcpy`, for areas that do not overlap */
    method Memcpy(dst: nat, from: nat, n: nat)
      requires Valid() && Region(dst, n) && Region(from, n) && (dst + n <= from || from + n <= dst)
      requires !(dst <= emptyString < dst + n)
      modifies this`mem, this`copied
      ensures Valid() && mem.Keys == old(mem.Keys) && copied == old(copied) + n
      ensures forall a :: dst <= a < dst + n ==> mem[a] == old(mem[from + (a - dst)])
      ensures forall a :: a in mem && !(dst <= a < dst + n) ==> mem[a] == old(mem[a])
    {
      var k := 0;
      while k < n
        invariant 0 <= k <= n && mem.Keys == old(mem.Keys) && copied == old(copied)
        invariant forall a :: dst <= a < dst + k ==> mem[a] == old(mem[from + (a - dst)])
        invariant forall a :: a in mem && !(dst <= a < dst + k) ==> mem[a] == old(mem[a])
      {
        mem := mem[dst + k := mem[from + k]];
        k := k + 1;
      }
      copied := copied + n;
    }

    /** `GETC ()` */
    method GetC() returns (ch: int)
      modifies this`rest
      ensures if old(rest) == [] then rest == [] && ch == eof
              else ch == old(rest)[0] && rest == old(rest)[1..]
    {
      if rest == [] {
        ch := eof;
      } else {
        ch, rest := rest[0], rest[1..];
      }
    }

    /** `UNGETC (c)`, for any character */
    method UngetC(ch: int)
      modifies this`rest
      ensures rest == [ch] + old(rest)
    {
      rest := [ch] + rest;
    }

    /**
     The growth step: room for at least twice as much, in one of three ways, with the `current`
     characters read so far still in front.
     */
    method GrowBuffer(buffer: nat, size: nat, current: nat, ghost chars: seq<int>)
      returns (buffer': nat, size': nat, ghost room: nat)
      requires Valid() && current == |chars| && Holds(buffer, chars) && Region(buffer, size)
      requires if size == 0 then buffer == 0 && current == 0
               else 0 < buffer && 128 <= size == current + 1
      requires !(buffer <= emptyString < buffer + size)
      modifies this
      ensures Valid() && rest == old(rest)
      ensures size' >= 128 && size' >= 2 * size && 0 < buffer'
      ensures size == 0 ==> buffer' == room && size' == 128
      ensures size != 0 && room + 2 * size == buffer ==> buffer' == room && size' == 3 * size
      ensures size != 0 && buffer + size == room ==>
                buffer' == buffer && size' == 3 * size && copied == old(copied)
      ensures size != 0 && room + 2 * size != buffer && buffer + size != room ==>
                buffer' == room && size' == 2 * size
      ensures Region(buffer', size') && Holds(buffer', chars)
      ensures forall a :: buffer' <= a < buffer' + size' ==>
                a !in old(mem) || buffer <= a < buffer + size
      ensures forall a :: a in old(mem) && !(buffer <= a < buffer + size) ==>
                a in mem && mem[a] == old(mem[a])
      ensures copied <= old(copied) + current
    {
      var newSize := if size != 0 then 2 * size else 128;
      var newRoom := Alloca(newSize);
      room := newRoom;
      ghost var meet := if newRoom < buffer then buffer else newRoom;
      assert current > 0 && newRoom < buffer + current ==> newRoom + current <= buffer by {
        assert newRoom <= meet < newRoom + newSize ==> meet !in old(mem);
        assert buffer <= meet < buffer + current ==> meet in old(mem);
      }
      if newRoom + newSize == buffer {
        size' := size + newSize;
        Memcpy(newRoom, buffer, current);
        buffer' := newRoom;
      } else if buffer + size == newRoom {
        size' := size + newSize;
        buffer' := buffer;
      } else {
        size' := newSize;
        Memcpy(newRoom, buffer, current);
        buffer' := newRoom;
      }
    }

    /** The buffer while `chars` have been read: large enough for one more, and its own. */
    ghost predicate Buffered(buffer: nat, size: nat, chars: seq<int>, before: map<nat, Byte>)
      reads this`mem
    {
      && Holds(buffer, chars) && Region(buffer, size)
      && (if size == 0 then buffer == 0 && chars == [] else 0 < buffer && 128 <= size && |chars| < size)
      && (forall a :: buffer <= a < buffer + size ==> a !in before)
      && (forall a :: a in before ==> a in mem && mem[a] == before[a])
    }

    /** What the growth steps have moved so far is paid for by what was read. */
    ghost predicate Cheap(size: nat, n: nat)
      reads this`copied
    {
      copied <= 2 * n && if size == 0 then copied == 0 else copied < size
    }

    method Store(p: nat, b: Byte)
      requires Valid() && p in mem && p != emptyString
      modifies this`mem
      ensures Valid() && mem == old(mem)[p := b]
    {
      mem := mem[p := b];
    }

    /** One character more, in the buffer or in a larger one. */
    method PutChar(buffer: nat, size: nat, current: nat, ch: int,
                   ghost chars: seq<int>, ghost before: map<nat, Byte>)
      returns (buffer': nat, size': nat)
      requires Valid() && current == |chars| && emptyString in before
      requires Buffered(buffer, size, chars, before) && Cheap(size, current)
      modifies this
      ensures Valid() && rest == old(rest)
      ensures Buffered(buffer', size', chars + [ch], before) && Cheap(size', current + 1)
    {
      buffer', size' := buffer, size;
      if current + 1 >= size {
        ghost var room;
        buffer', size', room := GrowBuffer(buffer, size, current, chars);
      }
      Store(buffer' + current, ToChar(ch));
    }

    /** `ch` was read right after the first `n` characters of `src`. */
    ghost predicate JustRead(src: seq<int>, n: nat, ch: int)
      reads this
    {
      if n < |src| then ch == src[n] && rest == src[n + 1..] else n == |src| && ch == eof && rest == []
    }

    /** What is unread after the first `n` characters: a line terminator stays, an `eof` does not. */
    ghost predicate Unread(src: seq<int>, n: nat)
      reads this
      requires n <= |src|
    {
      && (n < |src| && src[n] != eof ==> rest == src[n..])
      && (n < |src| && src[n] == eof ==> rest == src[n + 1..])
      && (n == |src| ==> rest == [])
    }

    method GetNext(ghost src: seq<int>, ghost n: nat) returns (ch: int)
      requires n <= |src| && rest == src[n..]
      modifies this`rest
      ensures JustRead(src, n, ch)
    {
      ch := GetC();
    }

    /** The loop of `compile` */
    method ReadChars() returns (buffer: nat, size: nat, current: nat)
      requires Valid() && copied == 0
      modifies this
      ensures Valid() && current == PatternLength(old(rest), eof) && Unread(old(rest), current)
      ensures Buffered(buffer, size, old(rest)[..current], old(mem)) && Cheap(size, current)
    {
      ghost var src := rest;
      buffer, size, current := 0, 0, 0;
      var ch := GetNext(src, 0);
      while ch != eof
        invariant Valid() && current <= |src| && JustRead(src, current, ch)
        invariant Buffered(buffer, size, src[..current], old(mem)) && Cheap(size, current)
        invariant PatternLength(src, eof, current) == PatternLength(src, eof)
        decreases |src| - current
      {
        if ch == 0 || ch == 10 {
          UngetC(ch);
          assert rest == src[current..];
          break;
        }
        buffer, size := PutChar(buffer, size, current, ch, src[..current], old(mem));
        assert src[..current] + [ch] == src[..current + 1];
        current := current + 1;
        ch := GetNext(src, current);
      }
    }

    /** The final NUL, in the buffer or, if nothing was read, in the empty string. */
    method Terminate(buffer: nat, size: nat, current: nat,
                     ghost chars: seq<int>, ghost before: map<nat, Byte>) returns (buffer': nat)
      requires Valid() && current == |chars| && emptyString in before
      requires Buffered(buffer, size, chars, before)
      modifies this`mem
      ensures Valid() && Holds(buffer', chars) && buffer' + current in mem && mem[buffer' + current] == 0
      ensures forall a :: a in before ==> a in mem && mem[a] == before[a]
    {
      if current != 0 {
        Store(buffer + current, 0);
        buffer' := buffer;
      } else {
        buffer' := emptyString;
      }
    }

    /**
     The loop and the final NUL: whatever blocks `alloca` returns, the buffer ends up holding exactly
     the pattern and a NUL, nothing else in memory changes, the terminator of the line is left
     unread, and the growth steps have moved at most twice as many bytes as the pattern has.
     */
    method ReadPattern() returns (buffer: nat)
      requires Valid() && copied == 0
      modifies this
      ensures var src := old(rest); var n := PatternLength(src, eof);
        && Valid()
        && (forall i :: 0 <= i < n ==> buffer + i in mem && Spells(mem[buffer + i], src[i]))
        && buffer + n in mem && mem[buffer + n] == 0
        && (forall a :: a in old(mem) ==> a in mem && mem[a] == old(mem[a]))
        && (n < |src| && src[n] != eof ==> rest != [] && rest[0] == src[n] && rest == src[n..])
        && (n < |src| && src[n] == eof ==> rest == src[n + 1..])
        && (n == |src| ==> rest == [])
        && copied <= 2 * n
    {
      var size, current;
      buffer, size, current := ReadChars();
      buffer := Terminate(buffer, size, current, old(rest)[..current], old(mem));
      HeldIsSpelled(buffer, old(rest), current);
    }
  }

}
