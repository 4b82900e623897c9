/** The address rounding of obstack.h, down to the bits. */
module Alignment {

  function Pow2(k: nat): (r: nat)
    ensures r > 0
  {
    if k == 0 then 1 else 2 * Pow2(k - 1)
  }

  /** A mask of low bits: one less than a power of two. */
  ghost predicate IsMask(a: nat) {
    exists k: nat :: a + 1 == Pow2(k)
  }

  /** `x & ~a`, bit by bit */
  function AndNot(x: nat, a: nat): nat {
    if x == 0 then 0 else (if a % 2 == 1 then 0 else x % 2) + 2 * AndNot(x / 2, a / 2)
  }

  /** `__BPTR_ALIGN (B, P, A)` */
  function BptrAlign(b: nat, p: nat, a: nat): nat
    requires b <= p
  {
    b + AndNot(p - b + a, a)
  }

  /** `__PTR_ALIGN (B, P, A)` where pointers convert to integers: aligned relative to address 0 */
  function PtrAlign(p: nat, a: nat): nat {
    BptrAlign(0, p, a)
  }

  /** `x` rounded down to a multiple of `m`. */
  function Floor(x: nat, m: nat): nat
    requires m > 0
  {
    if x < m then 0 else m + Floor(x - m, m)
  }

  /** `q` lies a whole number of steps of `a + 1` above `b`. */
  predicate OnGrid(q: nat, b: nat, a: nat) {
    b <= q && Floor(q - b, a + 1) == q - b
  }

  predicate Aligned(p: nat, a: nat) {
    OnGrid(p, 0, a)
  }

  lemma MulLe(x: nat, y: nat, m: nat)
    requires x <= y
    ensures x * m <= y * m
  {
  }

  lemma ModShift(y: nat, m: nat)
    requires m > 0
    ensures (y + m) % m == y % m
  {
    var q, r := y / m, y % m;
    var e := (y + m) / m;
    assert y + m == (q + 1) * m + r;
    assert e == q + 1 by {
      if e <= q {
        MulLe(e, q, m);
        assert false;
      }
      if e >= q + 2 {
        MulLe(q + 2, e, m);
        assert false;
      }
    }
  }

  lemma {:induction false} FloorIsMultiple(x: nat, m: nat)
    requires m > 0
    ensures Floor(x, m) <= x < Floor(x, m) + m && Floor(x, m) % m == 0
  {
    if x < m {
    } else {
      FloorIsMultiple(x - m, m);
      ModShift(Floor(x - m, m), m);
    }
  }

  lemma {:induction false} FloorIsRest(x: nat, m: nat)
    requires m > 0
    ensures Floor(x, m) == x - x % m
  {
    if x < m {
    } else {
      FloorIsRest(x - m, m);
      ModShift(x - m, m);
    }
  }

  lemma {:induction false} FloorIsBelow(x: nat, d: nat, m: nat)
    requires m > 0 && d % m == 0 && x < d + m
    ensures Floor(x, m) <= d
  {
    if x < m {
    } else {
      ModShift(d - m, m);
      FloorIsBelow(x - m, d - m, m);
    }
  }

  lemma {:induction false} FloorTwice(x: nat, m: nat)
    requires m > 0
    ensures Floor(x, 2 * m) == 2 * Floor(x / 2, m)
  {
    if x < 2 * m {
    } else {
      FloorTwice(x - 2 * m, m);
      assert (x - 2 * m) / 2 == x / 2 - m;
    }
  }

  lemma {:induction false} AndNotZero(x: nat)
    ensures AndNot(x, 0) == x
  {
    if x == 0 {
    } else {
      AndNotZero(x / 2);
    }
  }

  lemma {:induction false} FloorOne(x: nat)
    ensures Floor(x, 1) == x
  {
    if x == 0 {
    } else {
      FloorOne(x - 1);
    }
  }

  /** Clearing the low `k` bits rounds down to a multiple of `2^k`. */
  lemma {:induction false} AndNotRounds(x: nat, k: nat)
    ensures AndNot(x, Pow2(k) - 1) == Floor(x, Pow2(k))
  {
    if k == 0 {
      AndNotZero(x);
      FloorOne(x);
    } else if x > 0 {
      var m := Pow2(k - 1);
      assert (2 * m - 1) / 2 == m - 1;
      AndNotRounds(x / 2, k - 1);
      FloorTwice(x, m);
    }
  }

  lemma OnGridIsMultiple(q: nat, b: nat, a: nat)
    ensures OnGrid(q, b, a) <==> b <= q && (q - b) % (a + 1) == 0
  {
    if b <= q {
      FloorIsRest(q - b, a + 1);
    }
  }

  /** The result is the least address from `p` on that is a multiple of `a + 1` away from `b`. */
  lemma AlignIsLeast(b: nat, p: nat, a: nat)
    requires IsMask(a) && b <= p
    ensures var r := BptrAlign(b, p, a);
      && p <= r <= p + a && OnGrid(r, b, a)
      && forall q: nat :: p <= q && OnGrid(q, b, a) ==> r <= q
  {
    var k: nat :| a + 1 == Pow2(k);
    var x := p - b + a;
    AndNotRounds(x, k);
    FloorIsMultiple(x, a + 1);
    OnGridIsMultiple(BptrAlign(b, p, a), b, a);
    forall q: nat | p <= q && OnGrid(q, b, a)
      ensures BptrAlign(b, p, a) <= q
    {
      OnGridIsMultiple(q, b, a);
      FloorIsBelow(x, q - b, a + 1);
    }
  }

  /** What the allocator uses of it. */
  lemma PtrAlignUp(p: nat, a: nat)
    requires IsMask(a)
    ensures p <= PtrAlign(p, a) <= p + a && Aligned(PtrAlign(p, a), a)
    ensures Aligned(p, a) ==> PtrAlign(p, a) == p
  {
    AlignIsLeast(0, p, a);
  }

}
