/** The alignment macros of obstack.h. */
module Align {
  /** A mask of low bits: a + 1 is a power of two. */
  predicate IsMask(a: nat) {
    a == 0 || (a % 2 == 1 && IsMask(a / 2))
  }

  /** The C expression `x & ~a`, bit by bit. */
  function AndNot(x: nat, a: nat): (r: nat)
    decreases x
  {
    if x == 0 then 0
    else (if x % 2 == 1 && a % 2 == 0 then 1 else 0) + 2 * AndNot(x / 2, a / 2)
  }

  /** q lies a whole number of steps of size n above b. */
  predicate OnGrid(b: int, q: int, n: nat)
    requires n > 0
  {
    (q - b) % n == 0
  }

  /** r is the first grid point at or above p. */
  ghost predicate IsLeastOnGrid(b: int, p: int, n: nat, r: int)
    requires n > 0
  {
    p <= r && OnGrid(b, r, n) && forall q :: p <= q && OnGrid(b, q, n) ==> r <= q
  }

  function BptrAlign(b: int, p: int, a: nat): int
    requires b <= p
  {
    b + AndNot(p - b + a, a)
  }

  /** `narrow` says that pointer differences are narrower than pointers. */
  function PtrAlign(narrow: bool, b: int, p: int, a: nat): int
    requires 0 <= b <= p
  {
    BptrAlign(if narrow then b else 0, p, a)
  }

  /** Halving commutes with reduction modulo an even number. */
  lemma HalveMod(x: nat, n: nat)
    requires n > 0
    ensures x % (2 * n) == 2 * ((x / 2) % n) + x % 2
  {
    var h := x / 2;
    var q := h / n;
    var r := h % n;
    assert x == q * (2 * n) + (2 * r + x % 2);
    ModUnique(x, 2 * n, q, 2 * r + x % 2);
  }

  lemma ModUnique(x: int, n: nat, q: int, r: int)
    requires n > 0 && 0 <= r < n && x == q * n + r
    ensures x % n == r && x / n == q
  {
    var q', r' := x / n, x % n;
    var d := q - q';
    assert x == q' * n + r';
    assert d * n == q * n - q' * n;
    if d > 0 {
      MulAtLeast(d, n);
    } else if d < 0 {
      MulAtLeast(-d, n);
    }
  }

  /** A product of positive factors is no smaller than either. */
  lemma {:induction false} MulAtLeast(d: int, n: nat)
    requires d > 0
    ensures d * n >= n
  {
    if d > 1 {
      MulAtLeast(d - 1, n);
      assert d * n == (d - 1) * n + n;
    }
  }

  lemma {:induction false} AndNotMask(x: nat, a: nat)
    requires IsMask(a)
    ensures AndNot(x, a) == x - x % (a + 1)
    decreases x
  {
    if x == 0 {
    } else if a == 0 {
      AndNotMask(x / 2, 0);
    } else {
      AndNotMask(x / 2, a / 2);
      HalveMod(x, a / 2 + 1);
    }
  }

  lemma BptrAlignOnGrid(b: int, p: int, a: nat)
    requires b <= p && IsMask(a)
    ensures p <= BptrAlign(b, p, a) <= p + a
    ensures OnGrid(b, BptrAlign(b, p, a), a + 1)
  {
    var x := p - b + a;
    AndNotMask(x, a);
    RoundDown(x, a + 1);
  }

  lemma AlignBounds(b: int, p: int, a: nat)
    requires b <= p && IsMask(a)
    ensures p <= BptrAlign(b, p, a) <= p + a
  {
    BptrAlignOnGrid(b, p, a);
  }

  lemma RoundDown(x: int, n: nat)
    requires n > 0
    ensures x - n < x - x % n <= x
    ensures (x - x % n) % n == 0
  {
    ModUnique(x - x % n, n, x / n, 0);
  }

  /** `__BPTR_ALIGN` yields the least address at or above p on the grid of b. */
  lemma BptrAlignLeast(b: int, p: int, a: nat)
    requires b <= p && IsMask(a)
    ensures BptrAlign(b, p, a) <= p + a
    ensures IsLeastOnGrid(b, p, a + 1, BptrAlign(b, p, a))
  {
    var n := a + 1;
    var r := BptrAlign(b, p, a);
    BptrAlignOnGrid(b, p, a);
    forall q | p <= q && OnGrid(b, q, n)
      ensures r <= q
    {
      if q < r {
        GridGap(b, q, r, n);
      }
    }
  }

  /** Distinct grid points are at least a step apart. */
  lemma GridGap(b: int, q: int, r: int, n: nat)
    requires n > 0 && OnGrid(b, q, n) && OnGrid(b, r, n) && q < r
    ensures q + n <= r
  {
    var k, m := (q - b) / n, (r - b) / n;
    assert q - b == k * n && r - b == m * n;
    var d := m - k;
    assert d * n == r - q;
    if d < 0 {
      MulAtLeast(-d, n);
      assert false;
    }
    assert d != 0;
    MulAtLeast(d, n);
  }

  /** An address already on the grid stays; so aligning twice is aligning once. */
  lemma BptrAlignFixed(b: int, p: int, a: nat)
    requires b <= p && IsMask(a)
    ensures OnGrid(b, p, a + 1) <==> BptrAlign(b, p, a) == p
    ensures BptrAlign(b, BptrAlign(b, p, a), a) == BptrAlign(b, p, a)
  {
    BptrAlignLeast(b, p, a);
    BptrAlignLeast(b, BptrAlign(b, p, a), a);
  }

  lemma BptrAlignMonotone(b: int, p: int, q: int, a: nat)
    requires b <= p <= q && IsMask(a)
    ensures BptrAlign(b, p, a) <= BptrAlign(b, q, a)
  {
    BptrAlignLeast(b, p, a);
    BptrAlignLeast(b, q, a);
  }

  lemma GridShift(b: int, c: int, q: int, n: nat)
    requires n > 0 && OnGrid(b, c, n)
    ensures OnGrid(b, q, n) <==> OnGrid(c, q, n)
  {
    var k := (c - b) / n;
    assert c - b == k * n;
    var m, r := (q - c) / n, (q - c) % n;
    assert q - b == (m + k) * n + r;
    ModUnique(q - b, n, m + k, r);
  }

  /** Aligning relative to another point of the same grid gives the same address. */
  lemma BptrAlignRebase(b: int, c: int, p: int, a: nat)
    requires b <= c <= p && IsMask(a) && OnGrid(b, c, a + 1)
    ensures BptrAlign(c, p, a) == BptrAlign(b, p, a)
  {
    BptrAlignLeast(b, p, a);
    BptrAlignLeast(c, p, a);
    GridShift(b, c, BptrAlign(b, p, a), a + 1);
    GridShift(b, c, BptrAlign(c, p, a), a + 1);
  }

  /** The power-of-two demand on A + 1 is exact: a mask that rounds every address
      onto its grid is a mask of low bits, and conversely. */
  lemma MaskDemandExact(a: nat)
    ensures IsMask(a) <==> forall p: nat :: OnGrid(0, BptrAlign(0, p, a), a + 1)
  {
    if IsMask(a) {
      forall p: nat
        ensures OnGrid(0, BptrAlign(0, p, a), a + 1)
      {
        BptrAlignLeast(0, p, a);
      }
    } else {
      SuccessorClear(a);
      var r := BptrAlign(0, 1, a);
      ModUnique(r, a + 1, 0, r);
      assert !OnGrid(0, r, a + 1);
    }
  }

  /** Unless a is all ones, a + 1 keeps a bit of a, and a bit outside a. */
  lemma {:induction false} SuccessorClear(a: nat)
    requires !IsMask(a)
    ensures 0 < AndNot(a + 1, a) < a + 1
  {
    if a % 2 == 0 {
      assert (a + 1) % 2 == 1 && (a + 1) / 2 == a / 2;
      AndNotSelf(a / 2);
    } else {
      assert (a + 1) % 2 == 0 && (a + 1) / 2 == a / 2 + 1;
      SuccessorClear(a / 2);
    }
  }

  lemma {:induction false} AndNotSelf(a: nat)
    ensures AndNot(a, a) == 0
  {
    if a != 0 {
      AndNotSelf(a / 2);
    }
  }
}
