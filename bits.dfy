/** Python's bitwise operators on integers, as the sweeps and the `and64` /
    `or64` helpers of the modifier enumerator use them.  Encodings are
    Python integers, not fixed-width words: `&`, `|` and `^` are defined bit
    by bit on non-negative integers, and `^` is extended to negative ones by
    the two's-complement identity Python follows. */
module Bits {
  import opened Hex

  /** A bit position of a 64-bit encoding: a value of `range(0, 64)`. */
  type Index = i: int | 0 <= i < 64

  /** `2**p`, which is also `1 << p`. */
  function Pow2(p: nat): (r: nat)
    ensures r >= 1
  {
    if p == 0 then 1 else 2 * Pow2(p - 1)
  }

  /** Bit `j` of `n`, that is `(n >> j) & 1 == 1`. */
  predicate TestBit(n: nat, j: nat)
  {
    if j == 0 then n % 2 == 1 else TestBit(n / 2, j - 1)
  }

  /** `range(0, n)` for a bit count `n`. */
  function Range(n: nat): (s: seq<Index>)
    requires n <= 64
    ensures |s| == n && forall k :: 0 <= k < n ==> s[k] == k
  {
    seq(n, k => if 0 <= k < 64 then k as Index else 0)
  }

  /** `n >> j` for `n >= 0`: `j` halvings. */
  function Shr(n: nat, j: nat): nat
  {
    if j == 0 then n else Shr(n / 2, j - 1)
  }

  /** `(n >> j) & 1` is bit `j` of `n`. */
  lemma {:induction false} ShrBit(n: nat, j: nat)
    ensures Shr(n, j) % 2 == 1 <==> TestBit(n, j)
  {
    if j > 0 {
      ShrBit(n / 2, j - 1);
    }
  }

  /** The operators on non-negative integers; `AndNot` is `a & ~b`, which
      Python's `&` and `|` reduce to when one operand is negative. */
  datatype Op = And | Or | Xor | AndNot

  /** The operator `op` on one bit of each operand. */
  predicate Combine(op: Op, x: bool, y: bool)
  {
    match op
    case And => x && y
    case Or => x || y
    case Xor => x != y
    case AndNot => x && !y
  }

  /** `a & b`, `a | b`, `a ^ b` or `a & ~b`, from the lowest bit up. */
  function Apply(op: Op, a: nat, b: nat): nat
    decreases a + b
  {
    if a == 0 && b == 0 then 0
    else 2 * Apply(op, a / 2, b / 2) + (if Combine(op, a % 2 == 1, b % 2 == 1) then 1 else 0)
  }

  /** `int("0xFFFFFFFFFFFFFFFF", 16)`, the mask `and64` starts from. */
  const Full: nat := Word - 1

  lemma {:induction false} ZeroBits(j: nat)
    ensures !TestBit(0, j)
  {
    if j > 0 {
      ZeroBits(j - 1);
    }
  }

  /** Each operator works bit by bit. */
  lemma {:induction false} ApplyBit(op: Op, a: nat, b: nat, j: nat)
    ensures TestBit(Apply(op, a, b), j) == Combine(op, TestBit(a, j), TestBit(b, j))
  {
    if a == 0 && b == 0 {
      ZeroBits(j);
    } else {
      var c := Apply(op, a / 2, b / 2);
      var r := if Combine(op, a % 2 == 1, b % 2 == 1) then 1 else 0;
      assert Apply(op, a, b) == 2 * c + r;
      assert (2 * c + r) % 2 == r && (2 * c + r) / 2 == c;
      if j > 0 {
        ApplyBit(op, a / 2, b / 2, j - 1);
      }
    }
  }

  /** `1 << p` has exactly bit `p` set. */
  lemma {:induction false} Pow2Bit(p: nat, j: nat)
    ensures TestBit(Pow2(p), j) <==> p == j
  {
    if p == 0 {
      if j > 0 {
        ZeroBits(j - 1);
      }
    } else if j > 0 {
      Pow2Bit(p - 1, j - 1);
    }
  }

  /** `2**k - 1` has exactly the bits below `k` set. */
  lemma {:induction false} LowOnes(k: nat, j: nat)
    ensures TestBit(Pow2(k) - 1, j) <==> j < k
  {
    if k == 0 {
      ZeroBits(j);
    } else {
      assert Pow2(k) - 1 == 2 * (Pow2(k - 1) - 1) + 1;
      if j > 0 {
        LowOnes(k - 1, j - 1);
      }
    }
  }

  /** A number below `2**k` has no bit at `k` or above. */
  lemma {:induction false} HighBitsClear(n: nat, k: nat, j: nat)
    requires n < Pow2(k) && k <= j
    ensures !TestBit(n, j)
  {
    if k == 0 {
      ZeroBits(j);
    } else {
      HighBitsClear(n / 2, k - 1, j - 1);
    }
  }

  /** Two numbers with the same bits are equal. */
  lemma {:induction false} BitsDetermine(a: nat, b: nat)
    requires forall j: nat :: TestBit(a, j) == TestBit(b, j)
    ensures a == b
    decreases a + b
  {
    if a != 0 || b != 0 {
      assert TestBit(a, 0) == TestBit(b, 0);
      forall j: nat
        ensures TestBit(a / 2, j) == TestBit(b / 2, j)
      {
        assert TestBit(a, j + 1) == TestBit(b, j + 1);
      }
      BitsDetermine(a / 2, b / 2);
    }
  }

  lemma {:induction false} Pow2Monotone(a: nat, b: nat)
    requires a <= b
    ensures Pow2(a) <= Pow2(b)
  {
    if a < b {
      Pow2Monotone(a, b - 1);
    }
  }

  lemma {:induction false} Pow2Pow16(k: nat)
    ensures Pow2(4 * k) == Pow16(k)
  {
    if k > 0 {
      Pow2Pow16(k - 1);
      var n := 4 * k;
      assert Pow2(n) == 2 * Pow2(n - 1);
      assert Pow2(n - 1) == 2 * Pow2(n - 2);
      assert Pow2(n - 2) == 2 * Pow2(n - 3);
      assert Pow2(n - 3) == 2 * Pow2(n - 4);
    }
  }

  /** 64 bits span exactly the values a `struct.pack('<Q', ...)` accepts. */
  lemma Pow2Word()
    ensures Pow2(64) == Word
  {
    Pow2Pow16(16);
    PowWord();
  }

  /** No operator carries a bit past the width of its operands. */
  lemma {:induction false} ApplyBound(op: Op, a: nat, b: nat, k: nat)
    requires a < Pow2(k) && b < Pow2(k)
    ensures Apply(op, a, b) < Pow2(k)
  {
    if a != 0 || b != 0 {
      ApplyBound(op, a / 2, b / 2, k - 1);
    }
  }

  lemma {:induction false} XorZero(n: nat)
    ensures Apply(Xor, n, 0) == n
  {
    if n != 0 {
      XorZero(n / 2);
    }
  }

  /** `^` with a mask below `2**k` keeps a number at or above `2**k` there. */
  lemma {:induction false} XorKeepsHigh(n: nat, m: nat, k: nat)
    requires n >= Pow2(k) && m < Pow2(k)
    ensures Apply(Xor, n, m) >= Pow2(k)
  {
    if k == 0 {
      XorZero(n);
    } else {
      XorKeepsHigh(n / 2, m / 2, k - 1);
    }
  }

  /** `^` with the same mask twice gives the number back. */
  lemma XorXor(a: nat, m: nat)
    ensures Apply(Xor, Apply(Xor, a, m), m) == a
  {
    forall j: nat
      ensures TestBit(Apply(Xor, Apply(Xor, a, m), m), j) == TestBit(a, j)
    {
      ApplyBit(Xor, Apply(Xor, a, m), m, j);
      ApplyBit(Xor, a, m, j);
    }
    BitsDetermine(Apply(Xor, Apply(Xor, a, m), m), a);
  }

  /** A number whose bits at `k` and above are all clear is below `2**k`. */
  lemma {:induction false} LowBitsBound(n: nat, k: nat)
    requires forall j: nat :: k <= j ==> !TestBit(n, j)
    ensures n < Pow2(k)
  {
    if k == 0 {
      forall j: nat
        ensures TestBit(n, j) == TestBit(0, j)
      {
        ZeroBits(j);
      }
      BitsDetermine(n, 0);
    } else {
      forall j: nat | k - 1 <= j
        ensures !TestBit(n / 2, j)
      {
        assert !TestBit(n, j + 1);
      }
      LowBitsBound(n / 2, k - 1);
    }
  }

  /** Bit `j` of any Python integer: a negative `n` is read in the infinite
      two's complement, where its bits are those of `~n == -n - 1` inverted. */
  predicate IntBit(n: int, j: nat)
  {
    if n >= 0 then TestBit(n, j) else !TestBit(-n - 1, j)
  }

  /** Python's `n & m` for a non-negative `m`: on a negative `n` it is
      `m & ~(~n)`. */
  function PyAnd(n: int, m: nat): (r: nat)
  {
    if n >= 0 then Apply(And, n, m) else Apply(AndNot, m, -n - 1)
  }

  /** Python's `n | m` for a non-negative `m`: on a negative `n` it is
      `~(~n & ~m)`. */
  function PyOr(n: int, m: nat): (r: int)
    ensures n < 0 <==> r < 0
  {
    if n >= 0 then Apply(Or, n, m)
    else var c: int := Apply(AndNot, -n - 1, m); -c - 1
  }

  /** Python's `n ^ m` for a non-negative `m`: on a negative `n` it is
      `~(~n ^ m)`. */
  function PyXor(n: int, m: nat): (r: int)
    ensures n < 0 <==> r < 0
  {
    if n >= 0 then Apply(Xor, n, m)
    else var c: int := Apply(Xor, -n - 1, m); -c - 1
  }

  /** The operators on Python integers work bit by bit, negative
      integers included. */
  lemma PyAndBit(n: int, m: nat, j: nat)
    ensures IntBit(PyAnd(n, m), j) == (IntBit(n, j) && TestBit(m, j))
  {
    if n >= 0 {
      ApplyBit(And, n, m, j);
    } else {
      ApplyBit(AndNot, m, -n - 1, j);
    }
  }

  lemma PyOrBit(n: int, m: nat, j: nat)
    ensures IntBit(PyOr(n, m), j) == (IntBit(n, j) || TestBit(m, j))
  {
    if n >= 0 {
      ApplyBit(Or, n, m, j);
    } else {
      var c: int := Apply(AndNot, -n - 1, m);
      ApplyBit(AndNot, -n - 1, m, j);
      assert PyOr(n, m) == -c - 1 && -(-c - 1) - 1 == c;
    }
  }

  lemma PyXorBit(n: int, m: nat, j: nat)
    ensures IntBit(PyXor(n, m), j) == (IntBit(n, j) != TestBit(m, j))
  {
    if n >= 0 {
      ApplyBit(Xor, n, m, j);
    } else {
      var c: int := Apply(Xor, -n - 1, m);
      ApplyBit(Xor, -n - 1, m, j);
      assert PyXor(n, m) == -c - 1 && -(-c - 1) - 1 == c;
    }
  }

  /** `n & m` has no bit outside `m`, so it lies in `[0, 2**k)` with `m`. */
  lemma AndBound(n: int, m: nat, k: nat)
    requires m < Pow2(k)
    ensures PyAnd(n, m) < Pow2(k)
  {
    forall j: nat | k <= j
      ensures !TestBit(PyAnd(n, m), j)
    {
      PyAndBit(n, m, j);
      HighBitsClear(m, k, j);
    }
    LowBitsBound(PyAnd(n, m), k);
  }

  /** `^` and `|` with a number below `2**k` keep a number in `[0, 2**k)`
      inside it. */
  lemma XorOrBound(n: nat, m: nat, k: nat)
    requires n < Pow2(k) && m < Pow2(k)
    ensures PyXor(n, m) < Pow2(k) && PyOr(n, m) < Pow2(k)
  {
    ApplyBound(Xor, n, m, k);
    ApplyBound(Or, n, m, k);
  }

  lemma FlipRange(base: int, i: Index)
    ensures 0 <= base < Word ==> 0 <= PyXor(base, Pow2(i)) < Word
    ensures base >= Word ==> PyXor(base, Pow2(i)) >= Word
  {
    Pow2Word();
    Pow2Monotone(i + 1, 64);
    if 0 <= base < Word {
      XorOrBound(base, Pow2(i), 64);
    } else if base >= Word {
      XorKeepsHigh(base, Pow2(i), 64);
    }
  }

  /** `base ^ 2**i`, the probe of one sweep step.  The result stays on the
      same side of the range `[0, 2**64)` as `base`. */
  function Flip(base: int, i: Index): (r: int)
    ensures base < 0 ==> r < 0
    ensures 0 <= base < Word ==> 0 <= r < Word
    ensures base >= Word ==> r >= Word
  {
    FlipRange(base, i);
    PyXor(base, Pow2(i))
  }

  /** Flipping bit `i` changes bit `i` of the encoding and no other bit. */
  lemma FlipBits(base: int, i: Index)
    ensures forall j: nat :: IntBit(Flip(base, i), j) <==> (IntBit(base, j) != (j == i))
  {
    forall j: nat
      ensures IntBit(Flip(base, i), j) <==> (IntBit(base, j) != (j == i))
    {
      PyXorBit(base, Pow2(i), j);
      Pow2Bit(i, j);
    }
  }

  /** Flipping the same bit twice gives the encoding back, for every Python
      integer. */
  lemma FlipFlip(base: int, i: Index)
    ensures Flip(Flip(base, i), i) == base
  {
    if base >= 0 {
      XorXor(base, Pow2(i));
    } else {
      XorXor(-base - 1, Pow2(i));
    }
  }

  /** Whether one of the first `n` entries of `pos` is `j` with its entry
      of `bits` equal to `want`. */
  predicate Marked(bits: seq<int>, pos: seq<Index>, n: nat, j: nat, want: int)
    requires n <= |pos| <= |bits|
  {
    n > 0 && ((pos[n - 1] == j && bits[n - 1] == want) || Marked(bits, pos, n - 1, j, want))
  }

  lemma {:induction false} MarkedAt(bits: seq<int>, pos: seq<Index>, n: nat, j: nat, want: int)
    requires n <= |pos| <= |bits|
    ensures Marked(bits, pos, n, j, want) <==> exists i :: 0 <= i < n && pos[i] == j && bits[i] == want
  {
    if n > 0 {
      MarkedAt(bits, pos, n - 1, j, want);
    }
  }

  /** The mask of one `and64` iteration: every bit of 64 but `p`. */
  function Hole(p: Index): nat
  {
    Apply(Xor, Full, Pow2(p))
  }

  /** One iteration of `and64`: when the entry of `bits` is 0 the number is
      masked with Hole(p). */
  function ClearIf(w: int, b: int, p: Index): int
  {
    if b == 0 then PyAnd(w, Hole(p)) else w
  }

  /** One iteration of `or64`: when the entry of `bits` is 1, bit `p` is set. */
  function SetIf(w: int, b: int, p: Index): int
  {
    if b == 1 then PyOr(w, Pow2(p)) else w
  }

  /** `and64(enc, bits, pos)` after its first `n` iterations. */
  function Cleared(enc: int, bits: seq<int>, pos: seq<Index>, n: nat): int
    requires n <= |pos| <= |bits|
  {
    if n == 0 then enc else ClearIf(Cleared(enc, bits, pos, n - 1), bits[n - 1], pos[n - 1])
  }

  /** `or64(enc, bits, pos)` after its first `n` iterations. */
  function Placed(enc: int, bits: seq<int>, pos: seq<Index>, n: nat): int
    requires n <= |pos| <= |bits|
  {
    if n == 0 then enc else SetIf(Placed(enc, bits, pos, n - 1), bits[n - 1], pos[n - 1])
  }

  method And64(enc: int, bits: seq<int>, pos: seq<Index>) returns (newenc: int)
    requires |pos| <= |bits|
    ensures newenc == Cleared(enc, bits, pos, |pos|)
  {
    newenc := enc;
    for i := 0 to |pos|
      invariant newenc == Cleared(enc, bits, pos, i)
    {
      if bits[i] == 0 {
        var base := Full;
        var biti := Pow2(pos[i]);
        biti := Apply(Xor, base, biti);  // every bit of 64 but pos[i]
        newenc := PyAnd(newenc, biti);
      }
    }
  }

  method Or64(enc: int, bits: seq<int>, pos: seq<Index>) returns (newenc: int)
    requires |pos| <= |bits|
    ensures newenc == Placed(enc, bits, pos, |pos|)
  {
    newenc := enc;
    for i := 0 to |pos|
      invariant newenc == Placed(enc, bits, pos, i)
    {
      if bits[i] == 1 {
        var biti := Pow2(pos[i]);
        newenc := PyOr(newenc, biti);
      }
    }
  }

  lemma HoleBits(p: Index, j: nat)
    ensures TestBit(Hole(p), j) <==> j < 64 && j != p
    ensures Hole(p) < Word
  {
    ApplyBit(Xor, Full, Pow2(p), j);
    Pow2Word();
    LowOnes(64, j);
    Pow2Bit(p, j);
    Pow2Monotone(p + 1, 64);
    XorOrBound(Full, Pow2(p), 64);
  }

  lemma ClearIfBit(w: int, b: int, p: Index, j: Index)
    ensures IntBit(ClearIf(w, b, p), j) <==> IntBit(w, j) && !(b == 0 && p == j)
  {
    if b == 0 {
      PyAndBit(w, Hole(p), j);
      HoleBits(p, j);
    }
  }

  lemma SetIfBit(w: int, b: int, p: Index, j: nat)
    ensures IntBit(SetIf(w, b, p), j) <==> IntBit(w, j) || (b == 1 && p == j)
  {
    if b == 1 {
      PyOrBit(w, Pow2(p), j);
      Pow2Bit(p, j);
    }
  }

  /** An `and64` iteration that clears a bit leaves a number in
      `[0, 2**64)`, and one in that range stays there. */
  lemma ClearIfRange(w: int, b: int, p: Index)
    ensures b == 0 || 0 <= w < Word ==> 0 <= ClearIf(w, b, p) < Word
  {
    HoleBits(p, 0);
    Pow2Word();
    AndBound(w, Hole(p), 64);
  }

  lemma SetIfRange(w: int, b: int, p: Index)
    ensures 0 <= w < Word ==> 0 <= SetIf(w, b, p) < Word
  {
    Pow2Word();
    Pow2Monotone(p + 1, 64);
    if 0 <= w < Word {
      XorOrBound(w, Pow2(p), 64);
    }
  }

  lemma {:induction false} ClearedBit(enc: int, bits: seq<int>, pos: seq<Index>, n: nat, j: Index)
    requires n <= |pos| <= |bits|
    ensures IntBit(Cleared(enc, bits, pos, n), j) <==> IntBit(enc, j) && !Marked(bits, pos, n, j, 0)
  {
    if n > 0 {
      ClearedBit(enc, bits, pos, n - 1, j);
      ClearIfBit(Cleared(enc, bits, pos, n - 1), bits[n - 1], pos[n - 1], j);
    }
  }

  lemma {:induction false} PlacedBit(enc: int, bits: seq<int>, pos: seq<Index>, n: nat, j: nat)
    requires n <= |pos| <= |bits|
    ensures IntBit(Placed(enc, bits, pos, n), j) <==> IntBit(enc, j) || Marked(bits, pos, n, j, 1)
  {
    if n > 0 {
      PlacedBit(enc, bits, pos, n - 1, j);
      SetIfBit(Placed(enc, bits, pos, n - 1), bits[n - 1], pos[n - 1], j);
    }
  }

  /** `and64` with a 0 among its first `n` entries of `bits`, or on a
      number already in `[0, 2**64)`, yields a number in that range. */
  lemma {:induction false} ClearedRange(enc: int, bits: seq<int>, pos: seq<Index>, n: nat)
    requires n <= |pos| <= |bits|
    requires (0 <= enc < Word) || 0 in bits[..n]
    ensures 0 <= Cleared(enc, bits, pos, n) < Word
  {
    if n > 0 {
      var prev := Cleared(enc, bits, pos, n - 1);
      ClearIfRange(prev, bits[n - 1], pos[n - 1]);
      if bits[n - 1] != 0 {
        assert bits[..n] == bits[..n - 1] + [bits[n - 1]];
        ClearedRange(enc, bits, pos, n - 1);
      } else if 0 <= enc < Word {
        ClearedRange(enc, bits, pos, n - 1);
      }
    }
  }

  lemma {:induction false} PlacedRange(enc: int, bits: seq<int>, pos: seq<Index>, n: nat)
    requires n <= |pos| <= |bits|
    requires 0 <= enc < Word
    ensures 0 <= Placed(enc, bits, pos, n) < Word
  {
    if n > 0 {
      PlacedRange(enc, bits, pos, n - 1);
      SetIfRange(Placed(enc, bits, pos, n - 1), bits[n - 1], pos[n - 1]);
    }
  }

  /** `and64` clears exactly the positions whose entry of `bits` is 0 and
      keeps every other bit below 64; with a 0 among `bits` the result is a
      64-bit value whatever the sign and width of `enc`. */
  lemma ClearedBits(enc: int, bits: seq<int>, pos: seq<Index>)
    requires |pos| <= |bits|
    ensures forall j: Index :: IntBit(Cleared(enc, bits, pos, |pos|), j) <==> IntBit(enc, j) && !Marked(bits, pos, |pos|, j, 0)
    ensures (0 <= enc < Word) || 0 in bits[..|pos|] ==> 0 <= Cleared(enc, bits, pos, |pos|) < Word
  {
    forall j: Index
      ensures IntBit(Cleared(enc, bits, pos, |pos|), j) <==> IntBit(enc, j) && !Marked(bits, pos, |pos|, j, 0)
    {
      ClearedBit(enc, bits, pos, |pos|, j);
    }
    if (0 <= enc < Word) || 0 in bits[..|pos|] {
      ClearedRange(enc, bits, pos, |pos|);
    }
  }

  /** `or64` sets exactly the positions whose entry of `bits` is 1 and keeps
      every other bit; a 64-bit value stays one. */
  lemma PlacedBits(enc: int, bits: seq<int>, pos: seq<Index>)
    requires |pos| <= |bits|
    ensures forall j: nat :: IntBit(Placed(enc, bits, pos, |pos|), j) <==> IntBit(enc, j) || Marked(bits, pos, |pos|, j, 1)
    ensures 0 <= enc < Word ==> 0 <= Placed(enc, bits, pos, |pos|) < Word
  {
    forall j: nat
      ensures IntBit(Placed(enc, bits, pos, |pos|), j) <==> IntBit(enc, j) || Marked(bits, pos, |pos|, j, 1)
    {
      PlacedBit(enc, bits, pos, |pos|, j);
    }
    if 0 <= enc < Word {
      PlacedRange(enc, bits, pos, |pos|);
    }
  }

  lemma {:induction false} AndZero(x: nat)
    ensures Apply(And, x, 0) == 0
  {
    if x > 0 {
      AndZero(x / 2);
    }
  }

  /** `x & 1` is the lowest bit of `x`. */
  lemma AndOne(x: nat)
    ensures Apply(And, x, 1) == x % 2
  {
    AndZero(x / 2);
  }

  /** Two different numbers below 2^k differ in one of their `k` low bits. */
  lemma LowBitsDiffer(v: nat, w: nat, k: nat)
    requires v < Pow2(k) && w < Pow2(k) && v != w
    ensures exists t :: 0 <= t < k && TestBit(v, t) != TestBit(w, t)
  {
    if forall t :: 0 <= t < k ==> TestBit(v, t) == TestBit(w, t) {
      forall j: nat
        ensures TestBit(v, j) == TestBit(w, j)
      {
        if j >= k {
          HighBitsClear(v, k, j);
          HighBitsClear(w, k, j);
        }
      }
      BitsDetermine(v, w);
    }
  }
}
