/** Growing buffers (stringext.c). */
module Buffers {

  function Pow2(k: nat): (p: nat)
    ensures p > 0
  {
    if k == 0 then 1 else 2 * Pow2(k - 1)
  }

  // The shift-or fold that rounds up to a power of two.

  /** Bitwise or of two unsigned integers. */
  function Or(a: nat, b: nat): nat {
    if a == 0 && b == 0 then 0
    else (if a % 2 == 1 || b % 2 == 1 then 1 else 0) + 2 * Or(a / 2, b / 2)
  }

  /** v >> s */
  function Shift(v: nat, s: nat): nat {
    if s == 0 then v else Shift(v / 2, s - 1)
  }

  lemma {:induction false} ShiftHalf(v: nat, s: nat)
    ensures Shift(v, s) / 2 == Shift(v, s + 1) == Shift(v / 2, s)
  {
    if s > 0 {
      ShiftHalf(v / 2, s - 1);
    }
  }

  lemma {:induction false} ShiftOut(v: nat, s: nat)
    requires v < Pow2(s)
    ensures Shift(v, s) == 0
  {
    if s > 0 {
      ShiftOut(v / 2, s - 1);
    }
  }

  /** v has k bits and the topmost s of them are ones. */
  predicate TopOnes(v: nat, k: nat, s: nat) {
    s <= k && Shift(v, k - s) == Pow2(s) - 1
  }

  lemma {:induction false} OrLowOnes(v: nat, j: nat, s: nat)
    requires Shift(v, j) == Pow2(s) - 1
    ensures Or(v, Pow2(j) - 1) == Pow2(j + s) - 1
  {
    if j == 0 {
      OrZero(v);
    } else {
      ShiftHalf(v, j - 1);
      OrLowOnes(v / 2, j - 1, s);
      assert (Pow2(j) - 1) / 2 == Pow2(j - 1) - 1;
    }
  }

  lemma {:induction false} OrZero(v: nat)
    ensures Or(v, 0) == v
  {
    if v > 0 {
      OrZero(v / 2);
    }
  }

  lemma {:induction false} ShiftOnes(v: nat, k: nat, s: nat, t: nat)
    requires TopOnes(v, k, s) && t <= s
    ensures TopOnes(v, k, t)
    decreases s - t
  {
    if t < s {
      ShiftHalf(v, k - s);
      assert (Pow2(s) - 1) / 2 == Pow2(s - 1) - 1;
      ShiftOnes(v, k, s - 1, t);
    }
  }

  /** One step v |= v >> s doubles the run of ones at the top. */
  lemma {:induction false} OrStep(v: nat, k: nat, s: nat)
    requires TopOnes(v, k, s)
    ensures TopOnes(Or(v, Shift(v, s)), k, if 2 * s < k then 2 * s else k)
    decreases k
  {
    if 2 * s < k {
      ShiftHalf(v, k - s - 1);
      OrStep(v / 2, k - 1, s);
      ShiftHalf(v, s);
      var w := Or(v, Shift(v, s));
      assert w / 2 == Or(v / 2, Shift(v, s) / 2);
      ShiftHalf(w, k - 2 * s - 1);
    } else {
      ShiftOnes(v, k, s, k - s);
      OrLowOnes(v, k - s, s);
    }
  }

  /** The five steps on a 32-bit value. */
  function Fold(v: nat): nat {
    var v1 := Or(v, Shift(v, 1));
    var v2 := Or(v1, Shift(v1, 2));
    var v4 := Or(v2, Shift(v2, 4));
    var v8 := Or(v4, Shift(v4, 8));
    Or(v8, Shift(v8, 16))
  }

  /** For a value of exactly k bits the fold sets all of them. */
  lemma FoldOnes(v: nat, k: nat)
    requires 0 < k <= 32 && Pow2(k - 1) <= v < Pow2(k)
    ensures Fold(v) == Pow2(k) - 1
  {
    TopBit(v, k);
    OrStep(v, k, 1);
    var v1 := Or(v, Shift(v, 1));
    var v2 := Or(v1, Shift(v1, 2));
    var v4 := Or(v2, Shift(v2, 4));
    var v8 := Or(v4, Shift(v4, 8));
    FoldStep(v1, k, 2);
    FoldStep(v2, k, 4);
    FoldStep(v4, k, 8);
    FoldStep(v8, k, 16);
  }

  lemma {:induction false} TopBit(v: nat, k: nat)
    requires k > 0 && Pow2(k - 1) <= v < Pow2(k)
    ensures TopOnes(v, k, 1)
  {
    if k > 1 {
      TopBit(v / 2, k - 1);
    }
  }

  function Least(a: nat, b: nat): nat { if a < b then a else b }

  lemma FoldStep(v: nat, k: nat, s: nat)
    requires TopOnes(v, k, Least(s, k))
    ensures TopOnes(Or(v, Shift(v, s)), k, Least(2 * s, k))
  {
    if s <= k {
      OrStep(v, k, s);
    } else {
      Pow2Monotone(k, s);
      ShiftOut(v, s);
      OrZero(v);
    }
  }

  lemma {:induction false} Pow2Monotone(a: nat, b: nat)
    requires a < b
    ensures 2 * Pow2(a) <= Pow2(b)
  {
    if a + 1 < b {
      Pow2Monotone(a, b - 1);
    }
  }

  /** The least power of two that is not below n. */
  ghost predicate IsLeastPow2(n: nat, p: nat, k: nat) {
    p == Pow2(k) && n <= p && forall j: nat :: n <= Pow2(j) ==> p <= Pow2(j)
  }

  lemma {:induction false} BitsOf(v: nat) returns (k: nat)
    requires v > 0
    ensures k > 0 && Pow2(k - 1) <= v < Pow2(k)
  {
    if v == 1 {
      k := 1;
    } else {
      var k' := BitsOf(v / 2);
      k := k' + 1;
    }
  }

  lemma LogMonotone(a: nat, b: nat)
    requires a <= b
    ensures Pow2(a) <= Pow2(b)
  {
    if a < b {
      Pow2Monotone(a, b);
    }
  }

  lemma TopOfBits(n: nat, k: nat)
    requires k > 0 && Pow2(k - 1) < n <= Pow2(k)
    ensures IsLeastPow2(n, Pow2(k), k)
  {
    forall j: nat | n <= Pow2(j)
      ensures Pow2(k) <= Pow2(j)
    {
      if j < k {
        LogMonotone(j, k - 1);
      } else {
        LogMonotone(k, j);
      }
    }
  }

  /** Decrement, fold, increment: the next power of two, for every length a 32-bit fold can handle. */
  lemma RoundUp(n: nat, w: nat) returns (k: nat)
    requires 0 < n <= Pow2(w) && w <= 32
    ensures k <= w && IsLeastPow2(n, Fold(n - 1) + 1, k)
  {
    if n == 1 {
      k := 0;
    } else {
      k := BitsOf(n - 1);
      if k > w {
        LogMonotone(w, k - 1);
      }
      FoldOnes(n - 1, k);
      TopOfBits(n, k);
    }
  }

  const TWO_30 := 0x4000_0000
  const TWO_31 := 0x8000_0000

  lemma Literals()
    ensures Pow2(30) == TWO_30 && Pow2(31) == TWO_31
  {
    assert Pow2(10) == 1024;
    Pow2Sum(10, 10);
    Pow2Sum(20, 10);
    Pow2Sum(1, 30);
  }

  lemma {:induction false} Pow2Sum(a: nat, b: nat)
    ensures Pow2(a + b) == Pow2(a) * Pow2(b)
  {
    if a > 0 {
      Pow2Sum(a - 1, b);
      assert Pow2(a + b) == 2 * Pow2(a - 1 + b);
    }
  }

  ghost predicate LeastPow2(n: nat, p: nat) {
    exists k: nat :: IsLeastPow2(n, p, k)
  }

  /** The size membcat picks for a length the buffer cannot hold: the least power of two that fits,
      refused exactly above 2^30, the greatest power of two of a signed 32-bit integer. */
  method NewSize(newlen: nat) returns (ok: bool, size: nat)
    requires 0 < newlen
    ensures ok <==> newlen <= TWO_30
    ensures ok ==> newlen <= size < TWO_31 && LeastPow2(newlen, size)
  {
    size := 0;
    if newlen >= TWO_31 {
      return false, 0;
    }
    Literals();
    ghost var k := RoundUp(newlen, 31);
    var v := newlen - 1;
    v := Or(v, Shift(v, 1));
    v := Or(v, Shift(v, 2));
    v := Or(v, Shift(v, 4));
    v := Or(v, Shift(v, 8));
    v := Or(v, Shift(v, 16));
    v := v + 1;
    SizeLimit(newlen, v, k, 30);
    if v >= TWO_31 {
      return false, 0;
    }
    ok, size := true, v;
  }

  /** buffer, buffersize and bufferlen of membcat; sizes and lengths are signed 32-bit integers there. */
  class MemBuffer {
    var data: array<bv8>
    var len: nat

    ghost predicate Valid()
      reads this
    {
      len <= data.Length < TWO_31
    }

    ghost function Contents(): seq<bv8>
      requires Valid()
      reads this, data
    {
      data[..len]
    }

    /** membcat: fails, with the buffer unchanged, exactly when it has to grow to more than 2^30 bytes. */
    method Append(src: seq<bv8>) returns (ok: bool)
      requires Valid() && |src| < TWO_31
      modifies this, data
      ensures Valid()
      ensures !ok <==> old(data.Length) < old(len) + |src| && old(len) + |src| > TWO_30
      ensures !ok ==> data == old(data) && len == old(len) && data[..] == old(data[..])
      ensures ok ==> Contents() == old(Contents()) + src
      ensures ok && old(len) + |src| <= old(data.Length) ==> data == old(data)
      ensures ok && old(len) + |src| > old(data.Length) ==> fresh(data) && LeastPow2(old(len) + |src|, data.Length)
    {
      var newlen := len + |src|;
      if data.Length < newlen {
        var fits, size := NewSize(newlen);
        if !fits {
          return false;
        }
        Reallocate(size);
      }
      Copy(src);
      ok := true;
    }

    /** realloc: a larger block that starts with the old bytes */
    method Reallocate(size: nat)
      requires Valid() && data.Length < size < TWO_31
      modifies this`data
      ensures Valid() && fresh(data) && data.Length == size && Contents() == old(Contents())
    {
      var was := data;
      data := new bv8[size](i requires 0 <= i < size reads this, was =>
                              if i < was.Length then was[i] else 0);
    }

    /** memcpy behind the bytes in use */
    method Copy(src: seq<bv8>)
      requires Valid() && len + |src| <= data.Length
      modifies this`len, data
      ensures Valid() && data == old(data) && Contents() == old(Contents()) + src
    {
      forall i | 0 <= i < |src| {
        data[len + i] := src[i];
      }
      len := len + |src|;
    }
  }

  lemma SizeLimit(n: nat, v: nat, k: nat, w: nat)
    requires k <= w + 1 && IsLeastPow2(n, v, k)
    ensures v < Pow2(w + 1) <==> n <= Pow2(w)
  {
    if k <= w {
      LogMonotone(k, w);
    }
  }

  /** How the doubling loop of strnbcat ends: with a size that fits, with the program given up after ten
      rounds, or with a signed overflow, which C leaves undefined. */
  datatype Growth = Fits(size: nat) | GaveUp | Overflow

  /** A C string in an allocated block of size bytes. */
  class StringBuffer {
    var text: string
    var size: nat

    ghost predicate Valid()
      reads this
    {
      |text| < size < TWO_31
    }

    /** strnbcat: doubles the block until the text fits. */
    method Append(str: string) returns (growth: Growth)
      requires Valid() && |text| + |str| < TWO_31
      modifies this
      ensures Valid()
      ensures growth.Fits? ==> text == old(text) + str && size == growth.size && Doubled(old(size), |text|, size)
      ensures !growth.Fits? ==> text == old(text) && size == old(size)
      ensures growth.Overflow? <==> Overflows(old(size), |old(text)| + |str|)
      ensures growth.GaveUp? <==> 512 * old(size) <= |old(text)| + |str| && !growth.Overflow?
    {
      growth := Resize(|str| + |text|, size);
      if growth.Fits? {
        size := growth.size;
        text := text + str;
      }
    }
  }

  /** cap doubled k times */
  function Doubling(cap: nat, k: nat): nat {
    if k == 0 then cap else 2 * Doubling(cap, k - 1)
  }

  lemma {:induction false} DoublingMonotone(cap: nat, a: nat, b: nat)
    requires a <= b
    ensures Doubling(cap, a) <= Doubling(cap, b)
  {
    if a < b {
      DoublingMonotone(cap, a, b - 1);
    }
  }

  lemma NineDoublings(cap: nat)
    ensures Doubling(cap, 9) == 512 * cap
  {
    ThreeDoublings(cap, 0);
    ThreeDoublings(cap, 3);
    ThreeDoublings(cap, 6);
  }

  lemma ThreeDoublings(cap: nat, k: nat)
    ensures Doubling(cap, k + 3) == 8 * Doubling(cap, k)
  {
    assert Doubling(cap, k + 3) == 2 * Doubling(cap, k + 2);
    assert Doubling(cap, k + 2) == 2 * Doubling(cap, k + 1);
  }

  /** size is the first of cap, 2*cap, 4*cap, ... that holds len characters and a terminator */
  ghost predicate Doubled(cap: nat, len: nat, size: nat) {
    exists k: nat :: LeastDoubling(cap, len, size, k)
  }

  ghost predicate LeastDoubling(cap: nat, len: nat, size: nat, k: nat) {
    && size == Doubling(cap, k) && len < size
    && forall j: nat :: j < k ==> len >= Doubling(cap, j)
  }

  /** One of the first ten sizes is too small and cannot be doubled in a signed 32-bit integer. */
  ghost predicate Overflows(cap: nat, total: nat) {
    exists k: nat :: OverflowsAt(cap, total, k)
  }

  ghost predicate OverflowsAt(cap: nat, total: nat, k: nat) {
    k <= 9 && TWO_30 <= Doubling(cap, k) <= total
  }

  /** The doubling loop of strnbcat. */
  method Resize(total: nat, cap: nat) returns (growth: Growth)
    requires cap < TWO_31
    ensures growth.Fits? ==> total < growth.size < TWO_31 && Doubled(cap, total, growth.size)
    ensures growth.Overflow? <==> Overflows(cap, total)
    ensures growth.GaveUp? <==> 512 * cap <= total && !growth.Overflow?
  {
    var size := cap;
    var i := 0;
    NineDoublings(cap);
    while i < 10 && total >= size
      invariant 0 <= i <= 10 && size == Doubling(cap, i) && size < TWO_31
      invariant forall k: nat :: k < i ==> total >= Doubling(cap, k)
      invariant forall k: nat :: k < i ==> !OverflowsAt(cap, total, k)
    {
      if size >= TWO_30 {
        assert OverflowsAt(cap, total, i);
        return Overflow;
      }
      size := size + size;
      i := i + 1;
    }
    if i >= 10 {
      assert total >= Doubling(cap, 9);
      return GaveUp;
    }
    LaterFit(cap, total, i);
    assert LeastDoubling(cap, total, size, i);
    growth := Fits(size);
  }

  lemma LaterFit(cap: nat, total: nat, i: nat)
    requires i <= 9 && total < Doubling(cap, i)
    ensures total < Doubling(cap, 9)
    ensures forall k: nat :: i <= k ==> !OverflowsAt(cap, total, k)
  {
    DoublingMonotone(cap, i, 9);
    forall k: nat | i <= k
      ensures !OverflowsAt(cap, total, k)
    {
      DoublingMonotone(cap, i, k);
    }
  }
}
