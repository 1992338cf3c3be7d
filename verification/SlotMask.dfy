/** The bit arithmetic behind the slot count: the power-of-two test, rounding up by doubling, and masking as modulo. */
module SlotMask {
  import opened Prelude

  /** Bitwise and of two naturals, lowest bit first. */
  function And(a: nat, b: nat): nat {
    if a == 0 || b == 0 then 0 else 2 * And(a / 2, b / 2) + (a % 2) * (b % 2)
  }

  function Pow2(k: nat): (p: nat)
    ensures p >= 1
  {
    if k == 0 then 1 else 2 * Pow2(k - 1)
  }

  ghost predicate IsPow2(n: nat) {
    exists k: nat :: n == Pow2(k)
  }

  lemma DoubleModulo(x: nat, p: nat)
    requires p >= 1
    ensures x % (2 * p) == 2 * ((x / 2) % p) + x % 2
  {
    var h := x / 2;
    var q, r := h / p, h % p;
    assert h == q * p + r;
    assert q * (2 * p) == 2 * (q * p);
    ModUnique(x, q, 2 * r + x % 2, 2 * p);
  }

  lemma {:induction false} MaskIsModulo(x: nat, k: nat)
    ensures And(x, Pow2(k) - 1) == x % Pow2(k)
  {
    if k == 0 {
      assert x % 1 == 0;
    } else {
      MaskIsModulo(x / 2, k - 1);
      OneMoreOne(x, Pow2(k - 1), Pow2(k));
    }
  }

  lemma OneMoreOne(x: nat, p: nat, q: nat)
    requires p >= 1 && q == 2 * p && And(x / 2, p - 1) == x / 2 % p
    ensures And(x, q - 1) == x % q
  {
    DoubleModulo(x, p);
    assert (q - 1) / 2 == p - 1 && (q - 1) % 2 == 1;
    assert And(x, q - 1) == 2 * And(x / 2, p - 1) + x % 2;
  }

  lemma {:induction false} AndSelf(n: nat)
    ensures And(n, n) == n
  {
    if n > 0 {
      var h, b := n / 2, n % 2;
      AndSelf(h);
      Halves(n, h, b);
      assert And(n, n) == 2 * And(h, h) + b * b;
    }
  }

  lemma Halves(n: nat, h: nat, b: nat)
    requires h == n / 2 && b == n % 2
    ensures n == 2 * h + b && b * b == b
  {
    assert b == 0 || b == 1;
  }

  /** `(n & (n - 1)) === 0` holds of the powers of two and of nothing else. */
  lemma {:induction false} PowerOfTwoTest(n: nat)
    requires n >= 1
    ensures And(n, n - 1) == 0 <==> IsPow2(n)
  {
    var m := n / 2;
    if n == 1 {
      assert Pow2(0) == 1;
    } else if n % 2 == 1 {
      AndSelf(m);
      assert And(n, n - 1) == 2 * m;
      forall k: nat
        ensures n != Pow2(k)
      {
        assert k > 0 ==> Pow2(k) == 2 * Pow2(k - 1);
      }
    } else {
      PowerOfTwoTest(m);
      assert (n - 1) / 2 == m - 1 && And(n, n - 1) == 2 * And(m, m - 1);
      if IsPow2(m) {
        var k: nat :| m == Pow2(k);
        assert n == Pow2(k + 1);
      }
      if IsPow2(n) {
        var k: nat :| n == Pow2(k);
        assert k > 0 && m == Pow2(k - 1);
      }
    }
  }

  lemma {:induction false} NextPowerDoubles(j: nat, k: nat)
    requires Pow2(j) < Pow2(k)
    ensures 2 * Pow2(j) <= Pow2(k)
  {
    if j == 0 {
      assert Pow2(k) >= 2;
    } else {
      assert k > 0;
      NextPowerDoubles(j - 1, k - 1);
    }
  }

  // ----- rounding up with a 32-bit shift -----

  /** `n <<= 1` on a 32-bit signed integer. */
  function Shl1(n: int): int {
    var d := (2 * n) % 0x1_0000_0000;
    if d >= 0x8000_0000 then d - 0x1_0000_0000 else d
  }

  const LARGEST_SHIFTED := 0x4000_0000

  lemma {:induction false} PowersMultiply(j: nat, k: nat)
    ensures Pow2(j + k) == Pow2(j) * Pow2(k)
  {
    if j > 0 {
      PowersMultiply(j - 1, k);
      assert Pow2(j + k) == 2 * Pow2(j + k - 1);
      assert 2 * (Pow2(j - 1) * Pow2(k)) == (2 * Pow2(j - 1)) * Pow2(k);
    }
  }

  lemma LargestIsPower()
    ensures Pow2(30) == LARGEST_SHIFTED
  {
    assert Pow2(5) == 32;
    PowersMultiply(5, 5);
    PowersMultiply(10, 5);
    PowersMultiply(15, 15);
  }

  function Doubled(n: nat): int {
    if n == 0 then 1 else Shl1(Doubled(n - 1))
  }

  lemma ShiftValues(x: nat)
    ensures x <= LARGEST_SHIFTED / 2 ==> Shl1(x) == 2 * x
    ensures Shl1(LARGEST_SHIFTED) == -0x8000_0000 && Shl1(-0x8000_0000) == 0 && Shl1(0) == 0
  {
  }

  lemma {:induction false} DoubledValue(n: nat)
    ensures n <= 30 ==> Doubled(n) == Pow2(n) <= LARGEST_SHIFTED
    ensures n > 30 ==> Doubled(n) <= 0
    ensures n > 31 ==> Doubled(n) == 0
    ensures n == 31 ==> Doubled(n) == -0x8000_0000
  {
    LargestIsPower();
    if n > 0 {
      DoubledValue(n - 1);
      if n <= 30 {
        PowersGrow(n, 30);
        ShiftValues(Pow2(n - 1));
      } else {
        ShiftValues(0);
      }
    }
  }

  lemma {:induction false} PowersGrow(j: nat, k: nat)
    requires j <= k
    ensures Pow2(j) <= Pow2(k)
  {
    if j < k {
      PowersGrow(j, k - 1);
    }
  }

  /** The rounding loop ends exactly for targets up to 2^30; beyond, the shift wraps to a negative number and then stays 0. */
  lemma RoundingEndsIff(target: real)
    ensures (exists n: nat :: Doubled(n) as real >= target) <==> target <= LARGEST_SHIFTED as real
  {
    DoubledValue(30);
    LargestIsPower();
    assert Doubled(30) == LARGEST_SHIFTED;
    forall n: nat
      ensures Doubled(n) <= LARGEST_SHIFTED
    {
      DoubledValue(n);
    }
  }

  // ----- the slot count of the constructor -----

  /** Rounding towards zero, as conversion to an integer does. */
  function Truncated(x: real): int {
    if x < 0.0 then -(-x).Floor else x.Floor
  }

  /** The 32 bits that a bitwise operator sees of a number. */
  function Bits32(x: real): nat {
    Truncated(x) % 0x1_0000_0000
  }

  const EXACT := 0x20_0000_0000_0000      // 2^53, up to which the host has every whole number

  /** A double: above 2^53 they are even, and above 2^54 multiples of four. */
  predicate IsNumber(x: real) {
    x > EXACT as real ==>
      x.Floor as real == x && x.Floor % 2 == 0 && (x >= (2 * EXACT) as real ==> x.Floor % 4 == 0)
  }

  /** `x - 1` in doubles: above 2^53 the result is rounded to the nearest one, and to the even one of two. */
  function MinusOne(x: real): real {
    if x <= EXACT as real then x - 1.0
    else if x < (2 * EXACT) as real && x.Floor % 4 != 0 then x - 2.0
    else x
  }

  /** `slots < 1 || (slots & (slots - 1)) !== 0` */
  predicate NeedsRounding(slots: real) {
    slots < 1.0 || And(Bits32(slots), Bits32(MinusOne(slots))) != 0
  }

  /** new Array(slots) takes whole lengths below 2^32 and throws on all others. */
  predicate IsArrayLength(slots: real) {
    slots.Floor as real == slots && 0.0 <= slots < 0x1_0000_0000 as real
  }

  predicate Endless(configured: real) {
    NeedsRounding(configured) && configured > LARGEST_SHIFTED as real
  }

  predicate Throws(configured: real) {
    !NeedsRounding(configured) && !IsArrayLength(configured)
  }

  /** The 32 bits with which a count of at least one passes the test. */
  ghost predicate Passes(slots: real) {
    var u := Bits32(slots);
    || u == 0
    || (slots <= EXACT as real && IsPow2(u))
    || (EXACT as real < slots < (2 * EXACT) as real && u == 2)
  }

  lemma AndTwoLess(a: nat)
    ensures And(4 * a + 2, 4 * a) == 4 * a
  {
    AndSelf(a);
    if a > 0 {
      assert (4 * a + 2) / 2 == 2 * a + 1 && 4 * a / 2 == 2 * a;
      assert (2 * a + 1) / 2 == a && 2 * a / 2 == a;
      assert And(2 * a + 1, 2 * a) == 2 * a;
    }
  }

  lemma ExactTest(slots: real)
    requires 1.0 <= slots <= EXACT as real
    ensures NeedsRounding(slots) <==> !Passes(slots)
  {
    var n, u := slots.Floor, Bits32(slots);
    assert (slots - 1.0).Floor == n - 1;
    if u >= 1 {
      PowerOfTwoTest(u);
      assert Bits32(slots - 1.0) == u - 1;
    }
  }

  lemma LowBits(n: nat)
    ensures n % 0x1_0000_0000 % 4 == n % 4
    ensures n % 4 == 2 ==> (n - 2) % 0x1_0000_0000 == n % 0x1_0000_0000 - 2
  {
    var q, r := n / 0x1_0000_0000, n % 0x1_0000_0000;
    LowBitsOf(n, q, r, 0x4000_0000 * q, n / 4, r / 4);
  }

  lemma LowBitsOf(n: nat, q: nat, r: nat, m: nat, k: nat, l: nat)
    requires n == 4 * m + r && m == 0x4000_0000 * q && r < 0x1_0000_0000 && k == n / 4 && l == r / 4
    ensures r % 4 == n % 4
    ensures n % 4 == 2 ==> (n - 2) % 0x1_0000_0000 == r - 2
  {
    assert n - 4 * k == r - 4 * (k - m);
    assert k - m == l;
    if n % 4 == 2 {
      assert n - 2 == 0x1_0000_0000 * q + (r - 2) && 0 <= r - 2;
    }
  }

  lemma AndBelow(u: nat)
    requires u % 4 == 2
    ensures And(u, u - 2) == 0 <==> u == 2
  {
    assert u == 4 * (u / 4) + 2;
    AndTwoLess(u / 4);
  }

  lemma RoundedTest(slots: real)
    requires slots > EXACT as real && IsNumber(slots)
    ensures NeedsRounding(slots) <==> !Passes(slots)
  {
    hide And, IsPow2, Passes, NeedsRounding, Bits32;
    var n := slots.Floor;
    if n < 2 * EXACT && n % 4 != 0 {
      RoundedDown(slots, n);
    } else {
      RoundedBack(slots, n);
    }
  }

  lemma RoundedBack(slots: real, n: nat)
    requires slots == n as real && EXACT < n && n % 4 == 0
    ensures NeedsRounding(slots) <==> !Passes(slots)
  {
    hide And, IsPow2;
    LowBits(n);
    AndSelf(Bits32(slots));
  }

  lemma RoundedDown(slots: real, n: nat)
    requires slots == n as real && EXACT < n < 2 * EXACT && n % 4 == 2
    ensures NeedsRounding(slots) <==> !Passes(slots)
  {
    LowBits(n);
    assert Bits32(MinusOne(slots)) == Bits32(slots) - 2;
    AndBelow(Bits32(slots));
  }

  /** Besides the powers of two the test lets through what is 0 on 32 bits; above 2^53, where one is not subtracted exactly,
      it is not the powers of two but, up to 2^54, the number 2. */
  lemma RoundingNeededIff(slots: real)
    requires IsNumber(slots)
    ensures NeedsRounding(slots) <==> slots < 1.0 || !Passes(slots)
  {
    if slots > EXACT as real {
      RoundedTest(slots);
    } else if slots >= 1.0 {
      ExactTest(slots);
    }
  }

  /** A configured count that the test lets through and that is an array length is a power of two. */
  lemma UnroundedIsPower(slots: real)
    requires !NeedsRounding(slots) && IsArrayLength(slots)
    ensures slots.Floor >= 1 && IsPow2(slots.Floor)
  {
    RoundingNeededIff(slots);
    assert Bits32(slots) == slots.Floor;
  }

  /**
   * For every configured count, the fractional, negative and huge ones too: the
   * constructor never returns iff the count is above 2^30 and its 32 bits do not
   * pass the test; it throws iff they do and the count is not a whole number
   * below 2^32; and otherwise it has its slots.
   */
  lemma ConstructionIff(configured: real)
    requires IsNumber(configured)
    ensures Endless(configured) <==> configured > LARGEST_SHIFTED as real && !Passes(configured)
    ensures Throws(configured) <==> configured >= 1.0 && Passes(configured) && !IsArrayLength(configured)
    ensures !(Endless(configured) && Throws(configured))
  {
    RoundingNeededIff(configured);
  }

  /** Where one is not subtracted exactly, a power of two on 32 bits does not pass: 2^53 + 4 loops for ever. */
  lemma RoundedAway(n: nat)
    requires n == EXACT + 4
    ensures IsNumber(n as real) && IsPow2(Bits32(n as real)) && Endless(n as real)
  {
    assert Bits32(n as real) == 4;
    assert Pow2(2) == 4;
    RoundingNeededIff(n as real);
  }

  lemma BitsOfSmall(n: nat)
    requires n < 0x1_0000_0000
    ensures Bits32(n as real) == n
  {
  }

  lemma BetweenPowers(n: nat)
    requires LARGEST_SHIFTED < n < 2 * LARGEST_SHIFTED
    ensures !IsPow2(n)
  {
    LargestIsPower();
    if IsPow2(n) {
      var k: nat :| n == Pow2(k);
      NextPowerDoubles(30, k);
    }
  }

  /** With a count strictly between 2^30 and 2^31 the constructor does not return. */
  lemma NeverReturns(n: nat)
    requires LARGEST_SHIFTED < n < 2 * LARGEST_SHIFTED
    ensures Endless(n as real)
  {
    BetweenPowers(n);
    BitsOfSmall(n);
    ConstructionIff(n as real);
  }

  lemma LeastPower(k: nat, configured: real)
    requires Pow2(k) as real >= configured && (k > 0 ==> Pow2(k - 1) as real < configured)
    ensures forall p: nat :: IsPow2(p) && p as real >= configured ==> Pow2(k) <= p
  {
    forall p: nat | IsPow2(p) && p as real >= configured
      ensures Pow2(k) <= p
    {
      var j: nat :| p == Pow2(j);
      if k > 0 {
        NextPowerDoubles(k - 1, j);
      }
    }
  }

  lemma ShiftStaysSmall(k: nat)
    requires Pow2(k) < LARGEST_SHIFTED
    ensures Shl1(Pow2(k)) == Pow2(k + 1) <= LARGEST_SHIFTED
  {
    LargestIsPower();
    NextPowerDoubles(k, 30);
  }

  /** The slot count the constructor settles on; None when making the array throws. */
  method RoundSlots(configured: real) returns (slots: Option<nat>)
    requires !Endless(configured)
    ensures slots.None? <==> Throws(configured)
    ensures slots.Some? ==>
      && IsPow2(slots.value) && slots.value >= 1 && slots.value as real >= configured
      && forall p: nat :: IsPow2(p) && p as real >= configured ==> slots.value <= p
  {
    if !NeedsRounding(configured) {
      if !IsArrayLength(configured) { return None; }
      UnroundedIsPower(configured);
      return Some(configured.Floor);
    }
    var n := RoundUp(configured);
    slots := Some(n);
  }

  /** The doubling loop. */
  method RoundUp(target: real) returns (slots: nat)
    requires target <= LARGEST_SHIFTED as real
    ensures IsPow2(slots) && slots >= 1 && slots as real >= target
    ensures forall p: nat :: IsPow2(p) && p as real >= target ==> slots <= p
  {
    slots := 1;
    ghost var k: nat := 0;
    while slots as real < target
      invariant slots == Pow2(k) <= LARGEST_SHIFTED
      invariant k > 0 ==> Pow2(k - 1) as real < target
      decreases LARGEST_SHIFTED - slots
    {
      ShiftStaysSmall(k);
      slots := Shl1(slots);
      k := k + 1;
    }
    LeastPower(k, target);
  }
}
