/** Bit strings, most significant bit first, and the bit operations of the codec
    on non-negative numbers: a shift is a product or quotient by a power of two,
    a mask of low bits is a remainder. */
module Bits {

  type byte = x: int | 0 <= x < 256

  type quintet = x: int | 0 <= x < 32

  function Pow2(w: nat): (r: nat)
    ensures r > 0
  {
    if w == 0 then 1 else 2 * Pow2(w - 1)
  }

  lemma SmallPowers()
    ensures Pow2(0) == 1 && Pow2(1) == 2 && Pow2(2) == 4 && Pow2(3) == 8 && Pow2(4) == 16
    ensures Pow2(5) == 32 && Pow2(6) == 64 && Pow2(7) == 128 && Pow2(8) == 256
  {
    assert Pow2(4) == 16;
    assert Pow2(6) == 64;
  }

  lemma LargePowers()
    ensures Pow2(16) == 0x1_0000 && Pow2(24) == 0x100_0000
  {
    SmallPowers();
    assert Pow2(10) == 0x400;
    assert Pow2(12) == 0x1000;
    assert Pow2(14) == 0x4000;
    assert Pow2(16) == 0x1_0000;
    assert Pow2(18) == 0x4_0000;
    assert Pow2(20) == 0x10_0000;
    assert Pow2(22) == 0x40_0000;
  }

  function Number(bits: seq<bool>): nat {
    if bits == [] then 0
    else 2 * Number(bits[..|bits| - 1]) + if bits[|bits| - 1] then 1 else 0
  }

  function Zeros(n: nat): (r: seq<bool>)
    ensures |r| == n && forall i :: 0 <= i < n ==> !r[i]
  {
    if n == 0 then [] else Zeros(n - 1) + [false]
  }

  /** Bitwise or. */
  function Or(a: nat, b: nat): nat {
    if a == 0 && b == 0 then 0
    else 2 * Or(a / 2, b / 2) + if a % 2 == 1 || b % 2 == 1 then 1 else 0
  }

  lemma {:induction false} OrZero(b: nat)
    ensures Or(0, b) == b
  {
    if b > 0 {
      OrZero(b / 2);
    }
  }

  lemma {:induction false} OrAddsNothing(a: nat)
    ensures Or(a, 0) == a
  {
    if a > 0 {
      OrAddsNothing(a / 2);
    }
  }

  /** Numbers that share no bit position are added by or. */
  lemma {:induction false} OrAdds(a: nat, b: nat, w: nat)
    requires b < Pow2(w)
    ensures Or(a * Pow2(w), b) == a * Pow2(w) + b
  {
    if w == 0 {
      OrAddsNothing(a);
    } else {
      var p := Pow2(w - 1);
      assert a * Pow2(w) == 2 * (a * p);
      OrAdds(a, b / 2, w - 1);
    }
  }

  /** Bitwise or of the number a, shifted up by w bits, and a number of w bits. */
  method BitOr(shifted: nat, low: nat, ghost a: nat, ghost w: nat, ghost p: nat) returns (r: nat)
    requires p == Pow2(w) && shifted == a * p && low < p
    ensures r == shifted + low
  {
    OrAdds(a, low, w);
    r := Or(shifted, low);
  }

  lemma {:induction false} NumberIsSmall(bits: seq<bool>)
    ensures Number(bits) < Pow2(|bits|)
  {
    if bits != [] {
      NumberIsSmall(bits[..|bits| - 1]);
    }
  }

  /** A bit string is determined by its length and its number. */
  lemma {:induction false} SameNumber(a: seq<bool>, b: seq<bool>)
    requires |a| == |b| && Number(a) == Number(b)
    ensures a == b
  {
    if a != [] {
      SameNumber(a[..|a| - 1], b[..|b| - 1]);
      assert a == a[..|a| - 1] + [a[|a| - 1]] && b == b[..|b| - 1] + [b[|b| - 1]];
    }
  }

  lemma {:induction false} NumberExists(v: nat, w: nat)
    requires v < Pow2(w)
    ensures exists bits: seq<bool> :: |bits| == w && Number(bits) == v
  {
    if w == 0 {
      var none: seq<bool> := [];
      assert |none| == 0 && Number(none) == 0;
    } else {
      NumberExists(v / 2, w - 1);
      var b: seq<bool> :| |b| == w - 1 && Number(b) == v / 2;
      var c := b + [v % 2 == 1];
      assert c[..|c| - 1] == b;
      assert |c| == w && Number(c) == v;
    }
  }

  /** The w bits of a number below Pow2(w). */
  ghost function BitsOf(v: nat, w: nat): (r: seq<bool>)
    ensures |r| == w && (v < Pow2(w) ==> Number(r) == v)
  {
    if v < Pow2(w) then
      NumberExists(v, w);
      var bits: seq<bool> :| |bits| == w && Number(bits) == v;
      bits
    else Zeros(w)
  }

  lemma BitsOfNumber(bits: seq<bool>)
    ensures Number(bits) < Pow2(|bits|) && BitsOf(Number(bits), |bits|) == bits
  {
    NumberIsSmall(bits);
    SameNumber(BitsOf(Number(bits), |bits|), bits);
  }

  lemma NumberAppend(a: seq<bool>, x: bool)
    ensures Number(a + [x]) == 2 * Number(a) + if x then 1 else 0
  {
    assert (a + [x])[..|a|] == a;
  }

  lemma Double(n: nat, half: nat, p: nat)
    requires p == 2 * half
    ensures n * p == 2 * (n * half)
  {
  }

  lemma {:induction false} NumberOfConcat(a: seq<bool>, b: seq<bool>, p: nat)
    requires p == Pow2(|b|)
    ensures Number(a + b) == Number(a) * p + Number(b)
    decreases |b|
  {
    if b == [] {
      assert a + b == a;
    } else {
      var short, x, half := b[..|b| - 1], b[|b| - 1], Pow2(|b| - 1);
      NumberOfConcat(a, short, half);
      NumberAppend(a + short, x);
      assert a + b == a + short + [x];
      NumberAppend(short, x);
      assert b == short + [x];
      Double(Number(a), half, p);
    }
  }

  /** The bits of a number are its high bits and then its low bits. */
  lemma Split(v: nat, n: nat, high: nat, low: nat, w: nat, l: nat, p: nat)
    requires n == w + l && p == Pow2(l) && low < p && high < Pow2(w) && v == high * p + low
    ensures BitsOf(v, n) == BitsOf(high, w) + BitsOf(low, l)
  {
    var bits := BitsOf(high, w) + BitsOf(low, l);
    NumberOfConcat(BitsOf(high, w), BitsOf(low, l), p);
    BitsOfNumber(bits);
  }

  lemma {:induction false} BitsOfZero(w: nat)
    ensures Number(Zeros(w)) == 0 && BitsOf(0, w) == Zeros(w)
  {
    if w > 0 {
      BitsOfZero(w - 1);
      assert Zeros(w)[..w - 1] == Zeros(w - 1);
    }
    BitsOfNumber(Zeros(w));
  }

  // ----- bit strings of byte and quintet strings, and back -----

  ghost function ByteBits(s: seq<byte>): (r: seq<bool>)
    ensures |r| == 8 * |s|
  {
    if s == [] then [] else ByteBits(s[..|s| - 1]) + BitsOf(s[|s| - 1], 8)
  }

  ghost function QuintetBits(s: seq<quintet>): (r: seq<bool>)
    ensures |r| == 5 * |s|
  {
    if s == [] then [] else QuintetBits(s[..|s| - 1]) + BitsOf(s[|s| - 1], 5)
  }

  lemma AppendByte(s: seq<byte>, x: byte)
    ensures ByteBits(s + [x]) == ByteBits(s) + BitsOf(x, 8)
  {
    assert (s + [x])[..|s|] == s;
  }

  lemma AppendQuintet(s: seq<quintet>, x: quintet)
    ensures QuintetBits(s + [x]) == QuintetBits(s) + BitsOf(x, 5)
  {
    assert (s + [x])[..|s|] == s;
  }

  /** The number that the last eight bits make up. */
  function LastByte(bits: seq<bool>): (r: byte)
    requires |bits| >= 8
    ensures BitsOf(r, 8) == bits[|bits| - 8..]
  {
    SmallPowers();
    BitsOfNumber(bits[|bits| - 8..]);
    Number(bits[|bits| - 8..])
  }

  /** The number that the last five bits make up. */
  function LastQuintet(bits: seq<bool>): (r: quintet)
    requires |bits| >= 5
    ensures BitsOf(r, 5) == bits[|bits| - 5..]
  {
    SmallPowers();
    BitsOfNumber(bits[|bits| - 5..]);
    Number(bits[|bits| - 5..])
  }

  lemma LastOfBytes(s: seq<byte>)
    requires s != []
    ensures LastByte(ByteBits(s)) == s[|s| - 1]
    ensures ByteBits(s)[..|ByteBits(s)| - 8] == ByteBits(s[..|s| - 1])
  {
    SmallPowers();
    var bits := ByteBits(s);
    assert bits[|bits| - 8..] == BitsOf(s[|s| - 1], 8);
  }

  lemma LastOfQuintets(s: seq<quintet>)
    requires s != []
    ensures LastQuintet(QuintetBits(s)) == s[|s| - 1]
    ensures QuintetBits(s)[..|QuintetBits(s)| - 5] == QuintetBits(s[..|s| - 1])
  {
    SmallPowers();
    var bits := QuintetBits(s);
    assert bits[|bits| - 5..] == BitsOf(s[|s| - 1], 5);
  }

  /** The remainder of n by d, counted down so that it stays a linear matter. */
  function Rem(n: nat, d: nat): (r: nat)
    requires d > 0
    ensures r < d && r <= n
  {
    if n < d then n else Rem(n - d, d)
  }

  lemma {:induction false} RemIs(n: nat, d: nat, t: nat, r: nat)
    requires n == d * t + r && r < d
    ensures Rem(n, d) == r
    decreases t
  {
    if t > 0 {
      var m := d * (t - 1);
      assert n == m + d + r;
      RemIs(n - d, d, t - 1, r);
    } else {
      assert n == r;
    }
  }

  lemma OnceMore(d: nat, u: nat)
    ensures d * (u + 1) == d * u + d
  {
  }

  lemma {:induction false} RemDivides(n: nat, d: nat) returns (t: nat)
    requires d > 0
    ensures n == d * t + Rem(n, d)
    decreases n
  {
    if n < d {
      t := 0;
    } else {
      var u := RemDivides(n - d, d);
      t := u + 1;
      OnceMore(d, u);
    }
  }

  lemma RemIsModulo(n: nat)
    ensures Rem(n, 5) == n % 5 && Rem(n, 8) == n % 8
  {
    RemIs(n, 5, n / 5, n % 5);
    RemIs(n, 8, n / 8, n % 8);
  }

  function FiveBitGroups(bits: seq<bool>): (r: seq<quintet>)
    requires Rem(|bits|, 5) == 0
    ensures 5 * |r| == |bits|
    decreases |bits|
  {
    if bits == [] then []
    else FiveBitGroups(bits[..|bits| - 5]) + [LastQuintet(bits)]
  }

  function EightBitGroups(bits: seq<bool>): (r: seq<byte>)
    requires Rem(|bits|, 8) == 0
    ensures 8 * |r| == |bits|
    decreases |bits|
  {
    if bits == [] then []
    else EightBitGroups(bits[..|bits| - 8]) + [LastByte(bits)]
  }

  /** What is missing from n to a multiple of d. */
  function Missing(n: nat, d: nat): (r: nat)
    requires d > 0
    ensures r < d
  {
    if Rem(n, d) == 0 then 0 else d - Rem(n, d)
  }

  lemma MissingFills(n: nat, d: nat)
    requires d > 0
    ensures Rem(n + Missing(n, d), d) == 0
  {
    var t := RemDivides(n, d);
    var r := Missing(n, d);
    RemIs(n + r, d, if r == 0 then t else t + 1, 0);
  }

  lemma MissingUnique(n: nat, d: nat, t: nat, r: nat)
    requires n + r == d * t && r < d
    ensures Missing(n, d) == r
  {
    if r == 0 {
      RemIs(n, d, t, 0);
    } else {
      assert n == d * (t - 1) + (d - r);
      RemIs(n, d, t - 1, d - r);
    }
  }

  /** Regroup into quintets, filling the last one up with zeros on the right. */
  function Quintets(bits: seq<bool>): (r: seq<quintet>)
    ensures 5 * |r| == |bits| + Missing(|bits|, 5)
  {
    MissingFills(|bits|, 5);
    FiveBitGroups(bits + Zeros(Missing(|bits|, 5)))
  }

  lemma WholeEights(n: nat)
    ensures Rem(n - Rem(n, 8), 8) == 0
  {
    var t := RemDivides(n, 8);
    RemIs(n - Rem(n, 8), 8, t, 0);
  }

  /** Regroup into bytes; bits that do not fill a byte are dropped. */
  function Octets(bits: seq<bool>): (r: seq<byte>)
    ensures 8 * |r| == |bits| - Rem(|bits|, 8)
  {
    WholeEights(|bits|);
    EightBitGroups(bits[..|bits| - Rem(|bits|, 8)])
  }

  lemma WholeGroups(n: nat)
    ensures Rem(5 * n, 5) == 0 && Rem(8 * n, 8) == 0
  {
    RemIs(5 * n, 5, n, 0);
    RemIs(8 * n, 8, n, 0);
  }

  lemma {:induction false} GroupsOfBytes(s: seq<byte>)
    ensures Rem(8 * |s|, 8) == 0 && EightBitGroups(ByteBits(s)) == s
  {
    WholeGroups(|s|);
    if s != [] {
      LastOfBytes(s);
      GroupsOfBytes(s[..|s| - 1]);
    }
  }

  lemma {:induction false} GroupsOfQuintets(s: seq<quintet>)
    ensures Rem(5 * |s|, 5) == 0 && FiveBitGroups(QuintetBits(s)) == s
  {
    WholeGroups(|s|);
    if s != [] {
      LastOfQuintets(s);
      GroupsOfQuintets(s[..|s| - 1]);
    }
  }

  lemma DropGroup(n: nat, d: nat)
    requires d > 0 && n > 0 && Rem(n, d) == 0
    ensures n >= d && Rem(n - d, d) == 0
  {
  }

  lemma {:induction false} BitsOfBytes(bits: seq<bool>)
    requires Rem(|bits|, 8) == 0
    ensures ByteBits(EightBitGroups(bits)) == bits
    decreases |bits|
  {
    if bits != [] {
      DropGroup(|bits|, 8);
      var short, x := bits[..|bits| - 8], LastByte(bits);
      BitsOfBytes(short);
      assert EightBitGroups(bits) == EightBitGroups(short) + [x];
      AppendByte(EightBitGroups(short), x);
      assert short + bits[|bits| - 8..] == bits;
    }
  }

  lemma {:induction false} BitsOfQuintets(bits: seq<bool>)
    requires Rem(|bits|, 5) == 0
    ensures QuintetBits(FiveBitGroups(bits)) == bits
    decreases |bits|
  {
    if bits != [] {
      DropGroup(|bits|, 5);
      var short, x := bits[..|bits| - 5], LastQuintet(bits);
      BitsOfQuintets(short);
      assert FiveBitGroups(bits) == FiveBitGroups(short) + [x];
      AppendQuintet(FiveBitGroups(short), x);
      assert short + bits[|bits| - 5..] == bits;
    }
  }
}
