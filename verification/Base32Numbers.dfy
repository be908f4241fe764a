/** The codec told by numbers: bytes are the digits of a number in base 256, characters
    those of the same number in base 32, as many zero bits added as it takes. */
module Base32Numbers {
  import opened Bits
  import opened Base32

  const LOWER_CASE := "abcdefghijklmnopqrstuvwxyz234567"
  const UPPER_CASE := "ABCDEFGHIJKLMNOPQRSTUVWXYZ234567"

  /** The number that digits make up, the most significant first. */
  function InBase(base: nat, digits: seq<nat>): nat {
    if digits == [] then 0 else base * InBase(base, digits[..|digits| - 1]) + digits[|digits| - 1]
  }

  lemma {:induction false} NumberOfBytes(s: seq<byte>)
    ensures Number(ByteBits(s)) == InBase(256, s)
  {
    if s != [] {
      SmallPowers();
      NumberOfBytes(s[..|s| - 1]);
      NumberOfConcat(ByteBits(s[..|s| - 1]), BitsOf(s[|s| - 1], 8), 256);
    }
  }

  lemma {:induction false} NumberOfQuintets(s: seq<quintet>)
    ensures Number(QuintetBits(s)) == InBase(32, s)
  {
    if s != [] {
      SmallPowers();
      NumberOfQuintets(s[..|s| - 1]);
      NumberOfConcat(QuintetBits(s[..|s| - 1]), BitsOf(s[|s| - 1], 5), 32);
    }
  }

  // ----- the encoder -----

  lemma SizesByRest(n: nat, r: nat, q: nat, z: nat)
    requires r == n % 5 && z == Missing(8 * n, 5) && 5 * q == 8 * n + z
    ensures z == [0, 2, 4, 1, 3][r] && Pow2(z) == [1, 4, 16, 2, 8][r]
    ensures Missing(q, 8) == [0, 6, 4, 3, 1][r] && q + Missing(q, 8) == 8 * ((n + 4) / 5)
  {
    SmallPowers();
    var t := n / 5;
    MissingUnique(8 * n, 5, 8 * t + [0, 2, 4, 5, 7][r], [0, 2, 4, 1, 3][r]);
    GroupSizes(n, q, z, t, r);
  }

  lemma EncodedDigits(data: seq<byte>, d: seq<quintet>, z: nat)
    requires d == Quintets(ByteBits(data)) && z == Missing(8 * |data|, 5)
    ensures InBase(32, d) == InBase(256, data) * Pow2(z)
  {
    var bits := ByteBits(data);
    QuintetBitsOf(bits);
    NumberOfBytes(data);
    NumberOfQuintets(d);
    BitsOfZero(z);
    NumberOfConcat(bits, Zeros(z), Pow2(z));
  }

  /** What is encoded are the digits, in base 32, of the number the bytes make up, times
      a power of two that depends on how many bytes there are over a multiple of five;
      then padding up to a multiple of eight. */
  lemma EncodedNumber(data: seq<byte>, r: nat) returns (d: seq<quintet>)
    requires r == |data| % 5
    ensures var e := Encoded(data);
      && |e| == 8 * ((|data| + 4) / 5) && |d| == |e| - [0, 6, 4, 3, 1][r]
      && (forall i :: 0 <= i < |d| ==> e[i] == LOWER_CASE[d[i]])
      && (forall i :: |d| <= i < |e| ==> e[i] == '=')
    ensures InBase(32, d) == InBase(256, data) * [1, 4, 16, 2, 8][r]
  {
    d := Quintets(ByteBits(data));
    var z := Missing(8 * |data|, 5);
    SizesByRest(|data|, r, |d|, z);
    EncodedDigits(data, d, z);
    forall i | 0 <= i < |d| ensures Encoded(data)[i] == LOWER_CASE[d[i]] {
      LetterOfAlphabet(d[i]);
    }
  }

  /** So many digits of a number are determined by it. */
  lemma {:induction false} SameDigits(a: seq<quintet>, b: seq<quintet>)
    requires |a| == |b| && InBase(32, a) == InBase(32, b)
    ensures a == b
  {
    if a != [] {
      SameDigits(a[..|a| - 1], b[..|b| - 1]);
      assert a == a[..|a| - 1] + [a[|a| - 1]] && b == b[..|b| - 1] + [b[|b| - 1]];
    }
  }

  // ----- the decoder -----

  lemma LowerPlace(v: quintet)
    ensures |LOWER_CASE| == 32 && LOWER_CASE[v] == Letter(v)
  {
    LetterOfAlphabet(v);
  }

  lemma UpperPlace(v: quintet)
    ensures |UPPER_CASE| == 32 && UPPER_CASE[v] == if v < 26 then 'A' + v as char else '2' + (v - 26) as char
  {
  }

  /** Characters have the value of their place in the alphabet, in either case, and no
      others have one. */
  lemma ValueIsThePlace(c: char, v: int)
    requires 0 <= v < 32
    ensures |LOWER_CASE| == 32 && |UPPER_CASE| == 32
    ensures Value(c) == v <==> c == LOWER_CASE[v] || c == UPPER_CASE[v]
  {
    LowerPlace(v);
    UpperPlace(v);
  }

  lemma PowersOfSpare(r: nat)
    requires r < 8
    ensures Pow2([0, 5, 2, 7, 4, 1, 6, 3][r]) == [1, 32, 4, 128, 16, 2, 64, 8][r]
  {
    SmallPowers();
  }

  lemma WholeBytes(n: nat, t: nat, r: nat, c: nat, spare: nat)
    requires n == 8 * t + r && 5 * r == 8 * c + spare && spare < 8
    ensures 5 * n - spare == 8 * (5 * n / 8)
  {
    assert 5 * n == 8 * (5 * t + c) + spare;
  }

  lemma SpareByRest(n: nat, r: nat)
    requires r == n % 8
    ensures Spare(n) == [0, 5, 2, 7, 4, 1, 6, 3][r] && 5 * n - Spare(n) == 8 * (5 * n / 8)
  {
    RemIs(n, 8, n / 8, r);
    SpareByGroup(n);
    var c := [0, 0, 1, 1, 2, 3, 3, 4][r];
    assert 5 * r == 8 * c + SPARE[r];
    WholeBytes(n, n / 8, r, c, SPARE[r]);
  }

  lemma ZeroIsZeros(bits: seq<bool>)
    ensures bits == Zeros(|bits|) <==> Number(bits) == 0
  {
    BitsOfZero(|bits|);
    BitsOfNumber(bits);
  }

  lemma OctetsNumber(bits: seq<bool>, z: nat)
    requires z == Rem(|bits|, 8)
    ensures Number(bits) == InBase(256, Octets(bits)) * Pow2(z) + Number(bits[|bits| - z..])
  {
    var kept := bits[..|bits| - z];
    WholeEights(|bits|);
    BitsOfBytes(kept);
    NumberOfBytes(Octets(bits));
    assert kept + bits[|bits| - z..] == bits;
    NumberOfConcat(kept, bits[|bits| - z..], Pow2(z));
  }

  lemma DecodedDigits(s: string, n: nat, z: nat) returns (low: nat)
    requires n == Prefix(s) && z == Spare(n)
    ensures InBase(32, Values(s[..n])) == InBase(256, Decoded(s)) * Pow2(z) + low && low < Pow2(z)
    ensures Leftover(s) == Zeros(z) <==> low == 0
    ensures 8 * |Decoded(s)| == 5 * n - z
  {
    NumberOfQuintets(Values(s[..n]));
    OctetsNumber(Read(s), z);
    low := Number(Leftover(s));
    NumberIsSmall(Leftover(s));
    ZeroIsZeros(Leftover(s));
  }

  lemma DigitsSpell(s: string, n: nat)
    requires n <= |s| && Spells(s[..n])
    ensures forall i :: 0 <= i < n ==> s[i] == LOWER_CASE[Values(s[..n])[i]] || s[i] == UPPER_CASE[Values(s[..n])[i]]
  {
    forall i | 0 <= i < n ensures s[i] == LOWER_CASE[Values(s[..n])[i]] || s[i] == UPPER_CASE[Values(s[..n])[i]] {
      ValueIsThePlace(s[i], Values(s[..n])[i]);
    }
  }

  lemma ValidByRest(s: string, n: nat, r: nat, low: nat)
    requires n == Prefix(s) && r == n % 8 && (Leftover(s) == Zeros(Spare(n)) <==> low == 0)
    ensures Accepts(s) <==> r == 0 || (r in [2, 4, 5, 7] && low == 0 && PaddedAt(s, n, 8 - r))
  {
    SpareByRest(n, r);
    AcceptsByCount(s, n);
  }

  /** What is decoded are the digits, in base 256, of the number that the characters in
      front make up, without the low bits that fill no byte. It is valid when these are
      zero and what is missing to a multiple of eight is made up by padding, with which
      the string goes on to its end or to a character outside the alphabet; one, three
      and six characters over are never valid, and none over always. */
  lemma DecodedNumber(s: string, n: nat, r: nat) returns (d: seq<quintet>, low: nat)
    requires n == Prefix(s) && r == n % 8
    ensures |d| == n && forall i :: 0 <= i < n ==> s[i] == LOWER_CASE[d[i]] || s[i] == UPPER_CASE[d[i]]
    ensures |Decoded(s)| == 5 * n / 8
    ensures InBase(32, d) == InBase(256, Decoded(s)) * [1, 32, 4, 128, 16, 2, 64, 8][r] + low
    ensures low < [1, 32, 4, 128, 16, 2, 64, 8][r]
    ensures Accepts(s) <==> r == 0 || (r in [2, 4, 5, 7] && low == 0 && PaddedAt(s, n, 8 - r))
  {
    SpareByRest(n, r);
    PowersOfSpare(r);
    d := Values(s[..n]);
    low := DecodedDigits(s, n, Spare(n));
    DigitsSpell(s, n);
    ValidByRest(s, n, r, low);
  }

  lemma OutsideTheAlphabet(c: char)
    ensures Value(c) < 0 <==> c !in LOWER_CASE && c !in UPPER_CASE
  {
    if Value(c) >= 0 {
      ValueIsThePlace(c, Value(c));
    }
    forall v | 0 <= v < 32 ensures Value(c) < 0 ==> c != LOWER_CASE[v] && c != UPPER_CASE[v] {
      ValueIsThePlace(c, v);
    }
    assert |LOWER_CASE| == 32 && |UPPER_CASE| == 32;
  }

  /** The padding that is due: so many padding characters, and nothing of the alphabet
      right after them. */
  lemma PaddingSpelled(s: string, n: nat, k: nat)
    requires n <= |s|
    ensures PaddedAt(s, n, k) <==>
            n + k <= |s| && (forall i :: n <= i < n + k ==> s[i] == '=')
            && (n + k < |s| ==> s[n + k] !in LOWER_CASE && s[n + k] !in UPPER_CASE)
  {
    if n + k <= |s| {
      assert s[n..n + k] == Pads(k) <==> forall i :: n <= i < n + k ==> s[i] == '=' by {
        assert forall i :: n <= i < n + k ==> s[i] == s[n..n + k][i - n];
      }
      if n + k < |s| {
        OutsideTheAlphabet(s[n + k]);
      }
    }
  }

  // ----- an example, from section 10 of RFC 4648 -----

  lemma Next(base: nat, d: seq<nat>, k: nat, before: nat, after: nat)
    requires k < |d| && InBase(base, d[..k]) == before && after == base * before + d[k]
    ensures InBase(base, d[..k + 1]) == after
  {
    assert d[..k + 1][..k] == d[..k];
  }

  lemma FooBytes(data: seq<byte>)
    requires data == [102, 111, 111]
    ensures InBase(256, data) == 6713199
  {
    Next(256, data, 0, 0, 102);
    Next(256, data, 1, 102, 26223);
    Next(256, data, 2, 26223, 6713199);
    assert data[..3] == data;
  }

  lemma FooDigits(d: seq<quintet>)
    requires d == [12, 25, 23, 22, 30]
    ensures InBase(32, d) == 2 * 6713199
  {
    Next(32, d, 0, 0, 12);
    Next(32, d, 1, 12, 409);
    Next(32, d, 2, 409, 13111);
    Next(32, d, 3, 13111, 419574);
    Next(32, d, 4, 419574, 13426398);
    assert d[..5] == d;
  }

  lemma FooSpelled(d: seq<quintet>, text: string)
    requires d == [12, 25, 23, 22, 30] && |text| == 8 && forall i :: 0 <= i < 5 ==> text[i] == LOWER_CASE[d[i]]
    requires forall i :: 5 <= i < 8 ==> text[i] == '='
    ensures text == "mzxw6==="
  {
    assert text[0] == LOWER_CASE[d[0]] && text[1] == LOWER_CASE[d[1]] && text[2] == LOWER_CASE[d[2]];
    assert text[3] == LOWER_CASE[d[3]] && text[4] == LOWER_CASE[d[4]];
  }

  /** The bytes of "foo", and back. */
  lemma Foo(data: seq<byte>, text: string)
    requires data == [102, 111, 111] && text == "mzxw6==="
    ensures Encoded(data) == text && Accepts(text) && Decoded(text) == data
  {
    var d := EncodedNumber(data, 3);
    FooBytes(data);
    FooDigits([12, 25, 23, 22, 30]);
    SameDigits(d, [12, 25, 23, 22, 30]);
    FooSpelled(d, Encoded(data));
    RoundTrip(data);
  }
}
