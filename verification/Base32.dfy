/** The base32 codec: the two mode machines against the regrouping of bits that
    section 6 of RFC 4648 describes, and what the two do to each other. */
module Base32 {
  import opened Bits

  const ALPHABET := "abcdefghijklmnopqrstuvwxyz234567"

  /** The character at a position of the alphabet. */
  function Letter(q: quintet): char {
    if q < 26 then 'a' + q as char else '2' + (q - 26) as char
  }

  lemma LetterOfAlphabet(q: quintet)
    ensures |ALPHABET| == 32 && Letter(q) == ALPHABET[q]
  {
  }

  /** The decoding table: both cases of a letter have its value, and -1 stands
      for everything outside the alphabet. */
  function Value(c: char): (v: int)
    ensures -1 <= v < 32
  {
    if '2' <= c <= '7' then c as int - '2' as int + 26
    else if 'A' <= c <= 'Z' then c as int - 'A' as int
    else if 'a' <= c <= 'z' then c as int - 'a' as int
    else -1
  }

  function LowerChar(c: char): char {
    if 'A' <= c <= 'Z' then c + ('a' - 'A') else c
  }

  function Lower(s: string): (r: string)
    ensures |r| == |s| && forall i :: 0 <= i < |s| ==> r[i] == LowerChar(s[i])
  {
    if s == "" then "" else Lower(s[..|s| - 1]) + [LowerChar(s[|s| - 1])]
  }

  function Text(q: seq<quintet>): (r: string)
    ensures |r| == |q| && forall i :: 0 <= i < |q| ==> r[i] == Letter(q[i])
  {
    if q == [] then "" else Text(q[..|q| - 1]) + [Letter(q[|q| - 1])]
  }

  function Pads(n: nat): (r: string)
    ensures |r| == n && forall i :: 0 <= i < n ==> r[i] == '='
  {
    if n == 0 then "" else Pads(n - 1) + ['=']
  }

  /** Section 6 of RFC 4648: regroup, spell, pad. */
  ghost function Encoded(data: seq<byte>): string {
    var q := Quintets(ByteBits(data));
    Text(q) + Pads(Missing(|q|, 8))
  }

  predicate Spells(s: string) {
    forall i :: 0 <= i < |s| ==> Value(s[i]) >= 0
  }

  /** The length of the longest prefix of alphabet characters. */
  function Prefix(s: string): (n: nat)
    ensures n <= |s| && forall i :: 0 <= i < n ==> Value(s[i]) >= 0
    ensures n < |s| ==> Value(s[n]) < 0
  {
    if s == "" || Value(s[0]) < 0 then 0
    else
      var n := 1 + Prefix(s[1..]);
      assert forall i :: 0 < i < n ==> s[i] == s[1..][i - 1];
      n
  }

  function Values(s: string): (r: seq<quintet>)
    requires Spells(s)
    ensures |r| == |s| && forall i :: 0 <= i < |s| ==> r[i] == Value(s[i])
  {
    if s == "" then [] else Values(s[..|s| - 1]) + [Value(s[|s| - 1])]
  }

  ghost function Read(s: string): (r: seq<bool>)
    ensures |r| == 5 * Prefix(s)
  {
    QuintetBits(Values(s[..Prefix(s)]))
  }

  /** What the decoder returns, valid or not: the whole bytes of the prefix. */
  ghost function Decoded(s: string): seq<byte> {
    Octets(Read(s))
  }

  /** How many bits n quintets have after their last whole byte. */
  function Spare(n: nat): (r: nat)
    ensures r < 8 && r <= 5 * n
  {
    Rem(5 * n, 8)
  }

  /** The bits of the prefix after its last whole byte. */
  ghost function Leftover(s: string): (r: seq<bool>)
    ensures |r| == Spare(Prefix(s))
  {
    Read(s)[5 * Prefix(s) - Spare(Prefix(s))..]
  }

  const SPARE := [0, 5, 2, 7, 4, 1, 6, 3]

  lemma SpareByGroup(n: nat)
    ensures Spare(n) == SPARE[Rem(n, 8)]
  {
    var t := RemDivides(n, 8);
    var r := Rem(n, 8);
    var c := [0, 0, 1, 1, 2, 3, 3, 4][r];
    assert 5 * r == 8 * c + SPARE[r];
    RemIs(5 * n, 8, 5 * t + c, SPARE[r]);
  }

  /** k padding characters at n, and no alphabet character after them. */
  predicate PaddedAt(s: string, n: nat, k: nat) {
    n + k <= |s| && s[n..n + k] == Pads(k) && (n + k < |s| ==> Value(s[n + k]) < 0)
  }

  /** What the decoder calls valid. After a whole number of groups it does not
      look at what follows. */
  ghost predicate Accepts(s: string) {
    var n := Prefix(s);
    var r := Rem(n, 8);
    r == 0 ||
    (r != 1 && r != 3 && r != 6 && Leftover(s) == Zeros(Spare(n)) && PaddedAt(s, n, Missing(n, 8)))
  }

  // ----- letters and values -----

  lemma LetterHasValue(q: quintet)
    ensures Value(Letter(q)) == q && LowerChar(Letter(q)) == Letter(q)
  {
  }

  lemma ValueHasLetter(c: char)
    requires Value(c) >= 0
    ensures Letter(Value(c)) == LowerChar(c)
  {
  }

  lemma TextValues(q: seq<quintet>)
    ensures Spells(Text(q)) && Values(Text(q)) == q
  {
    forall i | 0 <= i < |q| ensures Value(Text(q)[i]) == q[i] {
      LetterHasValue(q[i]);
    }
  }

  lemma ValuesAppend(s: string, c: char)
    requires Spells(s) && Value(c) >= 0
    ensures Spells(s + [c]) && Values(s + [c]) == Values(s) + [Value(c)]
  {
  }

  lemma ValuesText(s: string)
    requires Spells(s)
    ensures Text(Values(s)) == Lower(s)
  {
    forall i | 0 <= i < |s| ensures Text(Values(s))[i] == Lower(s)[i] {
      ValueHasLetter(s[i]);
    }
  }

  lemma PrefixIs(s: string, n: nat)
    requires n <= |s| && (forall i :: 0 <= i < n ==> Value(s[i]) >= 0) && (n < |s| ==> Value(s[n]) < 0)
    ensures Prefix(s) == n
  {
  }

  // ----- the encoder -----

  /** The bits done are those of q and k more, which make up the number a. */
  ghost predicate Pending(done: seq<bool>, q: seq<quintet>, k: nat, a: nat) {
    a < Pow2(k) && QuintetBits(q) + BitsOf(a, k) == done
  }

  lemma Regroup<T>(q: seq<T>, a: seq<T>, h: seq<T>, m: seq<T>, l: seq<T>)
    ensures q + a + (h + m + l) == q + (a + h) + m + l
  {
  }

  lemma Regroup3<T>(q: seq<T>, a: seq<T>, h: seq<T>, l: seq<T>)
    ensures q + a + (h + l) == q + (a + h) + l
  {
  }

  /** A byte that completes one quintet: h high bits go to it, l low bits are kept. */
  lemma OneOut(done: seq<bool>, q: seq<quintet>, k: nat, a: nat, enc: byte,
               h: nat, ph: nat, high: nat, l: nat, pl: nat, low: nat, top: quintet)
    requires Pending(done, q, k, a) && k + h == 5 && h + l == 8
    requires ph == Pow2(h) && pl == Pow2(l)
    requires enc == high * pl + low && low < pl && high < ph && top == a * ph + high
    ensures Pending(done + BitsOf(enc, 8), q + [top], l, low)
  {
    Split(top, 5, a, high, k, h, ph);
    Split(enc, 8, high, low, h, l, pl);
    AppendQuintet(q, top);
    Regroup3(QuintetBits(q), BitsOf(a, k), BitsOf(high, h), BitsOf(low, l));
  }

  lemma SplitThree(enc: byte, h: nat, high: nat, mid: quintet, l: nat, pl: nat, low: nat)
    requires h + l == 3 && pl == Pow2(l)
    requires enc == (high * 32 + mid) * pl + low && low < pl && high < Pow2(h)
    ensures BitsOf(enc, 8) == BitsOf(high, h) + BitsOf(mid, 5) + BitsOf(low, l)
  {
    SmallPowers();
    var m := h + 5;
    var rest := high * 32 + mid;
    assert rest < Pow2(m);
    Split(enc, 8, rest, low, m, l, pl);
    Split(rest, m, high, mid, h, 5, 32);
  }

  /** A byte that completes two quintets. */
  lemma TwoOut(done: seq<bool>, q: seq<quintet>, k: nat, a: nat, enc: byte,
               h: nat, ph: nat, high: nat, mid: quintet, l: nat, pl: nat, low: nat, top: quintet)
    requires Pending(done, q, k, a) && k + h == 5 && h + l == 3
    requires ph == Pow2(h) && pl == Pow2(l)
    requires enc == (high * 32 + mid) * pl + low && low < pl && high < ph && top == a * ph + high
    ensures Pending(done + BitsOf(enc, 8), q + [top] + [mid], l, low)
  {
    Split(top, 5, a, high, k, h, ph);
    SplitThree(enc, h, high, mid, l, pl, low);
    AppendQuintet(q, top);
    AppendQuintet(q + [top], mid);
    Regroup(QuintetBits(q), BitsOf(a, k), BitsOf(high, h), BitsOf(mid, 5), BitsOf(low, l));
  }

  /** How many bits the encoder keeps in each mode. */
  function Kept(mode: int): nat
    requires 0 <= mode < 5
  {
    match mode
    case 0 => 0
    case 1 => 3
    case 2 => 1
    case 3 => 4
    case _ => 2
  }

  /** The kept bits, moved to the top of a quintet. */
  function Lifted(mode: int, a: nat): nat
    requires 0 <= mode < 5
  {
    match mode
    case 0 => a * 32
    case 1 => a * 4
    case 2 => a * 16
    case 3 => a * 2
    case _ => a * 8
  }

  ghost predicate Encoding(done: seq<bool>, q: seq<quintet>, mode: int, a: nat, left: int) {
    && 0 <= mode < 5
    && Pending(done, q, Kept(mode), a)
    && (mode != 0 ==> left == Lifted(mode, a) && left < 32)
  }

  /** The bits left over at the end make up one more quintet. */
  lemma FinalQuintet(done: seq<bool>, q: seq<quintet>, k: nat, z: nat, a: nat, last: quintet)
    requires Pending(done, q, k, a) && 0 < z < 5 && k + z == 5
    requires BitsOf(last, 5) == BitsOf(a, k) + Zeros(z)
    ensures Quintets(done) == q + [last]
  {
    AppendQuintet(q, last);
    assert done + Zeros(z) == QuintetBits(q + [last]);
    MissingUnique(|done|, 5, |q| + 1, z);
    GroupsOfQuintets(q + [last]);
  }

  lemma EncodedWhenDone(done: seq<bool>, q: seq<quintet>, mode: int, a: nat, left: int)
    requires Encoding(done, q, mode, a, left)
    ensures Quintets(done) == if mode == 0 then q else q + [left]
  {
    SmallPowers();
    if mode == 0 {
      assert done + Zeros(0) == done == QuintetBits(q);
      MissingUnique(|done|, 5, |q|, 0);
      GroupsOfQuintets(q);
    } else {
      var k := Kept(mode);
      BitsOfZero(5 - k);
      Split(left, 5, a, 0, k, 5 - k, Pow2(5 - k));
      FinalQuintet(done, q, k, 5 - k, a, left);
    }
  }

  const PADDING := [0, 6, 4, 3, 1]

  /** The padding table fills the last group of eight. */
  lemma PaddingOfMode(bytes: nat, n: nat, mode: int)
    requires 0 <= mode < 5 && 5 * n + Kept(mode) == 8 * bytes
    ensures Missing(if mode == 0 then n else n + 1, 8) == PADDING[mode]
  {
    var x := 5 * bytes - 3 * n;
    assert n == 8 * x - 5 * Kept(mode);
    match mode
    case 0 => MissingUnique(n, 8, x, 0);
    case 1 => MissingUnique(n + 1, 8, x - 1, 6);
    case 2 => MissingUnique(n + 1, 8, x, 4);
    case 3 => MissingUnique(n + 1, 8, x - 2, 3);
    case 4 => MissingUnique(n + 1, 8, x - 1, 1);
  }

  /** The quintets that n bytes make up, by groups of five bytes. */
  lemma GroupSizes(n: nat, q: nat, z: nat, t: nat, r: nat)
    requires 5 * q == 8 * n + z && z < 5 && n == 5 * t + r && r < 5
    ensures q == 8 * t + [0, 2, 4, 5, 7][r]
    ensures Rem(q, 8) == [0, 2, 4, 5, 7][r]
    ensures q + Missing(q, 8) == 8 * ((n + 4) / 5)
  {
    var m := [0, 2, 4, 5, 7][r];
    assert q == 8 * t + m;
    RemIs(q, 8, t, m);
    MissingUnique(q, 8, if r == 0 then t else t + 1, if r == 0 then 0 else 8 - m);
  }

  /** Eight characters for every five bytes, the last group whole. */
  lemma EncodedLength(data: seq<byte>)
    ensures |Encoded(data)| == 8 * ((|data| + 4) / 5)
  {
    var t := RemDivides(|data|, 5);
    GroupSizes(|data|, |Quintets(ByteBits(data))|, Missing(8 * |data|, 5), t, Rem(|data|, 5));
  }

  /** Shift right, by the power p of two. */
  method Shr(x: nat, p: nat) returns (high: nat)
    requires p > 0
    ensures high * p <= x < (high + 1) * p
  {
    high := x / p;
  }

  /** Mask of the bits below the power p of two. */
  method Mask(x: nat, p: nat) returns (low: nat, ghost high: nat)
    requires p > 0
    ensures x == high * p + low && low < p
  {
    low := x % p;
    high := x / p;
  }

  // One byte, by mode: what it adds to the text, and what is kept.

  method EncodeMode0(ghost done: seq<bool>, ghost q: seq<quintet>, ghost a: nat, left: int, enc: byte)
    returns (text: string, left': int, ghost q': seq<quintet>, ghost a': nat)
    requires Encoding(done, q, 0, a, left)
    ensures Encoding(done + BitsOf(enc, 8), q', 1, a', left') && Text(q') == Text(q) + text
  {
    SmallPowers();
    var high := Shr(enc, 8);
    var top := high;
    var low, g := Mask(enc, 8);
    OneOut(done, q, 0, a, enc, 5, 32, high, 3, 8, low, top);
    text, left' := [Letter(top)], low * 4;
    q', a' := q + [top], low;
  }

  method EncodeMode1(ghost done: seq<bool>, ghost q: seq<quintet>, ghost a: nat, left: int, enc: byte)
    returns (text: string, left': int, ghost q': seq<quintet>, ghost a': nat)
    requires Encoding(done, q, 1, a, left)
    ensures Encoding(done + BitsOf(enc, 8), q', 2, a', left') && Text(q') == Text(q) + text
  {
    SmallPowers();
    var high := Shr(enc, 64);
    var top := BitOr(left, high, a, 2, 4);
    var rest := Shr(enc, 2);
    var mid, g := Mask(rest, 32);
    var low, l := Mask(enc, 2);
    TwoOut(done, q, 3, a, enc, 2, 4, high, mid, 1, 2, low, top);
    text, left' := [Letter(top)] + [Letter(mid)], low * 16;
    q', a' := q + [top] + [mid], low;
  }

  method EncodeMode2(ghost done: seq<bool>, ghost q: seq<quintet>, ghost a: nat, left: int, enc: byte)
    returns (text: string, left': int, ghost q': seq<quintet>, ghost a': nat)
    requires Encoding(done, q, 2, a, left)
    ensures Encoding(done + BitsOf(enc, 8), q', 3, a', left') && Text(q') == Text(q) + text
  {
    SmallPowers();
    var high := Shr(enc, 16);
    var top := BitOr(left, high, a, 4, 16);
    var low, g := Mask(enc, 16);
    OneOut(done, q, 1, a, enc, 4, 16, high, 4, 16, low, top);
    text, left' := [Letter(top)], low * 2;
    q', a' := q + [top], low;
  }

  method EncodeMode3(ghost done: seq<bool>, ghost q: seq<quintet>, ghost a: nat, left: int, enc: byte)
    returns (text: string, left': int, ghost q': seq<quintet>, ghost a': nat)
    requires Encoding(done, q, 3, a, left)
    ensures Encoding(done + BitsOf(enc, 8), q', 4, a', left') && Text(q') == Text(q) + text
  {
    SmallPowers();
    var high := Shr(enc, 128);
    var top := BitOr(left, high, a, 1, 2);
    var rest := Shr(enc, 4);
    var mid, g := Mask(rest, 32);
    var low, l := Mask(enc, 4);
    TwoOut(done, q, 4, a, enc, 1, 2, high, mid, 2, 4, low, top);
    text, left' := [Letter(top)] + [Letter(mid)], low * 8;
    q', a' := q + [top] + [mid], low;
  }

  method EncodeMode4(ghost done: seq<bool>, ghost q: seq<quintet>, ghost a: nat, left: int, enc: byte)
    returns (text: string, left': int, ghost q': seq<quintet>, ghost a': nat)
    requires Encoding(done, q, 4, a, left)
    ensures Encoding(done + BitsOf(enc, 8), q', 0, a', left') && Text(q') == Text(q) + text
  {
    SmallPowers();
    var high := Shr(enc, 32);
    var top := BitOr(left, high, a, 3, 8);
    var mid, g := Mask(enc, 32);
    TwoOut(done, q, 2, a, enc, 3, 8, high, mid, 0, 1, 0, top);
    text, left' := [Letter(top)] + [Letter(mid)], left;
    q', a' := q + [top] + [mid], 0;
  }

  /** One turn of the encoder's loop. */
  method EncodeByte(ghost done: seq<bool>, ghost q: seq<quintet>, ghost a: nat, mode: int, left: int, enc: byte)
    returns (text: string, mode': int, left': int, ghost q': seq<quintet>, ghost a': nat)
    requires Encoding(done, q, mode, a, left)
    ensures Encoding(done + BitsOf(enc, 8), q', mode', a', left')
    ensures Text(q') == Text(q) + text
  {
    match mode
    case 0 =>
      text, left', q', a' := EncodeMode0(done, q, a, left, enc);
      mode' := 1;
    case 1 =>
      text, left', q', a' := EncodeMode1(done, q, a, left, enc);
      mode' := 2;
    case 2 =>
      text, left', q', a' := EncodeMode2(done, q, a, left, enc);
      mode' := 3;
    case 3 =>
      text, left', q', a' := EncodeMode3(done, q, a, left, enc);
      mode' := 4;
    case 4 =>
      text, left', q', a' := EncodeMode4(done, q, a, left, enc);
      mode' := 0;
  }

  lemma EncodingStarts(data: seq<byte>)
    ensures Encoding(ByteBits(data[..0]), [], 0, 0, 0) && Text([]) == ""
  {
    assert data[..0] == [];
    assert QuintetBits([]) == [] && ByteBits([]) == [];
  }

  method Pad(text: string, mode: int) returns (encoded: string)
    requires 0 <= mode < 5
    ensures encoded == text + Pads(PADDING[mode])
  {
    encoded := text;
    var n := 0;
    while n < PADDING[mode]
      invariant 0 <= n <= PADDING[mode]
      invariant encoded == text + Pads(n)
    {
      encoded := encoded + ['='];
      n := n + 1;
    }
  }

  /** What follows the encoder's loop. */
  method EncodeEnd(ghost data: seq<byte>, ghost q: seq<quintet>, ghost a: nat, text: string, mode: int, left: int)
    returns (encoded: string)
    requires Encoding(ByteBits(data), q, mode, a, left) && text == Text(q)
    ensures encoded == Encoded(data)
  {
    EncodedWhenDone(ByteBits(data), q, mode, a, left);
    PaddingOfMode(|data|, |q|, mode);
    if mode != 0 {
      encoded := Pad(text + [Letter(left)], mode);
    } else {
      encoded := text;
      assert text + Pads(0) == text;
    }
  }

  method EncodeBase32(data: seq<byte>) returns (encoded: string)
    ensures encoded == Encoded(data)
  {
    encoded := "";
    var mode, left := 0, 0;
    var i := 0;
    ghost var q: seq<quintet> := [];
    ghost var a: nat := 0;
    EncodingStarts(data);
    while i < |data|
      invariant 0 <= i <= |data|
      invariant Encoding(ByteBits(data[..i]), q, mode, a, left)
      invariant encoded == Text(q)
    {
      var text;
      AppendByte(data[..i], data[i]);
      assert data[..i + 1] == data[..i] + [data[i]];
      text, mode, left, q, a := EncodeByte(ByteBits(data[..i]), q, a, mode, left, data[i]);
      encoded := encoded + text;
      i := i + 1;
    }
    assert data[..i] == data;
    encoded := EncodeEnd(data, q, a, encoded, mode, left);
  }

  // ----- the decoder -----

  /** How many bits the decoder keeps in each mode. */
  function Held(mode: int): nat
    requires 0 <= mode < 8
  {
    match mode
    case 0 => 0
    case 1 => 5
    case 2 => 2
    case 3 => 7
    case 4 => 4
    case 5 => 1
    case 6 => 6
    case _ => 3
  }

  /** The bits done are those of out and of the k-bit number a. */
  ghost predicate Held8(done: seq<bool>, out: seq<byte>, k: nat, a: nat) {
    a < Pow2(k) && ByteBits(out) + BitsOf(a, k) == done
  }

  ghost predicate Decoding(done: seq<bool>, out: seq<byte>, mode: int, a: nat, left: int) {
    0 <= mode < 8 && Held8(done, out, Held(mode), a) && (mode != 0 ==> left == a)
  }

  lemma SmallAbove(a: nat, dec: quintet, k: nat, k2: nat, a2: nat)
    requires a < Pow2(k) && k2 == k + 5 && a2 == a * 32 + dec
    ensures a2 < Pow2(k2)
  {
    assert Pow2(k2) == 2 * Pow2(k + 4) && Pow2(k + 4) == 2 * Pow2(k + 3);
    assert Pow2(k + 3) == 2 * Pow2(k + 2) && Pow2(k + 2) == 2 * Pow2(k + 1);
  }

  /** A character that completes no byte. */
  lemma NoneOut(done: seq<bool>, out: seq<byte>, k: nat, a: nat, dec: quintet, k2: nat, a2: nat)
    requires Held8(done, out, k, a) && k2 == k + 5 && a2 == a * 32 + dec
    ensures Held8(done + BitsOf(dec, 5), out, k2, a2)
  {
    SmallPowers();
    Split(a2, k2, a, dec, k, 5, 32);
    SmallAbove(a, dec, k, k2, a2);
    Regroup3(ByteBits(out), BitsOf(a, k), BitsOf(dec, 5), []);
    assert BitsOf(dec, 5) + [] == BitsOf(dec, 5);
    assert ByteBits(out) + BitsOf(a2, k2) + [] == ByteBits(out) + BitsOf(a2, k2);
  }

  /** A character whose h high bits complete a byte. */
  lemma ByteOut(done: seq<bool>, out: seq<byte>, k: nat, a: nat, dec: quintet,
                h: nat, ph: nat, high: nat, l: nat, pl: nat, low: nat, x: byte)
    requires Held8(done, out, k, a) && k + h == 8 && h + l == 5
    requires ph == Pow2(h) && pl == Pow2(l)
    requires dec == high * pl + low && low < pl && high < ph && x == a * ph + high
    ensures Held8(done + BitsOf(dec, 5), out + [x], l, low)
  {
    Split(x, 8, a, high, k, h, ph);
    Split(dec, 5, high, low, h, l, pl);
    AppendByte(out, x);
    Regroup3(ByteBits(out), BitsOf(a, k), BitsOf(high, h), BitsOf(low, l));
  }

  // One character, by mode: the bytes it completes, and what is kept.

  method DecodeMode0(ghost done: seq<bool>, ghost out: seq<byte>, ghost a: nat, left: int, dec: quintet)
    returns (left': int, ghost a': nat)
    requires Decoding(done, out, 0, a, left)
    ensures Decoding(done + BitsOf(dec, 5), out, 1, a', left')
  {
    SmallPowers();
    left', a' := dec, dec;
    NoneOut(done, out, 0, a, dec, 5, a');
  }

  method DecodeMode1(ghost done: seq<bool>, ghost out: seq<byte>, ghost a: nat, left: int, dec: quintet)
    returns (x: byte, left': int, ghost a': nat)
    requires Decoding(done, out, 1, a, left)
    ensures Decoding(done + BitsOf(dec, 5), out + [x], 2, a', left')
  {
    SmallPowers();
    var high := Shr(dec, 4);
    var low, g := Mask(dec, 4);
    x := BitOr(left * 8, high, a, 3, 8);
    left', a' := low, low;
    ByteOut(done, out, 5, a, dec, 3, 8, high, 2, 4, low, x);
  }

  method DecodeMode2(ghost done: seq<bool>, ghost out: seq<byte>, ghost a: nat, left: int, dec: quintet)
    returns (left': int, ghost a': nat)
    requires Decoding(done, out, 2, a, left)
    ensures Decoding(done + BitsOf(dec, 5), out, 3, a', left')
  {
    SmallPowers();
    left' := BitOr(left * 32, dec, a, 5, 32);
    a' := left';
    NoneOut(done, out, 2, a, dec, 7, a');
  }

  method DecodeMode3(ghost done: seq<bool>, ghost out: seq<byte>, ghost a: nat, left: int, dec: quintet)
    returns (x: byte, left': int, ghost a': nat)
    requires Decoding(done, out, 3, a, left)
    ensures Decoding(done + BitsOf(dec, 5), out + [x], 4, a', left')
  {
    SmallPowers();
    var high := Shr(dec, 16);
    var low, g := Mask(dec, 16);
    x := BitOr(left * 2, high, a, 1, 2);
    left', a' := low, low;
    ByteOut(done, out, 7, a, dec, 1, 2, high, 4, 16, low, x);
  }

  method DecodeMode4(ghost done: seq<bool>, ghost out: seq<byte>, ghost a: nat, left: int, dec: quintet)
    returns (x: byte, left': int, ghost a': nat)
    requires Decoding(done, out, 4, a, left)
    ensures Decoding(done + BitsOf(dec, 5), out + [x], 5, a', left')
  {
    SmallPowers();
    var high := Shr(dec, 2);
    var low, g := Mask(dec, 2);
    x := BitOr(left * 16, high, a, 4, 16);
    left', a' := low, low;
    ByteOut(done, out, 4, a, dec, 4, 16, high, 1, 2, low, x);
  }

  method DecodeMode5(ghost done: seq<bool>, ghost out: seq<byte>, ghost a: nat, left: int, dec: quintet)
    returns (left': int, ghost a': nat)
    requires Decoding(done, out, 5, a, left)
    ensures Decoding(done + BitsOf(dec, 5), out, 6, a', left')
  {
    SmallPowers();
    left' := BitOr(left * 32, dec, a, 5, 32);
    a' := left';
    NoneOut(done, out, 1, a, dec, 6, a');
  }

  method DecodeMode6(ghost done: seq<bool>, ghost out: seq<byte>, ghost a: nat, left: int, dec: quintet)
    returns (x: byte, left': int, ghost a': nat)
    requires Decoding(done, out, 6, a, left)
    ensures Decoding(done + BitsOf(dec, 5), out + [x], 7, a', left')
  {
    SmallPowers();
    var high := Shr(dec, 8);
    var low, g := Mask(dec, 8);
    x := BitOr(left * 4, high, a, 2, 4);
    left', a' := low, low;
    ByteOut(done, out, 6, a, dec, 2, 4, high, 3, 8, low, x);
  }

  method DecodeMode7(ghost done: seq<bool>, ghost out: seq<byte>, ghost a: nat, left: int, dec: quintet)
    returns (x: byte, left': int, ghost a': nat)
    requires Decoding(done, out, 7, a, left)
    ensures Decoding(done + BitsOf(dec, 5), out + [x], 0, a', left')
  {
    SmallPowers();
    x := BitOr(left * 32, dec, a, 5, 32);
    left', a' := left, 0;
    ByteOut(done, out, 3, a, dec, 5, 32, dec, 0, 1, 0, x);
  }

  /** One turn of the decoder's loop. */
  method DecodeChar(ghost done: seq<bool>, ghost out: seq<byte>, ghost a: nat, mode: int, left: int, dec: quintet)
    returns (bytes: seq<byte>, mode': int, left': int, ghost a': nat)
    requires Decoding(done, out, mode, a, left)
    ensures Decoding(done + BitsOf(dec, 5), out + bytes, mode', a', left')
    ensures mode' == if mode == 7 then 0 else mode + 1
  {
    var x: byte;
    assert out + [] == out;
    match mode
    case 0 =>
      left', a' := DecodeMode0(done, out, a, left, dec);
      bytes, mode' := [], 1;
    case 1 =>
      x, left', a' := DecodeMode1(done, out, a, left, dec);
      bytes, mode' := [x], 2;
    case 2 =>
      left', a' := DecodeMode2(done, out, a, left, dec);
      bytes, mode' := [], 3;
    case 3 =>
      x, left', a' := DecodeMode3(done, out, a, left, dec);
      bytes, mode' := [x], 4;
    case 4 =>
      x, left', a' := DecodeMode4(done, out, a, left, dec);
      bytes, mode' := [x], 5;
    case 5 =>
      left', a' := DecodeMode5(done, out, a, left, dec);
      bytes, mode' := [], 6;
    case 6 =>
      x, left', a' := DecodeMode6(done, out, a, left, dec);
      bytes, mode' := [x], 7;
    case 7 =>
      x, left', a' := DecodeMode7(done, out, a, left, dec);
      bytes, mode' := [x], 0;
  }

  /** The bits kept at the end are those after the last whole byte. */
  lemma DecodedWhenDone(done: seq<bool>, out: seq<byte>, k: nat, a: nat)
    requires Held8(done, out, k, a) && k < 8
    ensures Octets(done) == out && Rem(|done|, 8) == k && done[|done| - k..] == BitsOf(a, k)
  {
    RemIs(|done|, 8, |out|, k);
    assert done[..8 * |out|] == ByteBits(out) && done[8 * |out|..] == BitsOf(a, k);
    GroupsOfBytes(out);
  }

  lemma NothingLeft(a: nat, k: nat)
    requires a < Pow2(k)
    ensures BitsOf(a, k) == Zeros(k) <==> a == 0
  {
    BitsOfZero(k);
  }

  /** A C string: characters up to a terminator, and no terminator before. */
  predicate Terminated(p: string) {
    |p| > 0 && p[|p| - 1] == '\0' && forall i :: 0 <= i < |p| - 1 ==> p[i] != '\0'
  }

  lemma PaddedChars(p: string, s: string, i: nat, k: nat)
    requires Terminated(p) && s == p[..|p| - 1] && i < |p|
    ensures PaddedAt(s, i, k) <==>
            i + k < |p| && (forall j :: i <= j < i + k ==> p[j] == '=') && Value(p[i + k]) < 0
  {
    if PaddedAt(s, i, k) {
      forall j | i <= j < i + k ensures p[j] == '=' {
        assert s[i..i + k][j - i] == '=';
      }
    }
    if i + k < |p| && forall j :: i <= j < i + k ==> p[j] == '=' {
      assert s[i..i + k] == Pads(k);
    }
  }

  /** The first i characters of p are read: the bytes out, and a kept in left. */
  ghost predicate Reading(p: string, i: nat, out: seq<byte>, mode: int, a: nat, left: int, blocks: nat) {
    && i < |p| && i == 8 * blocks + mode && Spells(p[..i])
    && Decoding(QuintetBits(Values(p[..i])), out, mode, a, left)
  }

  lemma ReadingStarts(p: string)
    requires |p| > 0
    ensures Reading(p, 0, [], 0, 0, 0, 0)
  {
    assert p[..0] == "";
    assert Values("") == [] && QuintetBits([]) == [];
  }

  lemma ReadOneMore(p: string, i: nat)
    requires i < |p| && Spells(p[..i]) && Value(p[i]) >= 0
    ensures Spells(p[..i + 1])
    ensures QuintetBits(Values(p[..i + 1])) == QuintetBits(Values(p[..i])) + BitsOf(Value(p[i]), 5)
  {
    assert p[..i + 1] == p[..i] + [p[i]];
    ValuesAppend(p[..i], p[i]);
    AppendQuintet(Values(p[..i]), Value(p[i]));
  }

  lemma NotAtEnd(p: string, i: nat)
    requires Terminated(p) && i < |p| && Value(p[i]) != -1
    ensures i + 1 < |p|
  {
    assert Value('\0') == -1;
  }

  method DecodeNext(p: string, i: nat, ghost out: seq<byte>, mode: int, ghost a: nat, left: int, ghost blocks: nat)
    returns (bytes: seq<byte>, mode': int, left': int, ghost a': nat, ghost blocks': nat)
    requires Terminated(p) && Reading(p, i, out, mode, a, left, blocks) && Value(p[i]) != -1
    ensures Reading(p, i + 1, out + bytes, mode', a', left', blocks')
  {
    NotAtEnd(p, i);
    ReadOneMore(p, i);
    blocks' := if mode == 7 then blocks + 1 else blocks;
    bytes, mode', left', a' := DecodeChar(QuintetBits(Values(p[..i])), out, a, mode, left, Value(p[i]));
  }

  lemma PrefixEnds(p: string, i: nat)
    requires Terminated(p) && i < |p| && Spells(p[..i]) && Value(p[i]) < 0
    ensures Prefix(p[..|p| - 1]) == i && p[..|p| - 1][..i] == p[..i]
  {
    forall j | 0 <= j < i ensures Value(p[j]) >= 0 {
      assert p[..i][j] == p[j];
    }
    PrefixIs(p[..|p| - 1], i);
  }

  /** The decoder's loop: it stops at the first character outside the alphabet. */
  method DecodePrefix(p: string) returns (decoded: seq<byte>, mode: int, left: int, i: nat, ghost a: nat)
    requires Terminated(p)
    ensures i < |p| && i == Prefix(p[..|p| - 1])
    ensures Rem(i, 8) == mode
    ensures Decoding(Read(p[..|p| - 1]), decoded, mode, a, left)
  {
    decoded, mode, left, i, a := [], 0, 0, 0, 0;
    ghost var blocks: nat := 0;
    ReadingStarts(p);
    while Value(p[i]) != -1
      invariant Reading(p, i, decoded, mode, a, left, blocks)
      decreases |p| - i
    {
      var bytes;
      bytes, mode, left, a, blocks := DecodeNext(p, i, decoded, mode, a, left, blocks);
      decoded := decoded + bytes;
      i := i + 1;
    }
    RemIs(i, 8, blocks, mode);
    PrefixEnds(p, i);
  }

  /** The padding each incomplete group requires. */
  method BadPadding(p: string, i: nat, mode: int) returns (bad: bool)
    requires Terminated(p) && i < |p| && (mode == 2 || mode == 4 || mode == 5 || mode == 7)
    ensures bad <==> !PaddedAt(p[..|p| - 1], i, 8 - mode)
  {
    PaddedChars(p, p[..|p| - 1], i, 8 - mode);
    match mode
    case 2 =>
      bad := p[i] != '=' || p[i + 1] != '=' || p[i + 2] != '=' || p[i + 3] != '=' || p[i + 4] != '=' || p[i + 5] != '='
             || Value(p[i + 6]) != -1;
    case 4 => bad := p[i] != '=' || p[i + 1] != '=' || p[i + 2] != '=' || p[i + 3] != '=' || Value(p[i + 4]) != -1;
    case 5 => bad := p[i] != '=' || p[i + 1] != '=' || p[i + 2] != '=' || Value(p[i + 3]) != -1;
    case 7 => bad := p[i] != '=' || Value(p[i + 1]) != -1;
  }

  /** What follows the decoder's loop, by how far into a group it ended. */
  method CheckEnd(p: string, i: nat, mode: int, left: int) returns (invalid: bool)
    requires Terminated(p) && i < |p| && i == Prefix(p[..|p| - 1]) && Rem(i, 8) == mode
    requires mode != 0 ==> (left == 0 <==> Leftover(p[..|p| - 1]) == Zeros(Spare(i)))
    ensures invalid <==> !Accepts(p[..|p| - 1])
  {
    if mode == 0 {
      invalid := false;
    } else if mode == 1 || mode == 3 || mode == 6 {
      invalid := true;
    } else if left != 0 {
      invalid := true;
    } else {
      invalid := BadPadding(p, i, mode);
    }
  }

  /** The decoder on a terminated string. Every index is within the string, so
      no character after the terminator is read. */
  method DecodeBase32(p: string) returns (decoded: seq<byte>, invalid: bool)
    requires Terminated(p)
    ensures decoded == Decoded(p[..|p| - 1])
    ensures invalid <==> !Accepts(p[..|p| - 1])
  {
    var mode, left, i;
    ghost var a;
    decoded, mode, left, i, a := DecodePrefix(p);
    DecodedWhenDone(Read(p[..|p| - 1]), decoded, Held(mode), a);
    SpareByGroup(i);
    NothingLeft(a, Held(mode));
    invalid := CheckEnd(p, i, mode, left);
  }

  lemma AcceptsByGroup(s: string, n: nat, r: nat)
    requires n == Prefix(s) && r == Rem(n, 8)
    ensures Accepts(s) <==>
            r == 0 || (r != 1 && r != 3 && r != 6 && Leftover(s) == Zeros(SPARE[r]) && PaddedAt(s, n, 8 - r))
  {
    SpareByGroup(n);
  }

  /** Valid, spelled out: a whole number of groups, or two, four, five or seven
      characters more with nothing left over and exactly the padding that is due. */
  lemma AcceptsByCount(s: string, n: nat)
    requires n == Prefix(s)
    ensures Accepts(s) <==>
            n % 8 == 0 ||
            (n % 8 == 2 && Leftover(s) == Zeros(2) && PaddedAt(s, n, 6)) ||
            (n % 8 == 4 && Leftover(s) == Zeros(4) && PaddedAt(s, n, 4)) ||
            (n % 8 == 5 && Leftover(s) == Zeros(1) && PaddedAt(s, n, 3)) ||
            (n % 8 == 7 && Leftover(s) == Zeros(3) && PaddedAt(s, n, 1))
  {
    RemIsModulo(n);
    SpareByGroup(n);
    AcceptsByGroup(s, n, n % 8);
  }

  /** After whole groups nothing more is looked at. */
  lemma WholeGroupsAccepted(s: string, groups: nat)
    requires Prefix(s) == 8 * groups
    ensures Accepts(s)
  {
    RemIs(Prefix(s), 8, groups, 0);
  }

  // ----- what the two do to each other -----

  lemma EncodedReads(data: seq<byte>)
    ensures var q := Quintets(ByteBits(data));
      Prefix(Encoded(data)) == |q| && Read(Encoded(data)) == QuintetBits(q)
  {
    var q := Quintets(ByteBits(data));
    var s := Encoded(data);
    TextValues(q);
    assert forall i :: 0 <= i < |q| ==> s[i] == Text(q)[i];
    PrefixIs(s, |q|);
    assert s[..|q|] == Text(q);
  }

  lemma QuintetBitsOf(bits: seq<bool>)
    ensures QuintetBits(Quintets(bits)) == bits + Zeros(Missing(|bits|, 5))
  {
    MissingFills(|bits|, 5);
    BitsOfQuintets(bits + Zeros(Missing(|bits|, 5)));
  }

  /** The encoder never stops one, three or six characters into a group, and pads
      as the decoder requires. */
  lemma EncodedPadding(data: seq<byte>, n: nat)
    requires n == |Quintets(ByteBits(data))|
    ensures var r := Rem(n, 8); r != 1 && r != 3 && r != 6
    ensures PaddedAt(Encoded(data), n, Missing(n, 8))
  {
    var t := RemDivides(|data|, 5);
    GroupSizes(|data|, n, Missing(8 * |data|, 5), t, Rem(|data|, 5));
    assert Encoded(data)[n..n + Missing(n, 8)] == Pads(Missing(n, 8));
  }

  /** Decoding undoes encoding, and calls the result valid, for all bytes. */
  lemma RoundTrip(data: seq<byte>)
    ensures Decoded(Encoded(data)) == data
    ensures Accepts(Encoded(data))
  {
    var bits := ByteBits(data);
    var z := Missing(|bits|, 5);
    var read := bits + Zeros(z);
    EncodedReads(data);
    QuintetBitsOf(bits);
    RemIs(|read|, 8, |data|, z);
    assert read[..8 * |data|] == bits && read[8 * |data|..] == Zeros(z);
    GroupsOfBytes(data);
    EncodedPadding(data, |Quintets(bits)|);
  }

  /** The length of an accepted string up to the end of its last whole group. */
  function CanonicalLength(s: string): nat {
    Prefix(s) + Missing(Prefix(s), 8)
  }

  lemma AcceptedEnd(s: string, n: nat, k: nat)
    requires Accepts(s) && n == Prefix(s) && k == Missing(n, 8)
    ensures n + k <= |s| && s[n..n + k] == Pads(k)
    ensures Spare(n) < 5 && Leftover(s) == Zeros(Spare(n))
  {
    SpareByGroup(n);
    if Rem(n, 8) == 0 {
      assert s[n..n] == Pads(0);
    }
  }

  /** An accepted string in lower case, up to the end of its last whole group. */
  ghost function Canonical(s: string): string
    requires Accepts(s)
  {
    AcceptedEnd(s, Prefix(s), Missing(Prefix(s), 8));
    Lower(s[..CanonicalLength(s)])
  }

  lemma CanonicalIs(s: string, n: nat, k: nat)
    requires Accepts(s) && n == Prefix(s) && k == Missing(n, 8) && n + k <= |s|
    ensures Canonical(s) == Lower(s[..n + k])
  {
    assert CanonicalLength(s) == n + k;
  }

  lemma LowerPadding(s: string, n: nat, k: nat)
    requires n + k <= |s| && s[n..n + k] == Pads(k)
    ensures Lower(s[..n + k]) == Lower(s[..n]) + Pads(k)
  {
    forall i | n <= i < n + k ensures s[i] == '=' {
      assert s[n..n + k][i - n] == '=';
    }
  }

  /** Zeros at the end that fill up the last quintet make no difference. */
  lemma DroppedZeros(q: seq<quintet>, z: nat, t: nat)
    requires z < 5 && 5 * |q| == 8 * t + z
    requires QuintetBits(q)[8 * t..] == Zeros(z)
    ensures Quintets(ByteBits(Octets(QuintetBits(q)))) == q
  {
    var bits := QuintetBits(q);
    var kept := bits[..8 * t];
    RemIs(|bits|, 8, t, z);
    RemIs(|kept|, 8, t, 0);
    BitsOfBytes(kept);
    assert kept + Zeros(z) == bits;
    MissingUnique(|kept|, 5, |q|, z);
    GroupsOfQuintets(q);
  }

  /** The decoder drops no bits but zeros, and fewer than a quintet of them. */
  lemma BitsOfDecoded(s: string, n: nat, z: nat)
    requires n == Prefix(s) && z == Spare(n) && z < 5 && Leftover(s) == Zeros(z)
    ensures Quintets(ByteBits(Decoded(s))) == Values(s[..n])
  {
    var t := RemDivides(5 * n, 8);
    assert Read(s)[8 * t..] == Leftover(s);
    DroppedZeros(Values(s[..n]), z, t);
  }

  lemma EncodedIs(data: seq<byte>, q: seq<quintet>, n: nat, k: nat)
    requires Quintets(ByteBits(data)) == q && |q| == n && k == Missing(n, 8)
    ensures Encoded(data) == Text(q) + Pads(k)
  {
  }

  lemma EncodeAgain(s: string, n: nat, k: nat, z: nat)
    requires n == Prefix(s) && k == Missing(n, 8) && n + k <= |s| && s[n..n + k] == Pads(k)
    requires z == Spare(n) && z < 5 && Leftover(s) == Zeros(z)
    ensures Encoded(Decoded(s)) == Lower(s[..n + k])
  {
    BitsOfDecoded(s, n, z);
    ValuesText(s[..n]);
    EncodedIs(Decoded(s), Values(s[..n]), n, k);
    LowerPadding(s, n, k);
  }

  /** Encoding undoes decoding up to case and up to what an accepted string has
      after its last whole group. */
  lemma InverseRoundTrip(s: string)
    requires Accepts(s)
    ensures Encoded(Decoded(s)) == Canonical(s)
  {
    var n := Prefix(s);
    AcceptedEnd(s, n, Missing(n, 8));
    EncodeAgain(s, n, Missing(n, 8), Spare(n));
    CanonicalIs(s, n, Missing(n, 8));
  }

  lemma LowerOfPrefix(s: string, n: nat)
    requires n <= |s|
    ensures Lower(s[..n]) == Lower(s) <==> |s| == n
  {
    assert |Lower(s[..n])| == n && |Lower(s)| == |s|;
    assert |s| == n ==> s[..n] == s;
  }

  /** The inverse is exact precisely for strings that are whole groups. */
  lemma InverseRoundTripExact(s: string)
    requires Accepts(s)
    ensures Encoded(Decoded(s)) == Lower(s) <==> |s| == CanonicalLength(s)
  {
    InverseRoundTrip(s);
    AcceptedEnd(s, Prefix(s), Missing(Prefix(s), 8));
    LowerOfPrefix(s, CanonicalLength(s));
  }

  /** A string of padding alone is accepted though it is no encoding. */
  lemma SurplusPaddingAccepted()
    ensures Accepts("=") && Decoded("=") == [] && Encoded([]) == "" && Encoded(Decoded("=")) != Lower("=")
  {
    PrefixIs("=", 0);
    assert Read("=") == [] && Octets([]) == [];
  }

  /** Two accepted strings decode to the same bytes exactly when they are the
      same up to case and up to what follows their last whole group. */
  lemma SameBytesSameText(s: string, t: string)
    requires Accepts(s) && Accepts(t)
    ensures Decoded(s) == Decoded(t) <==> Canonical(s) == Canonical(t)
  {
    InverseRoundTrip(s);
    InverseRoundTrip(t);
    RoundTrip(Decoded(s));
    RoundTrip(Decoded(t));
  }
}
