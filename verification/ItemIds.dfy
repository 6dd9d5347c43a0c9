/**
 * Item ids: ten base-32 digits of time, then sixteen of randomness, packed through an accumulator
 * that wraps at 32 bits.
 */
module ItemIds {
  import opened Domain
  import opened Sorting

  const CROCKFORD: string := "0123456789ABCDEFGHJKMNPQRSTVWXYZ"
  const TIME_SPAN := 0x4_0000_0000_0000 // 2^50

  type Digit = d: int | 0 <= d < 32

  // ---- what an id says -----------------------------------------------------------------------

  /** The last k base-32 digits of v, most significant first. */
  function Digits(v: nat, k: nat): (ds: seq<Digit>)
    ensures |ds| == k
  {
    if k == 0 then [] else Digits(v / 32, k - 1) + [v % 32]
  }

  function Encode(ds: seq<Digit>): string {
    seq(|ds|, i requires 0 <= i < |ds| => CROCKFORD[ds[i]])
  }

  /** The bytes read as one big-endian number. */
  function NumberOf(bytes: Bytes): nat {
    if bytes == [] then 0 else NumberOf(bytes[..|bytes| - 1]) * 256 + bytes[|bytes| - 1]
  }

  function IdOf(nowMs: nat, rnd: Bytes): ItemId {
    Encode(Digits(nowMs, 10)) + Encode(Digits(NumberOf(rnd), 16))
  }

  // ---- 32-bit arithmetic ---------------------------------------------------------------------

  /** The signed 32-bit integer a number wraps to. */
  function Wrap32(n: int): (w: int)
    ensures -0x8000_0000 <= w < 0x8000_0000
  {
    var m := n % 0x1_0000_0000;
    if m < 0x8000_0000 then m else m - 0x1_0000_0000
  }

  /** Arithmetic shift right: halving, rounding towards minus infinity. */
  function Shr(n: int, bits: nat): (r: int)
    ensures n >= 0 ==> r >= 0
    decreases bits
  {
    if bits == 0 then n else Shr(n / 2, bits - 1)
  }

  /** Shift left by eight and fill in a byte, wrapping: the shifted value ends in eight zero bits. */
  function ShiftIn(acc: int, byte: Byte): int {
    Wrap32(acc * 256) + byte
  }

  /** Shift right, then keep the low five bits. */
  function FiveBits(acc: int, bits: nat): Digit {
    Shr(acc, bits) % 32
  }

  lemma WrapIsCongruent(n: int)
    ensures n == Wrap32(n) + (n / 0x1_0000_0000 + (if n % 0x1_0000_0000 < 0x8000_0000 then 0 else 1)) * 0x1_0000_0000
  {
  }

  lemma CongruentWrapsAlike(n: int, w: int, k: int)
    requires n == w + k * 0x1_0000_0000 && -0x8000_0000 <= w < 0x8000_0000
    ensures Wrap32(n) == w
  {
  }

  /** The accumulator stays the true number, as far as 32 bits can tell. */
  lemma ShiftInWraps(n: int, byte: Byte)
    ensures ShiftIn(Wrap32(n), byte) == Wrap32(n * 256 + byte)
  {
    WrapIsCongruent(n);
    var k := n / 0x1_0000_0000 + (if n % 0x1_0000_0000 < 0x8000_0000 then 0 else 1);
    var acc := Wrap32(n);
    WrapIsCongruent(acc * 256);
    var j := acc * 256 / 0x1_0000_0000 + (if acc * 256 % 0x1_0000_0000 < 0x8000_0000 then 0 else 1);
    assert Wrap32(acc * 256) % 256 == 0;
    assert n * 256 + byte == ShiftIn(acc, byte) + (k * 256 + j) * 0x1_0000_0000;
    CongruentWrapsAlike(n * 256 + byte, ShiftIn(acc, byte), k * 256 + j);
  }

  lemma {:induction false} ShrTwice(n: int, a: nat, b: nat)
    ensures Shr(Shr(n, a), b) == Shr(n, a + b)
    decreases a
  {
    if a > 0 {
      ShrTwice(n / 2, a - 1, b);
    }
  }

  lemma ShrFive(n: int)
    ensures Shr(n, 5) == n / 32
  {
    assert Shr(n, 5) == Shr(n / 2, 4) == Shr(n / 4, 3) == Shr(n / 8, 2) == Shr(n / 16, 1) == Shr(n / 32, 0);
  }

  lemma ShrEight(n: int, byte: Byte)
    ensures Shr(n * 256 + byte, 8) == n
  {
    ShrTwice(n * 256 + byte, 3, 5);
    assert Shr(n * 256 + byte, 3) == Shr(n * 128 + byte / 2, 2) == Shr(n * 64 + byte / 4, 1) == n * 32 + byte / 8;
    ShrFive(n * 32 + byte / 8);
  }

  lemma ByteShifts(n: int, byte: Byte, bits: nat)
    ensures Shr(n * 256 + byte, bits + 8) == Shr(n, bits)
  {
    ShrTwice(n * 256 + byte, 8, bits);
    ShrEight(n, byte);
  }

  lemma DigitShifts(n: int, bits: nat)
    ensures Shr(n, bits) / 32 == Shr(n, bits + 5)
  {
    ShrTwice(n, bits, 5);
    ShrFive(Shr(n, bits));
  }

  /** Shifting right does not bring down what was added 32 places up. */
  lemma {:induction false} LowBitsShift(w: int, m: int, q: int, bits: nat)
    requires bits <= 27 && q == Scaled(m, 27 - bits)
    ensures Shr(w + Scaled(m, 27) * 32, bits) == Shr(w, bits) + q * 32
    decreases bits
  {
    if bits > 0 {
      ScaledTwice(m, 27 - bits);
      LowBitsShift(w, m, 2 * q, bits - 1);
      ShrOnce(w + Scaled(m, 27) * 32, bits);
      ShrOnce(w, bits);
      hide Shr, Scaled;
      HalfOfSum(Shr(w, bits - 1), q);
    }
  }

  lemma ShrOnce(n: int, bits: nat)
    requires bits > 0
    ensures Shr(n, bits) == Shr(n, bits - 1) / 2
  {
    ShrTwice(n, bits - 1, 1);
  }

  lemma HalfOfSum(a: int, q: int)
    ensures (a + 2 * q * 32) / 2 == a / 2 + q * 32
  {
  }

  /** m shifted left. */
  function Scaled(m: int, k: nat): int {
    if k == 0 then m else 2 * Scaled(m, k - 1)
  }

  lemma ScaledTwice(m: int, k: nat)
    ensures Scaled(m, k + 1) == 2 * Scaled(m, k)
  {
  }

  lemma ScaledByEight(m: int, k: nat)
    ensures Scaled(m, k + 3) == 8 * Scaled(m, k)
  {
    ScaledTwice(m, k + 1);
  }

  lemma ScaledByWord(m: int)
    ensures Scaled(m, 27) * 32 == m * 0x1_0000_0000
  {
    ScaledByEight(m, 0);
    ScaledByEight(m, 3);
    ScaledByEight(m, 6);
    ScaledByEight(m, 9);
    ScaledByEight(m, 12);
    ScaledByEight(m, 15);
    ScaledByEight(m, 18);
    ScaledByEight(m, 21);
    ScaledByEight(m, 24);
  }

  /** Five bits taken low enough are those of the true number, although the top has been lost. */
  lemma FiveBitsSurvive(n: nat, bits: nat)
    requires bits <= 27
    ensures FiveBits(Wrap32(n), bits) == Shr(n, bits) % 32
  {
    hide Shr, Scaled, Wrap32;
    WrapIsCongruent(n);
    var k := n / 0x1_0000_0000 + (if n % 0x1_0000_0000 < 0x8000_0000 then 0 else 1);
    ScaledByWord(k);
    LowFiveBits(n, Wrap32(n), k, bits);
  }

  lemma LowFiveBits(n: int, w: int, m: int, bits: nat)
    requires bits <= 27 && n == w + Scaled(m, 27) * 32
    ensures Shr(n, bits) % 32 == Shr(w, bits) % 32
  {
    hide Shr, Scaled;
    var q := Scaled(m, 27 - bits);
    assert Shr(n, bits) == Shr(w, bits) + q * 32 by {
      LowBitsShift(w, m, q, bits);
    }
    Mod32(Shr(w, bits), q);
  }

  lemma Mod32(a: int, m: int)
    ensures (a + m * 32) % 32 == a % 32
  {
  }

  /** Quotient and remainder are unique. */
  lemma DivMod(n: int, p: int, q: int, r: int)
    requires p > 0 && n == p * q + r && 0 <= r < p
    ensures n / p == q && n % p == r
  {
    var d := n / p - q;
    assert p * d == p * (n / p) - p * q == r - n % p;
    Magnitude(p, d);
  }

  lemma Magnitude(p: int, d: int)
    requires p > 0
    ensures d >= 1 ==> p * d >= p
    ensures d <= -1 ==> p * d <= -p
  {
  }

  // ---- the packing loops ---------------------------------------------------------------------

  method TimeDigits(nowMs: nat) returns (ts: string)
    ensures ts == Encode(Digits(nowMs, 10))
  {
    ts := "";
    var n := nowMs;
    for i := 0 to 10
      invariant Encode(Digits(n, 10 - i)) + ts == Encode(Digits(nowMs, 10))
    {
      assert Encode(Digits(n, 10 - i)) == Encode(Digits(n / 32, 10 - i - 1)) + [CROCKFORD[n % 32]];
      ts := [CROCKFORD[n % 32]] + ts;
      n := n / 32;
    }
  }

  /** The last k base-32 digits of n without its low `bits` bits. */
  function Packed(n: nat, bits: nat, k: nat): string {
    Encode(Digits(Shr(n, bits), k))
  }

  lemma ByteKeepsPacked(n: nat, byte: Byte, bits: nat, k: nat)
    ensures Packed(n * 256 + byte, bits + 8, k) == Packed(n, bits, k)
  {
    ByteShifts(n, byte, bits);
  }

  /** Emits digits while five bits are left; n is the number the accumulator stands for. */
  method TakeDigits(acc: int, bits0: nat, rand0: string, ghost n: nat) returns (bits: nat, rand: string)
    requires acc == Wrap32(n) && bits0 <= 12 && rand0 == Packed(n, bits0, |rand0|)
    ensures bits < 5 && |rand| * 5 + bits == |rand0| * 5 + bits0
    ensures rand == Packed(n, bits, |rand|)
  {
    assert |CROCKFORD| == 32;
    hide *;
    bits, rand := bits0, rand0;
    while bits >= 5
      invariant bits <= 12 && |rand| * 5 + bits == |rand0| * 5 + bits0
      invariant rand == Packed(n, bits, |rand|)
    {
      bits := bits - 5;
      NextDigit(n, bits, rand);
      rand := rand + [CROCKFORD[FiveBits(acc, bits)]];
    }
  }

  lemma NextDigit(n: nat, bits: nat, rand: string)
    requires bits <= 7 && rand == Packed(n, bits + 5, |rand|)
    ensures rand + [CROCKFORD[FiveBits(Wrap32(n), bits)]] == Packed(n, bits, |rand| + 1)
  {
    FiveBitsSurvive(n, bits);
    DigitShifts(n, bits);
    hide Shr, FiveBits, Wrap32;
    SnocDigit(Shr(n, bits), |rand|);
  }

  lemma SnocDigit(v: nat, k: nat)
    ensures Encode(Digits(v, k + 1)) == Encode(Digits(v / 32, k)) + [CROCKFORD[v % 32]]
  {
  }

  lemma BitsLeft(length: nat, digits: nat, bits: nat)
    requires digits * 5 + bits == length * 8 && bits < 5
    ensures digits == length * 8 / 5 && (length % 5 == 0 ==> bits == 0)
  {
    if length % 5 == 0 {
      assert bits == 5 * (length / 5 * 8 - digits);
    }
  }

  lemma PackedWhole(n: nat, k: nat)
    ensures Packed(n, 0, k) == Encode(Digits(n, k))
  {
  }

  method RandomDigits(rnd: Bytes) returns (rand: string)
    ensures |rand| == |rnd| * 8 / 5
    ensures |rnd| % 5 == 0 ==> rand == Encode(Digits(NumberOf(rnd), |rnd| * 8 / 5))
  {
    var bits, acc := 0, 0;
    rand := "";
    assert Wrap32(0) == 0 && NumberOf(rnd[..0]) == 0 && rand == Packed(0, 0, 0);
    hide Shr, Wrap32, Packed, ShiftIn;
    for i := 0 to |rnd|
      invariant 0 <= bits < 5 && |rand| * 5 + bits == i * 8
      invariant acc == Wrap32(NumberOf(rnd[..i]))
      invariant rand == Packed(NumberOf(rnd[..i]), bits, |rand|)
    {
      assert rnd[..i + 1][..i] == rnd[..i];
      ShiftInWraps(NumberOf(rnd[..i]), rnd[i]);
      ByteKeepsPacked(NumberOf(rnd[..i]), rnd[i], bits, |rand|);
      acc := ShiftIn(acc, rnd[i]);
      bits, rand := TakeDigits(acc, bits + 8, rand, NumberOf(rnd[..i + 1]));
    }
    assert rnd[..|rnd|] == rnd;
    BitsLeft(|rnd|, |rand|, bits);
    PackedWhole(NumberOf(rnd), |rand|);
  }

  /** Anything but ten random bytes is refused. */
  method NewItemId(nowMs: nat, rnd: Bytes) returns (id: Option<ItemId>)
    ensures id == if |rnd| == 10 then Some(IdOf(nowMs, rnd)) else None
  {
    if |rnd| != 10 {
      return None;
    }
    var ts := TimeDigits(nowMs);
    var rand := RandomDigits(rnd);
    assert rand[..16] == rand;
    id := Some(ts + rand[..16]);
  }

  // ---- order and injectivity -----------------------------------------------------------------

  /** The number the last k digits stand for. */
  function Trunc(v: nat, k: nat): nat {
    if k == 0 then 0 else Trunc(v / 32, k - 1) * 32 + v % 32
  }

  function Pow32(k: nat): (p: nat)
    ensures p > 0
  {
    if k == 0 then 1 else 32 * Pow32(k - 1)
  }

  lemma {:induction false} TruncIsRemainder(v: nat, k: nat)
    ensures Trunc(v, k) == v % Pow32(k)
  {
    if k > 0 {
      TruncIsRemainder(v / 32, k - 1);
      RemainderInTwo(v, Pow32(k - 1));
    }
  }

  lemma RemainderInTwo(v: nat, p: nat)
    requires p > 0
    ensures v / 32 % p * 32 + v % 32 == v % (32 * p)
  {
    var q := v / 32;
    assert q == p * (q / p) + q % p;
    assert v == (32 * p) * (q / p) + (32 * (q % p) + v % 32);
    DivMod(v, 32 * p, q / p, 32 * (q % p) + v % 32);
  }

  lemma WidthOfTime()
    ensures Pow32(10) == TIME_SPAN
  {
    assert Pow32(2) == 1024;
    assert Pow32(4) == 1024 * 1024;
    assert Pow32(6) == 1024 * 1024 * 1024;
    assert Pow32(8) == 1024 * 1024 * 1024 * 1024;
  }

  lemma WidthOfRandomness()
    ensures Pow32(16) == TIME_SPAN * 0x4000_0000
  {
    WidthOfTime();
    assert Pow32(12) == 1024 * Pow32(10);
    assert Pow32(14) == 1024 * Pow32(12);
  }

  /** The character codes of the alphabet: digits, then letters without I, L, O and U. */
  function Code(d: Digit): int {
    if d < 10 then '0' as int + d
    else if d < 18 then 'A' as int + d - 10
    else if d < 20 then 'J' as int + d - 18
    else if d < 22 then 'M' as int + d - 20
    else if d < 27 then 'P' as int + d - 22
    else 'V' as int + d - 27
  }

  lemma AlphabetAscends(d: Digit, e: Digit)
    ensures CROCKFORD[d] < CROCKFORD[e] <==> d < e
    ensures CROCKFORD[d] == CROCKFORD[e] <==> d == e
  {
    CodeOf(d);
    CodeOf(e);
    assert Code(d) < Code(e) <==> d < e;
    hide Code;
  }

  lemma CodeOf(d: Digit)
    ensures CROCKFORD[d] as int == Code(d)
  {
    assert forall i :: 0 <= i < 10 ==> CROCKFORD[i] == ('0' as int + i) as char;
    assert forall i :: 10 <= i < 18 ==> CROCKFORD[i] == ('A' as int + i - 10) as char;
    assert CROCKFORD[18] == 'J' && CROCKFORD[19] == 'K' && CROCKFORD[20] == 'M' && CROCKFORD[21] == 'N';
    assert forall i :: 22 <= i < 27 ==> CROCKFORD[i] == ('P' as int + i - 22) as char;
    assert forall i :: 27 <= i < 32 ==> CROCKFORD[i] == ('V' as int + i - 27) as char;
  }

  /** Between strings of equal length, the first half decides unless it is the same. */
  lemma {:induction false} LexConcat(a: string, b: string, c: string, d: string)
    requires |a| == |c|
    ensures LexLess(a + b, c + d) <==> LexLess(a, c) || (a == c && LexLess(b, d))
  {
    if a == [] {
      assert a + b == b && c + d == d;
    } else {
      LexConcat(a[1..], b, c[1..], d);
      assert (a + b)[1..] == a[1..] + b && (c + d)[1..] == c[1..] + d;
      assert a == [a[0]] + a[1..] && c == [c[0]] + c[1..];
    }
  }

  lemma LexOne(x: char, y: char)
    ensures LexLess([x], [y]) <==> x < y
  {
  }

  /** Fixed-width digits compare as strings just as their numbers do. */
  lemma {:induction false} DigitsOrder(v: nat, w: nat, k: nat)
    ensures LexLess(Encode(Digits(v, k)), Encode(Digits(w, k))) <==> Trunc(v, k) < Trunc(w, k)
    ensures Encode(Digits(v, k)) == Encode(Digits(w, k)) <==> Trunc(v, k) == Trunc(w, k)
  {
    if k > 0 {
      DigitsOrder(v / 32, w / 32, k - 1);
      var a, c := Encode(Digits(v / 32, k - 1)), Encode(Digits(w / 32, k - 1));
      var x, y := CROCKFORD[v % 32], CROCKFORD[w % 32];
      SnocDigit(v, k - 1);
      SnocDigit(w, k - 1);
      hide LexLess, Encode, Digits;
      LexConcat(a, [x], c, [y]);
      LexOne(x, y);
      AlphabetAscends(v % 32, w % 32);
      SnocEqual(a, x, c, y);
      DigitAfterDigits(Trunc(v / 32, k - 1), v % 32, Trunc(w / 32, k - 1), w % 32);
    }
  }

  lemma DigitAfterDigits(a: int, x: int, c: int, y: int)
    requires 0 <= x < 32 && 0 <= y < 32
    ensures a * 32 + x < c * 32 + y <==> a < c || (a == c && x < y)
    ensures a * 32 + x == c * 32 + y <==> a == c && x == y
  {
  }

  lemma SnocEqual(a: string, x: char, c: string, y: char)
    ensures a + [x] == c + [y] <==> a == c && x == y
  {
    if a + [x] == c + [y] {
      assert (a + [x])[..|a|] == a && (c + [y])[..|c|] == c;
      assert (a + [x])[|a|] == x && (c + [y])[|c|] == y;
    }
  }

  lemma {:induction false} NumberIsInjective(a: Bytes, b: Bytes)
    requires |a| == |b|
    ensures NumberOf(a) == NumberOf(b) <==> a == b
  {
    if a != [] {
      NumberIsInjective(a[..|a| - 1], b[..|b| - 1]);
      assert a == a[..|a| - 1] + [a[|a| - 1]] && b == b[..|b| - 1] + [b[|b| - 1]];
    }
  }

  function Pow256(k: nat): nat {
    if k == 0 then 1 else 256 * Pow256(k - 1)
  }

  lemma {:induction false} NumberFits(bytes: Bytes)
    ensures NumberOf(bytes) < Pow256(|bytes|)
  {
    if bytes != [] {
      NumberFits(bytes[..|bytes| - 1]);
    }
  }

  /** Ten bytes fill sixteen digits exactly. */
  lemma RandomnessFits(rnd: Bytes)
    requires |rnd| == 10
    ensures Trunc(NumberOf(rnd), 16) == NumberOf(rnd)
  {
    NumberFits(rnd);
    WidthOfRandomness();
    assert Pow256(4) == 0x1_0000_0000;
    assert Pow256(8) == 0x1_0000_0000 * 0x1_0000_0000 by {
      assert Pow256(6) == 0x1_0000_0000 * 65536;
    }
    TruncIsRemainder(NumberOf(rnd), 16);
    assert NumberOf(rnd) < Pow32(16);
  }

  /** Ids sort by time first and by their random bytes second; the time counts modulo 2^50. */
  lemma IdsSortByTime(t: nat, rnd: Bytes, u: nat, other: Bytes)
    requires |rnd| == |other| == 10
    ensures LexLess(IdOf(t, rnd), IdOf(u, other)) <==>
            t % TIME_SPAN < u % TIME_SPAN
            || (t % TIME_SPAN == u % TIME_SPAN && NumberOf(rnd) < NumberOf(other))
  {
    TruncIsRemainder(t, 10);
    TruncIsRemainder(u, 10);
    WidthOfTime();
    RandomnessFits(rnd);
    RandomnessFits(other);
    DigitsOrder(t, u, 10);
    DigitsOrder(NumberOf(rnd), NumberOf(other), 16);
    LexConcat(Encode(Digits(t, 10)), Encode(Digits(NumberOf(rnd), 16)),
              Encode(Digits(u, 10)), Encode(Digits(NumberOf(other), 16)));
  }

  /** Two ids are equal exactly when their times agree modulo 2^50 and their bytes are the same. */
  lemma IdsNeverCollide(t: nat, rnd: Bytes, u: nat, other: Bytes)
    requires |rnd| == |other| == 10
    ensures IdOf(t, rnd) == IdOf(u, other) <==> t % TIME_SPAN == u % TIME_SPAN && rnd == other
  {
    IdsSortByTime(t, rnd, u, other);
    IdsSortByTime(u, other, t, rnd);
    NumberIsInjective(rnd, other);
    LexTrichotomy(IdOf(t, rnd), IdOf(u, other));
    if t % TIME_SPAN == u % TIME_SPAN && rnd == other {
      EqualParts(t, rnd, u, other);
    }
  }

  lemma EqualParts(t: nat, rnd: Bytes, u: nat, other: Bytes)
    requires t % TIME_SPAN == u % TIME_SPAN && rnd == other
    ensures IdOf(t, rnd) == IdOf(u, other)
  {
    TruncIsRemainder(t, 10);
    TruncIsRemainder(u, 10);
    WidthOfTime();
    DigitsOrder(t, u, 10);
  }

  /** An id is 26 characters of the alphabet. */
  lemma IdShape(t: nat, rnd: Bytes)
    ensures |IdOf(t, rnd)| == 26 && forall i :: 0 <= i < 26 ==> IdOf(t, rnd)[i] in CROCKFORD
  {
    var ds := Digits(t, 10) + Digits(NumberOf(rnd), 16);
    assert IdOf(t, rnd) == Encode(ds);
    forall i | 0 <= i < 26
      ensures IdOf(t, rnd)[i] in CROCKFORD
    {
      assert IdOf(t, rnd)[i] == CROCKFORD[ds[i]];
    }
  }
}
