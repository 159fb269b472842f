/**
 The Internet checksum (section 1 of RFC 1071) as the raw-socket programs compute it,
 the IPv4 header they protect with it, and the byte swap of les25.
 */
module Rfc1071 {

  type Byte = n: int | 0 <= n < 0x100
  type Word = n: int | 0 <= n < 0x10000

  // ------------------------------------------------- C conversions, written out

  function ToUnsignedShort(n: int): Word { n % 0x10000 }

  function ToShort(n: int): (r: int)
    ensures -0x8000 <= r < 0x8000 && (n - r) % 0x10000 == 0
  {
    var u := n % 0x10000;
    if u < 0x8000 then u else u - 0x10000
  }

  /** ~n on a signed int. */
  function BitNot(n: int): int { -n - 1 }

  /** ~n on an unsigned 32-bit int. */
  function BitNot32(n: nat): int { 0xFFFF_FFFF - n }

  // -------------------------------------------------------- what the sum stands for

  function Sum(ws: seq<Word>): nat {
    if ws == [] then 0 else Sum(ws[..|ws| - 1]) + ws[|ws| - 1]
  }

  /** The one's-complement value of a plain sum: zero only for zero, otherwise in 1..0xFFFF. */
  function Residue(n: nat): Word {
    if n == 0 then 0 else (n - 1) % 0xFFFF + 1
  }

  /** The checksum of RFC 1071 by arithmetic: no loop, no carries. */
  function InternetChecksum(ws: seq<Word>): Word { 0xFFFF - Residue(Sum(ws)) }

  // ------------------------------------------------------------------ the two loops

  /** checksum: the sum is cut to 16 bits before each addition. */
  method Checksum(tick: seq<Word>) returns (c: Word)
    ensures c == InternetChecksum(tick)
  {
    var i := 0;
    var result: nat := 0;
    while i != |tick|
      invariant 0 <= i <= |tick|
      invariant result == Residue(Sum(tick[..i]))
      decreases |tick| - i
    {
      assert tick[..i + 1][..i] == tick[..i];
      AddWithCarry(Sum(tick[..i]), tick[i]);
      result := ToUnsignedShort(result) + tick[i];
      if result > 0xFFFF {
        result := result - 0x10000;
        result := result + 1;
      }
      i := i + 1;
    }
    assert tick[..i] == tick;
    c := ToUnsignedShort(BitNot(ToShort(result)));
  }

  /** gen_crc16: the sum is kept in 32 bits. */
  method GenCrc16(data: seq<Word>, size: Word) returns (c: Word)
    requires size <= |data|
    ensures c == InternetChecksum(data[..size])
  {
    var i := 0;
    var crc: nat := 0;
    while i < size
      invariant 0 <= i <= size
      invariant crc == Residue(Sum(data[..i]))
    {
      assert data[..i + 1][..i] == data[..i];
      AddWithCarry(Sum(data[..i]), data[i]);
      crc := crc + data[i];
      if crc > 0xFFFF {
        crc := crc - 0x10000;
        crc := crc + 1;
      }
      i := i + 1;
    }
    c := ToUnsignedShort(BitNot32(crc));
  }

  // ------------------------------------------------------------- modular arithmetic

  /** Two positive 16-bit values that agree modulo 0xFFFF are equal. */
  lemma ResidueUnique(n: nat, r: int, k: int)
    requires 1 <= n && 1 <= r <= 0xFFFF && n == r + 0xFFFF * k
    ensures Residue(n) == r
  {
  }

  lemma ResidueWitness(n: nat) returns (k: int)
    requires 1 <= n
    ensures n == Residue(n) + 0xFFFF * k
  {
    k := (n - 1) / 0xFFFF;
  }

  lemma AddWithCarry(n: nat, w: Word)
    ensures var s := Residue(n) + w;
            Residue(n + w) == if s > 0xFFFF then s - 0xFFFF else s
  {
  }

  lemma {:induction false} SumUpdate(ws: seq<Word>, k: nat, w: Word)
    requires k < |ws|
    ensures Sum(ws[k := w]) == Sum(ws) - ws[k] + w
  {
    var n := |ws| - 1;
    if k == n {
      assert ws[k := w][..n] == ws[..n];
    } else {
      assert ws[k := w][..n] == ws[..n][k := w];
      SumUpdate(ws[..n], k, w);
    }
  }

  /** A word stored where a zero was makes the receiver's check succeed exactly when it is the
      checksum, up to the two representations 0 and 0xFFFF of zero. */
  lemma StoredChecksumVerifies(ws: seq<Word>, k: nat, w: Word)
    requires k < |ws| && ws[k] == 0
    ensures InternetChecksum(ws[k := InternetChecksum(ws)]) == 0
    ensures InternetChecksum(ws[k := w]) == 0 <==>
            w % 0xFFFF == InternetChecksum(ws) % 0xFFFF && Sum(ws) + w != 0
  {
    var c := InternetChecksum(ws);
    SumUpdate(ws, k, c);
    SumUpdate(ws, k, w);
    if Sum(ws) == 0 {
      assert c == 0xFFFF;
    } else {
      var q := ResidueWitness(Sum(ws));
      ResidueUnique(Sum(ws) + c, 0xFFFF, q);
      ZeroResidue(Sum(ws), c, w, q);
    }
  }

  lemma ZeroResidue(n: nat, c: Word, w: Word, q: int)
    requires 1 <= n && c == 0xFFFF - Residue(n) && n == Residue(n) + 0xFFFF * q
    ensures Residue(n + w) == 0xFFFF <==> w % 0xFFFF == c % 0xFFFF
  {
  }

  /** The folded sum is zero, and the checksum 0xFFFF, only when every word is zero. */
  lemma {:induction false} OnlyZerosSumToZero(ws: seq<Word>)
    ensures Sum(ws) == 0 <==> forall i | 0 <= i < |ws| :: ws[i] == 0
    ensures InternetChecksum(ws) == 0xFFFF <==> forall i | 0 <= i < |ws| :: ws[i] == 0
  {
    if ws != [] {
      OnlyZerosSumToZero(ws[..|ws| - 1]);
      assert forall i | 0 <= i < |ws| - 1 :: ws[..|ws| - 1][i] == ws[i];
    }
  }

  // ------------------------------------------------- section 2 (A) of RFC 1071: order

  lemma {:induction false} SumRemove(ws: seq<Word>, k: nat)
    requires k < |ws|
    ensures Sum(ws) == ws[k] + Sum(ws[..k] + ws[k + 1..])
  {
    var n := |ws| - 1;
    var rest := ws[..k] + ws[k + 1..];
    if k == n {
      assert rest == ws[..n];
    } else {
      assert rest[..|rest| - 1] == ws[..n][..k] + ws[..n][k + 1..];
      SumRemove(ws[..n], k);
    }
  }

  lemma {:induction false} SumIgnoresOrder(a: seq<Word>, b: seq<Word>)
    requires multiset(a) == multiset(b)
    ensures Sum(a) == Sum(b)
    decreases |a|
  {
    if a == [] {
      assert |multiset(b)| == 0;
    } else {
      var n := |a| - 1;
      var w := a[n];
      assert a == a[..n] + [w];
      assert w in multiset(b);
      var k :| 0 <= k < |b| && b[k] == w;
      assert b == b[..k] + [w] + b[k + 1..];
      var a', b' := a[..n], b[..k] + b[k + 1..];
      assert multiset(a') == multiset(a) - multiset{w};
      assert multiset(b') == multiset(b) - multiset{w};
      SumIgnoresOrder(a', b');
      SumRemove(b, k);
    }
  }

  /** The checksum does not depend on the order of the words. */
  lemma ChecksumIgnoresOrder(a: seq<Word>, b: seq<Word>)
    requires multiset(a) == multiset(b)
    ensures InternetChecksum(a) == InternetChecksum(b)
  {
    SumIgnoresOrder(a, b);
  }

  // -------------------------------------------- section 2 (B) of RFC 1071: byte order

  function Swap(w: Word): Word { (w % 0x100) * 0x100 + w / 0x100 }

  function SwapAll(ws: seq<Word>): seq<Word> {
    seq(|ws|, i requires 0 <= i < |ws| => Swap(ws[i]))
  }

  /** Bitwise or, one bit at a time. */
  function BitOr(a: nat, b: nat): nat {
    if a == 0 && b == 0 then 0
    else (if a % 2 == 1 || b % 2 == 1 then 1 else 0) + 2 * BitOr(a / 2, b / 2)
  }

  function Pow2(k: nat): nat {
    if k == 0 then 1 else 2 * Pow2(k - 1)
  }

  lemma {:induction false} OrDisjoint(a: nat, b: nat, k: nat)
    requires b < Pow2(k)
    ensures BitOr(a * Pow2(k), b) == a * Pow2(k) + b
  {
    if k == 0 {
      OrZero(a);
    } else {
      var m := a * Pow2(k - 1);
      assert a * Pow2(k) == 2 * m;
      OrDisjoint(a, b / 2, k - 1);
    }
  }

  lemma {:induction false} OrZero(a: nat)
    ensures BitOr(a, 0) == a && BitOr(0, a) == a
  {
    if a != 0 {
      OrZero(a / 2);
    }
  }

  lemma OrByte(a: nat, b: nat)
    requires b < 0x100
    ensures BitOr(a * 0x100, b) == a * 0x100 + b
  {
    assert Pow2(4) == 16;
    assert Pow2(8) == 0x100;
    OrDisjoint(a, b, 8);
  }

  lemma OrShiftedByte(a: nat, b: nat)
    requires a % 0x100 == 0 && b < 0x100
    ensures BitOr(a, b) == a + b
  {
    OrByte(a / 0x100, b);
  }

  /** reflect: masks and shifts on a 16-bit value (n & 0xFF is n % 0x100, n >> 8 is n / 0x100). */
  method Reflect(num: Word) returns (k: Word)
    ensures k == Swap(num)
  {
    var low: nat, high: nat := num % 0x100, (num / 0x100) % 0x100;
    assert high == num / 0x100;
    var r: nat := 0;
    OrZero(low);
    r := BitOr(r, low);
    r := ToUnsignedShort(r * 0x100);
    assert r == low * 0x100;
    OrShiftedByte(r, high);
    r := BitOr(r, high);
    assert r == low * 0x100 + high;
    k := r;
  }

  lemma SwapValue(w: Word)
    ensures Swap(w) == 0x100 * w - 0xFFFF * (w / 0x100)
    ensures Swap(Swap(w)) == w
    ensures Swap(0xFFFF - w) == 0xFFFF - Swap(w)
    ensures Swap(w) == 0 <==> w == 0
  {
    var hi, lo := w / 0x100, w % 0x100;
    SwapOfParts(hi, lo);
    SwapOfParts(lo, hi);
    SwapOfParts(0xFF - hi, 0xFF - lo);
  }

  lemma SwapOfParts(hi: int, lo: int)
    requires 0 <= hi < 0x100 && 0 <= lo < 0x100
    ensures Swap(0x100 * hi + lo) == 0x100 * lo + hi
  {
    assert (0x100 * hi + lo) / 0x100 == hi && (0x100 * hi + lo) % 0x100 == lo;
  }

  lemma {:induction false} SwappedSum(ws: seq<Word>) returns (k: int)
    ensures Sum(SwapAll(ws)) == 0x100 * Sum(ws) - 0xFFFF * k
    ensures Sum(SwapAll(ws)) == 0 <==> Sum(ws) == 0
  {
    if ws == [] {
      k := 0;
    } else {
      var n := |ws| - 1;
      var h := SwappedSum(ws[..n]);
      assert SwapAll(ws)[..n] == SwapAll(ws[..n]);
      SwapValue(ws[n]);
      k := h + ws[n] / 0x100;
    }
  }

  /** Swapping the bytes of every word swaps the bytes of the checksum. */
  lemma SwapCommutesWithChecksum(ws: seq<Word>)
    ensures InternetChecksum(SwapAll(ws)) == Swap(InternetChecksum(ws))
  {
    var s, t := Sum(ws), Sum(SwapAll(ws));
    var k := SwappedSum(ws);
    if s != 0 {
      var q := ResidueWitness(s);
      var r := Residue(s);
      SwapValue(r);
      assert t == Swap(r) + 0xFFFF * (r / 0x100 + 0x100 * q - k);
      ResidueUnique(t, Swap(r), r / 0x100 + 0x100 * q - k);
    }
  }
}
