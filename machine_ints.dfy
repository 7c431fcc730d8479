/**
 * Fixed-width integers of the AVR target and the binary-representation
 * facts the firmware's shift loops rely on.
 *
 * Every machine integer of the firmware is modelled as a Dafny `int` in the
 * range of its C type; wrap-around is always written out with `%`.
 */
module MachineInts {

  type u8 = x: int | 0 <= x < 0x100
  type u16 = x: int | 0 <= x < 0x1_0000
  type u32 = x: int | 0 <= x < 0x1_0000_0000
  type i8 = x: int | -0x80 <= x < 0x80

  /** The CPU clock: the firmware runs the ATtiny at 8 MHz with no prescaler. */
  const F_CPU: nat := 8_000_000

  /** The `int8_t` that a `uint8_t` converts to on the target (two's complement). */
  function ToI8(b: u8): (r: i8)
    ensures r % 0x100 == b
    ensures (r < 0) == (b >= 0x80)
  {
    if b < 0x80 then b else b - 0x100
  }

  /**
   * The `uint32_t` that a 16-bit `int` holding the bit pattern v converts to:
   * patterns with the sign bit set are negative and wrap to the top of the range.
   */
  function SignExtend16(v: u16): (r: u32)
    ensures r % 0x1_0000 == v
    ensures v < 0x8000 ==> r == v
  {
    if v < 0x8000 then v else v + 0xFFFF_0000
  }

  function Pow2(n: nat): (r: nat)
    ensures r >= 1
  {
    if n == 0 then 1 else 2 * Pow2(n - 1)
  }

  // ---------------------------------------------------------------------
  // Arithmetic facts, each stated over plain integers

  lemma {:induction false} Pow2Add(a: nat, b: nat)
    ensures Pow2(a + b) == Pow2(a) * Pow2(b)
    decreases b
  {
    if b > 0 {
      Pow2Add(a, b - 1);
      assert Pow2(a + b) == 2 * Pow2(a + b - 1);
    }
  }

  lemma Pow2Byte()
    ensures Pow2(7) == 0x80 && Pow2(8) == 0x100
  {
  }

  lemma Pow2Half()
    ensures Pow2(16) == 0x1_0000
  {
    Pow2Byte();
    Pow2Add(8, 8);
  }

  /** The powers of two that the 8-, 16- and 32-bit registers use. */
  lemma Pow2Facts()
    ensures Pow2(7) == 0x80 && Pow2(8) == 0x100
    ensures Pow2(16) == 0x1_0000
    ensures Pow2(31) == 0x8000_0000 && Pow2(32) == 0x1_0000_0000
  {
    Pow2Byte();
    Pow2Half();
    Pow2Add(16, 16);
    assert Pow2(32) == 2 * Pow2(31);
  }

  lemma MulAtLeast(k: int, d: int)
    requires k >= 1 && d > 0
    ensures k * d >= d
  {
  }

  /** Euclidean division has a unique quotient and remainder. */
  lemma DivModUnique(x: int, d: int, q: int, r: int)
    requires d > 0 && x == q * d + r && 0 <= r < d
    ensures x / d == q && x % d == r
  {
    var q', r' := x / d, x % d;
    assert (q - q') * d == r' - r;
    if q > q' {
      MulAtLeast(q - q', d);
    } else if q < q' {
      MulAtLeast(q' - q, d);
    }
  }

  lemma MulStrict(a: nat, b: nat, c: nat)
    requires a < b && c > 0
    ensures a * c < b * c
  {
  }

  lemma MulAssoc(a: int, b: int, c: int)
    ensures a * (b * c) == (a * b) * c
  {
  }

  lemma MulDistrib(a: int, b: int, c: int)
    ensures a * (b + c) == a * b + a * c
  {
  }

  /** Doubling commutes with reduction modulo m. */
  lemma ModDouble(x: int, m: int)
    requires m > 0
    ensures ((x % m) * 2) % m == (x * 2) % m
  {
    var q, r := x / m, x % m;
    var q2, r2 := (2 * r) / m, (2 * r) % m;
    assert x == q * m + r;
    assert 2 * r == q2 * m + r2;
    MulDistrib(2, q * m, r);
    MulAssoc(2, q, m);
    assert x * 2 == (2 * q + q2) * m + r2;
    DivModUnique(x * 2, m, 2 * q + q2, r2);
  }

  /** Dividing by 2p is halving first and then dividing by p. */
  lemma HalfSplit(x: nat, p: nat)
    requires p > 0
    ensures x / (2 * p) == (x / 2) / p
    ensures x % (2 * p) == 2 * ((x / 2) % p) + x % 2
  {
    var q, r := (x / 2) / p, (x / 2) % p;
    assert x == 2 * (x / 2) + x % 2;
    assert x / 2 == p * q + r;
    MulDistrib(2, p * q, r);
    MulAssoc(2, p, q);
    DivModUnique(x, 2 * p, q, 2 * r + x % 2);
  }

  /** Scaling both operands scales the remainder. */
  lemma ModMul(x: nat, p: nat, z: nat)
    requires p > 0 && z > 0
    ensures (x * z) % (p * z) == (x % p) * z
  {
    var q, s := x / p, x % p;
    assert x == q * p + s;
    MulDistrib(z, q * p, s);
    MulAssoc(q, p, z);
    MulStrict(s, p, z);
    DivModUnique(x * z, p * z, q, s * z);
  }

  // ---------------------------------------------------------------------
  // Bit strings

  /** `Zeros(k)` is a run of k clear bits. */
  function Zeros(k: nat): (z: seq<bool>)
    ensures |z| == k
  {
    if k == 0 then [] else Zeros(k - 1) + [false]
  }

  /**
   * The n low-order bits of x, most significant bit first: the written-out
   * binary representation of x mod 2^n.
   */
  function Bits(x: nat, n: nat): (bs: seq<bool>)
    ensures |bs| == n
  {
    if n == 0 then [] else Bits(x / 2, n - 1) + [x % 2 == 1]
  }

  /** The value of a bit string read most significant bit first. */
  function Val(bs: seq<bool>): nat
  {
    if bs == [] then 0 else 2 * Val(bs[..|bs| - 1]) + (if bs[|bs| - 1] then 1 else 0)
  }

  lemma {:induction false} ValBound(bs: seq<bool>)
    ensures Val(bs) < Pow2(|bs|)
  {
    if bs != [] {
      ValBound(bs[..|bs| - 1]);
    }
  }

  /** Reading a bit string from the front: the head bit is worth 2^(|bs|-1). */
  lemma {:induction false} ValHead(bs: seq<bool>)
    requires |bs| >= 1
    ensures Val(bs) == (if bs[0] then Pow2(|bs| - 1) else 0) + Val(bs[1..])
  {
    if |bs| > 1 {
      var init := bs[..|bs| - 1];
      ValHead(init);
      assert init[1..] == bs[1..][..|bs[1..]| - 1];
    }
  }

  /** Appending clear bits multiplies the value by a power of two. */
  lemma {:induction false} ValZeros(bs: seq<bool>, k: nat)
    ensures Val(bs + Zeros(k)) == Val(bs) * Pow2(k)
    decreases k
  {
    if k > 0 {
      var s := bs + Zeros(k);
      assert s[..|s| - 1] == bs + Zeros(k - 1);
      ValZeros(bs, k - 1);
      assert s[|s| - 1] == false;
      assert Val(s) == 2 * Val(bs + Zeros(k - 1));
      assert Pow2(k) == 2 * Pow2(k - 1);
      MulAssoc(2, Val(bs), Pow2(k - 1));
      MulAssoc(Val(bs), 2, Pow2(k - 1));
    } else {
      assert bs + Zeros(0) == bs;
    }
  }

  /** The binary representation is faithful: its value is x mod 2^n. */
  lemma {:induction false} ValBits(x: nat, n: nat)
    ensures Val(Bits(x, n)) == x % Pow2(n)
  {
    if n > 0 {
      var bs := Bits(x, n);
      assert bs[..n - 1] == Bits(x / 2, n - 1);
      ValBits(x / 2, n - 1);
      HalfSplit(x, Pow2(n - 1));
    }
  }

  /** Bit k of the representation, counted from the least significant end. */
  lemma {:induction false} BitsAt(x: nat, n: nat, k: nat)
    requires k < n
    ensures Bits(x, n)[n - 1 - k] == ((x / Pow2(k)) % 2 == 1)
    decreases k
  {
    if k > 0 {
      BitsAt(x / 2, n - 1, k - 1);
      assert Bits(x, n)[n - 1 - k] == Bits(x / 2, n - 1)[n - 1 - k];
      HalfSplit(x, Pow2(k - 1));
    }
  }

  /** The top bit of a w-bit register is the head of the bit string it holds. */
  lemma ShiftTop(bs: seq<bool>)
    requires |bs| >= 1
    ensures (Val(bs) >= Pow2(|bs| - 1)) == bs[0]
  {
    ValHead(bs);
    ValBound(bs[1..]);
  }

  /** Shifting a w-bit register left by one drops the head and appends a clear bit. */
  lemma ShiftLeft(bs: seq<bool>)
    requires |bs| >= 1
    ensures (Val(bs) * 2) % Pow2(|bs|) == Val(bs[1..] + [false])
  {
    var n, rest := |bs|, bs[1..];
    ValHead(bs);
    ValBound(rest);
    assert (rest + [false])[..|rest|] == rest;
    assert Val(rest + [false]) == 2 * Val(rest);
    assert Pow2(n) == 2 * Pow2(n - 1);
    if bs[0] {
      DivModUnique(Val(bs) * 2, Pow2(n), 1, 2 * Val(rest));
    } else {
      DivModUnique(Val(bs) * 2, Pow2(n), 0, 2 * Val(rest));
    }
  }

  /** Shifting x left by (w - n) in a w-bit register leaves its n low bits on top. */
  lemma ShiftedValue(x: nat, n: nat, w: nat)
    requires n <= w
    ensures (x * Pow2(w - n)) % Pow2(w) == Val(Bits(x, n) + Zeros(w - n))
  {
    ValZeros(Bits(x, n), w - n);
    ValBits(x, n);
    Pow2Add(n, w - n);
    ModMul(x, Pow2(n), Pow2(w - n));
  }

  /** After `x << s` in a w-bit register, the top bit is bit w - 1 - s of x. */
  lemma ShiftedTop(x: nat, s: nat, w: nat)
    requires s < w
    ensures ((x * Pow2(s)) % Pow2(w) >= Pow2(w - 1)) == ((x / Pow2(w - 1 - s)) % 2 == 1)
  {
    var n := w - s;
    var t := Bits(x, n) + Zeros(s);
    assert w - n == s;
    ShiftedValue(x, n, w);
    ShiftTop(t);
    BitsAt(x, n, n - 1);
    assert t[0] == Bits(x, n)[0];
  }

  /** Shifting a w-bit register left by n >= w bits clears it. */
  lemma ShiftOut(x: nat, n: nat, w: nat)
    requires n >= w
    ensures (x * Pow2(n)) % Pow2(w) == 0
  {
    var k := n - w;
    Pow2Add(k, w);
    assert k + w == n;
    MulAssoc(x, Pow2(k), Pow2(w));
    DivModUnique(x * Pow2(n), Pow2(w), x * Pow2(k), 0);
  }

  lemma ValOfZeros(k: nat)
    ensures Val(Zeros(k)) == 0
  {
    ValZeros([], k);
    assert [] + Zeros(k) == Zeros(k);
  }

  // ---------------------------------------------------------------------
  // Shift registers
  //
  // A send loop loads a register with a bit string b (followed by clear bits),
  // tests its top bit and shifts it left once per turn. After i turns the
  // register holds `b[i..] + Zeros(z)`, where z counts the clear bits below.

  /** A register loaded with a w-bit value x holds its representation. */
  lemma RegLoad(x: nat, w: nat)
    requires x < Pow2(w)
    ensures x == Val(Bits(x, w)[0..] + Zeros(0))
  {
    ValBits(x, w);
    DivModUnique(x, Pow2(w), 0, x);
    assert Bits(x, w)[0..] + Zeros(0) == Bits(x, w);
  }

  /** The register's top bit is bit i of the loaded string. */
  lemma RegTop(b: seq<bool>, z: nat, i: nat, w: nat)
    requires i < |b| && w == |b| - i + z
    ensures (Val(b[i..] + Zeros(z)) >= Pow2(w - 1)) == b[i]
  {
    var t := b[i..] + Zeros(z);
    assert |t| == w;
    ShiftTop(t);
    assert t[0] == b[i];
  }

  /** `reg = reg << 1` moves the register to the next bit. */
  lemma RegShl(b: seq<bool>, z: nat, i: nat, w: nat)
    requires i < |b| && w == |b| - i + z
    ensures (Val(b[i..] + Zeros(z)) * 2) % Pow2(w) == Val(b[i + 1..] + Zeros(z + 1))
  {
    var t := b[i..] + Zeros(z);
    assert |t| == w;
    ShiftLeft(t);
    assert t[1..] + [false] == b[i + 1..] + Zeros(z + 1);
  }
}
