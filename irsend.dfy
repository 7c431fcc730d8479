/**
 * The IR pulse encoders of the CtrlM firmware (IRsend.h).
 *
 * `IRsend_mark(t)` and `IRsend_space(t)` switch the modulated LED on or off
 * and busy-wait t tens of microseconds; here each is one event appended to a
 * pulse log. `IRsend_enableIROut()` programs the PWM timer from the globals
 * `ir_freqval` and `ir_dutyval`; here it is a `Carrier` event carrying those two
 * values, which every send method takes as parameters because it re-reads them.
 *
 * Every send method is written as the loop the source runs (shifting a local
 * register and testing its top bit) and is proved equal to a frame function
 * that describes the pulse train by the bits it encodes.
 */
module IRSend {
  import opened MachineInts

  // Pulse widths, in tens of microseconds (IRsend.h:5-33)
  const RC5_T1: u16 := 89
  const RC6_HDR_MARK: u16 := 266
  const RC6_HDR_SPACE: u16 := 89
  const RC6_T1: u16 := 44
  const NEC_HDR_MARK: u16 := 900
  const NEC_HDR_SPACE: u16 := 450
  const NEC_BIT_MARK: u16 := 56
  const NEC_ONE_SPACE: u16 := 160
  const NEC_ZERO_SPACE: u16 := 56
  const SONY_HDR_MARK: u16 := 240
  const SONY_HDR_SPACE: u16 := 60
  const SONY_ONE_MARK: u16 := 120
  const SONY_ZERO_MARK: u16 := 60
  const SONY_BITS: u16 := 12
  const DATA_HDR_MARK: u16 := 240
  const DATA_HDR_SPACE: u16 := 30
  const DATA_ZERO_MARK: u16 := 30
  const DATA_ZERO_SPACE: u16 := 30
  const DATA_ONE_MARK: u16 := 60
  const DATA_ONE_SPACE: u16 := 30

  const TOPBIT: u32 := 0x8000_0000
  const TOPBIT8: u8 := 0x80

  datatype IrEvent =
    | Carrier(freqval: u8, dutyval: u8)  // IRsend_enableIROut with the timer values it loads
    | Mark(t: u16)                        // IRsend_mark: modulated carrier on for t
    | Space(t: u16)                       // IRsend_space: carrier off for t
    | IrOn                                // a bare IRsend_iron
    | IrOff                               // a bare IRsend_iroff

  /**
   * `freq_to_timer1val`: the timer top value for a carrier of x Hz. The timer
   * counts r + 1 clock cycles per period, the largest count whose period does
   * not exceed the requested one.
   */
  function FreqToTimer1Val(x: nat): (r: int)
    requires x > 0
    ensures (r + 1) * x <= F_CPU < (r + 2) * x
  {
    var q := F_CPU / x;
    assert F_CPU == q * x + F_CPU % x;
    assert (q + 1) * x == q * x + x;
    q - 1
  }

  // ---------------------------------------------------------------------
  // Bit codings

  /** The line codes of the send routines. */
  datatype Coding = Sony | Nec | Rc5 | Rc6 | TxData

  /** The two pulses that encode bit number i (counted from 0) with value b. */
  function BitPulses(c: Coding, i: nat, b: bool): (p: seq<IrEvent>)
    ensures |p| == 2
  {
    match c
    case Sony => [Mark(if b then SONY_ONE_MARK else SONY_ZERO_MARK), Space(SONY_HDR_SPACE)]
    case Nec => [Mark(NEC_BIT_MARK), Space(if b then NEC_ONE_SPACE else NEC_ZERO_SPACE)]
    case Rc5 => if b then [Space(RC5_T1), Mark(RC5_T1)] else [Mark(RC5_T1), Space(RC5_T1)]
    case Rc6 =>
      var t: u16 := if i == 3 then 2 * RC6_T1 else RC6_T1;
      if b then [Mark(t), Space(t)] else [Space(t), Mark(t)]
    case TxData =>
      if b then [Mark(DATA_ONE_MARK), Space(DATA_ONE_SPACE)]
      else [Mark(DATA_ZERO_MARK), Space(DATA_ZERO_SPACE)]
  }

  /** The pulses for the bit string bs, sent in order. */
  function Pulses(c: Coding, bs: seq<bool>): (p: seq<IrEvent>)
    ensures |p| == 2 * |bs|
  {
    if bs == [] then [] else Pulses(c, bs[..|bs| - 1]) + BitPulses(c, |bs| - 1, bs[|bs| - 1])
  }

  lemma PulsesSnoc(c: Coding, bs: seq<bool>, b: bool)
    ensures Pulses(c, bs + [b]) == Pulses(c, bs) + BitPulses(c, |bs|, b)
  {
    assert (bs + [b])[..|bs|] == bs;
  }

  lemma ConcatAssoc<T>(p: seq<T>, q: seq<T>, r: seq<T>)
    ensures (p + q) + r == p + (q + r)
  {
  }

  /** Apart from RC6's trailer bit, a bit's pulses do not depend on its position. */
  lemma BitPulsesAnywhere(c: Coding, i: nat, j: nat, b: bool)
    requires c != Rc6
    ensures BitPulses(c, i, b) == BitPulses(c, j, b)
  {
  }

  lemma {:induction false} PulsesAppend(c: Coding, a: seq<bool>, b: seq<bool>)
    requires c != Rc6
    ensures Pulses(c, a + b) == Pulses(c, a) + Pulses(c, b)
    decreases |b|
  {
    if b != [] {
      var init, last := b[..|b| - 1], b[|b| - 1];
      assert a + b == (a + init) + [last];
      assert b == init + [last];
      PulsesSnoc(c, a + init, last);
      PulsesSnoc(c, init, last);
      PulsesAppend(c, a, init);
      BitPulsesAnywhere(c, |a + init|, |init|, last);
      ConcatAssoc(Pulses(c, a), Pulses(c, init), BitPulses(c, |init|, last));
    } else {
      assert a + b == a;
    }
  }

  /** The bytes of a buffer as one bit string, each byte most significant bit first. */
  function BytesBits(bytes: seq<u8>): (bs: seq<bool>)
    ensures |bs| == 8 * |bytes|
  {
    if bytes == [] then [] else BytesBits(bytes[..|bytes| - 1]) + Bits(bytes[|bytes| - 1], 8)
  }

  /** The k-th bit sendNEC sends: bit 31 - k of data, and clear bits once all 32 are out. */
  function NecBit(data: nat, k: nat): bool
  {
    k < 32 && (data / Pow2(31 - k)) % 2 == 1
  }

  function NecBits(data: nat, n: int): (bs: seq<bool>)
    ensures |bs| == if n <= 0 then 0 else n
    decreases n
  {
    if n <= 0 then [] else NecBits(data, n - 1) + [NecBit(data, n - 1)]
  }

  function Reverse<T>(s: seq<T>): (r: seq<T>)
    ensures |r| == |s|
    ensures forall i :: 0 <= i < |s| ==> r[i] == s[|s| - 1 - i]
  {
    if s == [] then [] else [s[|s| - 1]] + Reverse(s[..|s| - 1])
  }

  /** The pulses of sendRaw: even positions are marks, odd ones spaces. */
  function RawPulses(buf: seq<u16>): (p: seq<IrEvent>)
    ensures |p| == |buf|
  {
    if buf == [] then []
    else
      var k := |buf| - 1;
      RawPulses(buf[..k]) + [if k % 2 == 1 then Space(buf[k]) else Mark(buf[k])]
  }

  // ---------------------------------------------------------------------
  // Frames: what each send routine puts on the log

  function SonyFrame(fv: u8, dv: u8, data: nat, nbits: nat): seq<IrEvent>
  {
    [Carrier(fv, dv), Mark(SONY_HDR_MARK), Space(SONY_HDR_SPACE)] + Pulses(Sony, Bits(data, nbits))
  }

  function Sony64Frame(fv: u8, dv: u8, bytes: seq<u8>): seq<IrEvent>
  {
    [Carrier(fv, dv), Mark(SONY_HDR_MARK), Space(SONY_HDR_SPACE)] + Pulses(Sony, BytesBits(bytes))
  }

  function NecFrame(fv: u8, dv: u8, data: nat, nbits: int): seq<IrEvent>
  {
    [Carrier(fv, dv), Mark(NEC_HDR_MARK), Space(NEC_HDR_SPACE)]
      + Pulses(Nec, NecBits(data, nbits)) + [Mark(NEC_BIT_MARK), Space(0)]
  }

  function Rc5Frame(fv: u8, dv: u8, data: nat, nbits: nat): seq<IrEvent>
  {
    [Carrier(fv, dv), Mark(RC5_T1), Space(RC5_T1), Mark(RC5_T1)]
      + Pulses(Rc5, Bits(data, nbits)) + [Space(0)]
  }

  function Rc6Frame(fv: u8, dv: u8, data: nat, nbits: nat): seq<IrEvent>
  {
    [Carrier(fv, dv), Mark(RC6_HDR_MARK), Space(RC6_HDR_SPACE), Mark(RC6_T1), Space(RC6_T1)]
      + Pulses(Rc6, Bits(data, nbits)) + [Space(0)]
  }

  function TxByteFrame(fv: u8, dv: u8, val: u8): seq<IrEvent>
  {
    [Carrier(fv, dv), Mark(DATA_HDR_MARK), Space(DATA_HDR_SPACE)]
      + Pulses(TxData, Reverse(Bits(val, 8)))
  }

  function RawFrame(fv: u8, dv: u8, buf: seq<u16>): seq<IrEvent>
  {
    [Carrier(fv, dv)] + RawPulses(buf) + [Space(0)]
  }

  // ---------------------------------------------------------------------
  // Loop steps of the send routines

  /** Sending bit i of b extends the pulses of its first i bits. */
  lemma AppendBit(c: Coding, b: seq<bool>, i: nat, prev: seq<IrEvent>, hdr: seq<IrEvent>)
    requires i < |b| && prev == hdr + Pulses(c, b[..i])
    ensures prev + BitPulses(c, i, b[i]) == hdr + Pulses(c, b[..i + 1])
  {
    assert b[..i + 1] == b[..i] + [b[i]];
    PulsesSnoc(c, b[..i], b[i]);
  }

  /** A byte loaded into the 8-bit register of sendSonyData64bit. */
  lemma LoadByte(dat: u8)
    ensures dat == Val(Bits(dat, 8)[0..] + Zeros(0))
  {
    Pow2Byte();
    RegLoad(dat, 8);
  }

  lemma AppendByte(init: seq<u8>, last: u8, prev: seq<IrEvent>, hdr: seq<IrEvent>)
    requires prev == hdr + Pulses(Sony, BytesBits(init))
    ensures prev + Pulses(Sony, Bits(last, 8)) == hdr + Pulses(Sony, BytesBits(init + [last]))
  {
    var bytes := init + [last];
    assert bytes[..|bytes| - 1] == init;
    AppendBits(Sony, BytesBits(init), Bits(last, 8), prev, hdr);
  }

  lemma AppendBits(c: Coding, a: seq<bool>, b: seq<bool>, prev: seq<IrEvent>, hdr: seq<IrEvent>)
    requires c != Rc6 && prev == hdr + Pulses(c, a)
    ensures prev + Pulses(c, b) == hdr + Pulses(c, a + b)
  {
    PulsesAppend(c, a, b);
  }

  /** sendNEC's register after i shifts is `data << i`; its top bit is the i-th bit sent. */
  lemma NecStep(data: u32, i: nat, d: nat)
    requires d == (data * Pow2(i)) % 0x1_0000_0000
    ensures (d >= 0x8000_0000) == NecBit(data, i)
    ensures (d * 2) % 0x1_0000_0000 == (data * Pow2(i + 1)) % 0x1_0000_0000
  {
    NecTop(data, i);
    NecShift(data, i);
  }

  lemma NecTop(data: u32, i: nat)
    ensures ((data * Pow2(i)) % 0x1_0000_0000 >= 0x8000_0000) == NecBit(data, i)
  {
    Pow2Facts();
    if i < 32 {
      ShiftedTop(data, i, 32);
    } else {
      ShiftOut(data, i, 32);
    }
  }

  lemma NecShift(data: u32, i: nat)
    ensures (((data * Pow2(i)) % 0x1_0000_0000) * 2) % 0x1_0000_0000 == (data * Pow2(i + 1)) % 0x1_0000_0000
  {
    MulAssoc(data, Pow2(i), 2);
    ModDouble(data * Pow2(i), 0x1_0000_0000);
  }

  lemma AppendNecBit(data: u32, i: nat, prev: seq<IrEvent>, hdr: seq<IrEvent>)
    requires prev == hdr + Pulses(Nec, NecBits(data, i))
    ensures prev + BitPulses(Nec, i, NecBit(data, i)) == hdr + Pulses(Nec, NecBits(data, i + 1))
  {
    PulsesSnoc(Nec, NecBits(data, i), NecBit(data, i));
  }

  /** `data << (32 - nbits)` loads the low nbits of data into the top of the register. */
  lemma Load32(data: nat, nbits: nat)
    requires nbits <= 32
    ensures (data * Pow2(32 - nbits)) % 0x1_0000_0000 == Val(Bits(data, nbits)[0..] + Zeros(32 - nbits))
  {
    Pow2Facts();
    ShiftedValue(data, nbits, 32);
    assert Bits(data, nbits)[0..] == Bits(data, nbits);
  }

  /** One turn of a 32-bit send loop: the bit tested, and the register after `<<= 1`. */
  lemma Step32(b: seq<bool>, nbits: nat, i: nat, d: nat)
    requires i < |b| == nbits <= 32 && d == Val(b[i..] + Zeros(32 - nbits + i))
    ensures (d >= 0x8000_0000) == b[i]
    ensures (d * 2) % 0x1_0000_0000 == Val(b[i + 1..] + Zeros(32 - nbits + (i + 1)))
  {
    Pow2Facts();
    RegTop(b, 32 - nbits + i, i, 32);
    RegShl(b, 32 - nbits + i, i, 32);
  }

  /** One turn of the byte loop of sendSonyData64bit. */
  lemma Step8(b: seq<bool>, j: nat, d: nat)
    requires j < |b| == 8 && d == Val(b[j..] + Zeros(j))
    ensures (d >= 0x80) == b[j]
    ensures (d * 2) % 0x100 == Val(b[j + 1..] + Zeros(j + 1))
  {
    Pow2Facts();
    RegTop(b, j, j, 8);
    RegShl(b, j, j, 8);
  }

  // ---------------------------------------------------------------------
  // The send routines

  /** `IRsend_sendSony`: the low nbits of data, most significant first. */
  method SendSony(fv: u8, dv: u8, data: u32, nbits: u16) returns (pulses: seq<IrEvent>)
    requires nbits <= 32
    ensures pulses == SonyFrame(fv, dv, data, nbits)
  {
    pulses := [Carrier(fv, dv), Mark(SONY_HDR_MARK), Space(SONY_HDR_SPACE)];
    ghost var hdr := pulses;
    ghost var b := Bits(data, nbits);
    Load32(data, nbits);
    var d: u32 := (data * Pow2(32 - nbits)) % 0x1_0000_0000;  // data << (32 - nbits)
    var i := 0;
    while i < nbits
      invariant 0 <= i <= nbits
      invariant d == Val(b[i..] + Zeros(32 - nbits + i))
      invariant pulses == hdr + Pulses(Sony, b[..i])
    {
      Step32(b, nbits as nat, i as nat, d);
      ghost var prev := pulses;
      if d >= TOPBIT {
        pulses := pulses + [Mark(SONY_ONE_MARK), Space(SONY_HDR_SPACE)];
      } else {
        pulses := pulses + [Mark(SONY_ZERO_MARK), Space(SONY_HDR_SPACE)];
      }
      AppendBit(Sony, b, i, prev, hdr);
      d := (d * 2) % 0x1_0000_0000;
      i := i + 1;
    }
    assert b[..nbits] == b;
  }

  /** `IRsend_sendSonyData4`: the same loop with a fixed width of 32 bits. */
  method SendSonyData4(fv: u8, dv: u8, data: u32) returns (pulses: seq<IrEvent>)
    ensures pulses == SonyFrame(fv, dv, data, 32)
  {
    var nbits: u8 := 32;
    pulses := [Carrier(fv, dv), Mark(SONY_HDR_MARK), Space(SONY_HDR_SPACE)];
    ghost var hdr := pulses;
    ghost var b := Bits(data, nbits);
    Load32(data, nbits);
    var d: u32 := (data * Pow2(32 - nbits)) % 0x1_0000_0000;
    var i := 0;
    while i < nbits
      invariant 0 <= i <= nbits
      invariant d == Val(b[i..] + Zeros(32 - nbits + i))
      invariant pulses == hdr + Pulses(Sony, b[..i])
    {
      Step32(b, nbits as nat, i as nat, d);
      ghost var prev := pulses;
      if d >= TOPBIT {
        pulses := pulses + [Mark(SONY_ONE_MARK), Space(SONY_HDR_SPACE)];
      } else {
        pulses := pulses + [Mark(SONY_ZERO_MARK), Space(SONY_HDR_SPACE)];
      }
      AppendBit(Sony, b, i, prev, hdr);
      d := (d * 2) % 0x1_0000_0000;
      i := i + 1;
    }
    assert b[..nbits] == b;
  }

  /** `IRsend_sendSonyData64bit`: the 8 bytes of data in order, each MSB first. */
  method SendSonyData64bit(fv: u8, dv: u8, data: array<u8>) returns (pulses: seq<IrEvent>)
    requires data.Length >= 8
    ensures pulses == Sony64Frame(fv, dv, data[..8])
  {
    pulses := [Carrier(fv, dv), Mark(SONY_HDR_MARK), Space(SONY_HDR_SPACE)];
    ghost var hdr := pulses;
    var i := 0;
    while i < 8
      invariant 0 <= i <= 8
      invariant pulses == hdr + Pulses(Sony, BytesBits(data[..i]))
    {
      var dat: u8 := data[i];
      ghost var b := Bits(dat, 8);
      ghost var before := pulses;
      LoadByte(dat);
      var j := 0;
      while j < 8
        invariant 0 <= j <= 8
        invariant dat == Val(b[j..] + Zeros(j))
        invariant pulses == before + Pulses(Sony, b[..j])
      {
        Step8(b, j, dat);
        ghost var prev := pulses;
        if dat >= TOPBIT8 {
          pulses := pulses + [Mark(SONY_ONE_MARK), Space(SONY_HDR_SPACE)];
        } else {
          pulses := pulses + [Mark(SONY_ZERO_MARK), Space(SONY_HDR_SPACE)];
        }
        AppendBit(Sony, b, j, prev, before);
        dat := (dat * 2) % 0x100;
        j := j + 1;
      }
      assert b[..8] == b;
      assert data[..i + 1] == data[..i] + [data[i]];
      AppendByte(data[..i], data[i], before, hdr);
      i := i + 1;
    }
  }

  /** `IRsend_sendNEC`: tests bit 31 of an unshifted register for each of the nbits bits. */
  method SendNEC(fv: u8, dv: u8, data: u32, nbits: int) returns (pulses: seq<IrEvent>)
    ensures pulses == NecFrame(fv, dv, data, nbits)
  {
    pulses := [Carrier(fv, dv), Mark(NEC_HDR_MARK), Space(NEC_HDR_SPACE)];
    ghost var hdr := pulses;
    var d: u32 := data;
    var i := 0;
    while i < nbits
      invariant 0 <= i <= (if nbits < 0 then 0 else nbits)
      invariant d == (data * Pow2(i)) % 0x1_0000_0000
      invariant pulses == hdr + Pulses(Nec, NecBits(data, i))
    {
      NecStep(data, i, d);
      ghost var prev := pulses;
      if d >= TOPBIT {
        pulses := pulses + [Mark(NEC_BIT_MARK), Space(NEC_ONE_SPACE)];
      } else {
        pulses := pulses + [Mark(NEC_BIT_MARK), Space(NEC_ZERO_SPACE)];
      }
      AppendNecBit(data, i, prev, hdr);
      d := (d * 2) % 0x1_0000_0000;
      i := i + 1;
    }
    pulses := pulses + [Mark(NEC_BIT_MARK), Space(0)];
  }

  /** `IRsend_sendRC5`: three start pulses, then Manchester-coded bits. */
  method SendRC5(fv: u8, dv: u8, data: u32, nbits: int) returns (pulses: seq<IrEvent>)
    requires 0 <= nbits <= 32
    ensures pulses == Rc5Frame(fv, dv, data, nbits)
  {
    ghost var b := Bits(data, nbits);
    Load32(data, nbits);
    var d: u32 := (data * Pow2(32 - nbits)) % 0x1_0000_0000;  // data << (32 - nbits)
    pulses := [Carrier(fv, dv), Mark(RC5_T1), Space(RC5_T1), Mark(RC5_T1)];
    ghost var hdr := pulses;
    var i := 0;
    while i < nbits
      invariant 0 <= i <= nbits
      invariant d == Val(b[i..] + Zeros(32 - nbits + i))
      invariant pulses == hdr + Pulses(Rc5, b[..i])
    {
      Step32(b, nbits as nat, i as nat, d);
      ghost var prev := pulses;
      if d >= TOPBIT {
        pulses := pulses + [Space(RC5_T1), Mark(RC5_T1)];
      } else {
        pulses := pulses + [Mark(RC5_T1), Space(RC5_T1)];
      }
      AppendBit(Rc5, b, i, prev, hdr);
      d := (d * 2) % 0x1_0000_0000;
      i := i + 1;
    }
    assert b[..nbits] == b;
    pulses := pulses + [Space(0)];
  }

  /** `IRsend_sendRC6`: header, start bit, then bits with a double-width bit 3. */
  method SendRC6(fv: u8, dv: u8, data: u32, nbits: int) returns (pulses: seq<IrEvent>)
    requires 0 <= nbits <= 32
    ensures pulses == Rc6Frame(fv, dv, data, nbits)
  {
    ghost var b := Bits(data, nbits);
    Load32(data, nbits);
    var d: u32 := (data * Pow2(32 - nbits)) % 0x1_0000_0000;  // data << (32 - nbits)
    pulses := [Carrier(fv, dv), Mark(RC6_HDR_MARK), Space(RC6_HDR_SPACE), Mark(RC6_T1), Space(RC6_T1)];
    ghost var hdr := pulses;
    var i := 0;
    while i < nbits
      invariant 0 <= i <= nbits
      invariant d == Val(b[i..] + Zeros(32 - nbits + i))
      invariant pulses == hdr + Pulses(Rc6, b[..i])
    {
      Step32(b, nbits as nat, i as nat, d);
      ghost var prev := pulses;
      var t: u16;
      if i == 3 {
        t := 2 * RC6_T1;
      } else {
        t := RC6_T1;
      }
      if d >= TOPBIT {
        pulses := pulses + [Mark(t), Space(t)];
      } else {
        pulses := pulses + [Space(t), Mark(t)];
      }
      AppendBit(Rc6, b, i, prev, hdr);
      d := (d * 2) % 0x1_0000_0000;
      i := i + 1;
    }
    assert b[..nbits] == b;
    pulses := pulses + [Space(0)];
  }

  /** `IRsend_txByte`: header, then the 8 bits of val least significant first. */
  method TxByte(fv: u8, dv: u8, val: u8) returns (pulses: seq<IrEvent>)
    ensures pulses == TxByteFrame(fv, dv, val)
  {
    pulses := [Carrier(fv, dv), Mark(DATA_HDR_MARK), Space(DATA_HDR_SPACE)];
    ghost var hdr := pulses;
    ghost var b := Reverse(Bits(val, 8));
    var whichBit := 0;
    while whichBit < 8
      invariant 0 <= whichBit <= 8
      invariant pulses == hdr + Pulses(TxData, b[..whichBit])
    {
      // temp = 1 << whichBit; val & temp is zero exactly when that bit of val is clear
      var temp := Pow2(whichBit);
      BitsAt(val, 8, whichBit);
      ghost var prev := pulses;
      if (val / temp) % 2 == 0 {
        pulses := pulses + [Mark(DATA_ZERO_MARK), Space(DATA_ZERO_SPACE)];
      } else {
        pulses := pulses + [Mark(DATA_ONE_MARK), Space(DATA_ONE_SPACE)];
      }
      AppendBit(TxData, b, whichBit, prev, hdr);
      whichBit := whichBit + 1;
    }
    assert b[..8] == b;
  }

  /** `IRsend_sendRaw`: the first len durations of buf as alternating marks and spaces. */
  method SendRaw(fv: u8, dv: u8, buf: array<u16>, len: int) returns (pulses: seq<IrEvent>)
    requires len <= buf.Length
    ensures pulses == RawFrame(fv, dv, if len <= 0 then [] else buf[..len])
  {
    pulses := [Carrier(fv, dv)];
    var i := 0;
    while i < len
      invariant 0 <= i <= (if len < 0 then 0 else len)
      invariant pulses == [Carrier(fv, dv)] + RawPulses(buf[..i])
    {
      assert buf[..i + 1][..i] == buf[..i];
      if i % 2 == 1 {
        pulses := pulses + [Space(buf[i])];
      } else {
        pulses := pulses + [Mark(buf[i])];
      }
      i := i + 1;
    }
    if len <= 0 {
      assert buf[..i] == [];
    }
    pulses := pulses + [Space(0)];
  }
}
