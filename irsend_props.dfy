/**
 * What a receiver sees of the IR frames: each line code is decodable, so the
 * pulse train of every send routine carries exactly the bits (and through
 * them the value) that the routine was asked to send.
 */
module IRSendProps {
  import opened MachineInts
  import opened IRSend

  // ---------------------------------------------------------------------
  // A reference decoder

  /** The bit a receiver reads from the two pulses of one bit cell. */
  function DecodeBit(c: Coding, first: IrEvent, second: IrEvent): bool
  {
    match c
    case Sony => first == Mark(SONY_ONE_MARK)       // pulse-width code: a long mark is a one
    case Nec => second == Space(NEC_ONE_SPACE)      // pulse-distance code: a long space is a one
    case Rc5 => first.Space?                        // Manchester: space then mark is a one
    case Rc6 => first.Mark?                         // Manchester, opposite phase
    case TxData => first == Mark(DATA_ONE_MARK)
  }

  /** Decodes a train of bit cells, two pulses each. */
  function DecodePulses(c: Coding, p: seq<IrEvent>): (bs: seq<bool>)
    ensures |bs| == |p| / 2
  {
    if |p| < 2 then [] else DecodePulses(c, p[..|p| - 2]) + [DecodeBit(c, p[|p| - 2], p[|p| - 1])]
  }

  lemma DecodeBitPulses(c: Coding, i: nat, b: bool)
    ensures DecodeBit(c, BitPulses(c, i, b)[0], BitPulses(c, i, b)[1]) == b
  {
  }

  lemma DecodeSnoc(c: Coding, p: seq<IrEvent>, cell: seq<IrEvent>)
    requires |cell| == 2
    ensures DecodePulses(c, p + cell) == DecodePulses(c, p) + [DecodeBit(c, cell[0], cell[1])]
  {
    var q := p + cell;
    assert q[..|q| - 2] == p;
    assert q[|q| - 2] == cell[0] && q[|q| - 1] == cell[1];
  }

  lemma SplitLast<T>(s: seq<T>)
    requires |s| > 0
    ensures s == s[..|s| - 1] + [s[|s| - 1]]
  {
  }

  /** Decoding inverts every line code. */
  lemma {:induction false} DecodePulsesInverse(c: Coding, bs: seq<bool>)
    ensures DecodePulses(c, Pulses(c, bs)) == bs
  {
    if bs != [] {
      var init, last := bs[..|bs| - 1], bs[|bs| - 1];
      SplitLast(bs);
      var cell := BitPulses(c, |bs| - 1, last);
      assert Pulses(c, bs) == Pulses(c, init) + cell;
      DecodeSnoc(c, Pulses(c, init), cell);
      DecodePulsesInverse(c, init);
      DecodeBitPulses(c, |bs| - 1, last);
    }
  }

  /** Bit cell k of a train holds the pulses of bit k. */
  lemma {:induction false} PulsesAt(c: Coding, bs: seq<bool>, k: nat)
    requires k < |bs|
    ensures Pulses(c, bs)[2 * k] == BitPulses(c, k, bs[k])[0]
    ensures Pulses(c, bs)[2 * k + 1] == BitPulses(c, k, bs[k])[1]
  {
    var init := bs[..|bs| - 1];
    if k < |bs| - 1 {
      PulsesAt(c, init, k);
    }
  }

  lemma {:induction false} ReverseReverse<T>(s: seq<T>)
    ensures Reverse(Reverse(s)) == s
  {
    var r := Reverse(Reverse(s));
    assert forall i | 0 <= i < |s| :: r[i] == s[i];
  }

  // ---------------------------------------------------------------------
  // Frames

  /** A Sony frame is the header and then the low nbits of data, most significant first. */
  lemma SonyFrameCarries(fv: u8, dv: u8, data: nat, nbits: nat)
    ensures var f := SonyFrame(fv, dv, data, nbits);
      && |f| == 3 + 2 * nbits
      && f[..3] == [Carrier(fv, dv), Mark(SONY_HDR_MARK), Space(SONY_HDR_SPACE)]
      && DecodePulses(Sony, f[3..]) == Bits(data, nbits)
      && Val(DecodePulses(Sony, f[3..])) == data % Pow2(nbits)
  {
    var f := SonyFrame(fv, dv, data, nbits);
    assert f[3..] == Pulses(Sony, Bits(data, nbits));
    DecodePulsesInverse(Sony, Bits(data, nbits));
    ValBits(data, nbits);
  }

  /** The 12-bit Sony command the firmware sends names its value exactly when it fits. */
  lemma SonyTwelveBits(fv: u8, dv: u8, data: nat)
    requires data < 0x1000
    ensures var f := SonyFrame(fv, dv, data, SONY_BITS as nat);
      |f| == 27 && Val(DecodePulses(Sony, f[3..])) == data
  {
    SonyFrameCarries(fv, dv, data, 12);
    Pow2Add(4, 8);
    Pow2Byte();
    DivModUnique(data, Pow2(12), 0, data);
  }

  /** Bytes read back from a bit string, eight bits each, most significant first. */
  function BitsBytes(bs: seq<bool>): (bytes: seq<u8>)
    requires |bs| % 8 == 0
    ensures |bytes| == |bs| / 8
  {
    if bs == [] then []
    else
      var last := bs[|bs| - 8..];
      ValBound(last);
      Pow2Byte();
      BitsBytes(bs[..|bs| - 8]) + [Val(last)]
  }

  lemma ByteValue(b: u8)
    ensures Val(Bits(b, 8)) == b
  {
    ValBits(b, 8);
    Pow2Byte();
    DivModUnique(b, Pow2(8), 0, b);
  }

  lemma {:induction false} BitsBytesInverse(bytes: seq<u8>)
    ensures BitsBytes(BytesBits(bytes)) == bytes
  {
    if bytes != [] {
      var init, last := bytes[..|bytes| - 1], bytes[|bytes| - 1];
      BitsBytesSnoc(BytesBits(init), Bits(last, 8));
      BitsBytesInverse(init);
      ByteValue(last);
      assert bytes == init + [last];
    }
  }

  /** Reading back one more byte's worth of bits adds one byte at the end. */
  lemma BitsBytesSnoc(init: seq<bool>, byte: seq<bool>)
    requires |init| % 8 == 0 && |byte| == 8
    ensures BitsBytes(init + byte) == BitsBytes(init) + [Val(byte)]
  {
    var bs := init + byte;
    assert bs[..|bs| - 8] == init;
    assert bs[|bs| - 8..] == byte;
  }

  /** sendSonyData64bit's frame carries its eight bytes in order. */
  lemma Sony64FrameCarries(fv: u8, dv: u8, bytes: seq<u8>)
    ensures var f := Sony64Frame(fv, dv, bytes);
      && |f| == 3 + 16 * |bytes|
      && BitsBytes(DecodePulses(Sony, f[3..])) == bytes
  {
    var f := Sony64Frame(fv, dv, bytes);
    assert f[3..] == Pulses(Sony, BytesBits(bytes));
    DecodePulsesInverse(Sony, BytesBits(bytes));
    BitsBytesInverse(bytes);
  }

  /** Bit j of byte i in the datagram's bit string is bit 7 - j of that byte: most significant first. */
  lemma {:induction false} BytesBitsAt(bytes: seq<u8>, i: nat, j: nat)
    requires i < |bytes| && j < 8
    ensures BytesBits(bytes)[8 * i + j] == ((bytes[i] / Pow2(7 - j)) % 2 == 1)
  {
    var init, last := bytes[..|bytes| - 1], bytes[|bytes| - 1];
    if i == |bytes| - 1 {
      BitsAt(last, 8, 7 - j);
      assert BytesBits(bytes)[8 * i + j] == Bits(last, 8)[j];
    } else {
      BytesBitsAt(init, i, j);
      assert BytesBits(bytes)[8 * i + j] == BytesBits(init)[8 * i + j];
    }
  }

  /**
   * The events of sendSonyData64bit: the carrier set-up and the header, then
   * for bit j of byte i a long mark for a one or a short mark for a zero,
   * each followed by the header space; the last event is that space, not a
   * zero-length closing space.
   */
  lemma Sony64Pulses(fv: u8, dv: u8, bytes: seq<u8>, i: nat, j: nat)
    requires i < |bytes| && j < 8
    ensures var f := Sony64Frame(fv, dv, bytes);
      var one := (bytes[i] / Pow2(7 - j)) % 2 == 1;
      && |f| == 3 + 16 * |bytes|
      && f[..3] == [Carrier(fv, dv), Mark(SONY_HDR_MARK), Space(SONY_HDR_SPACE)]
      && f[3 + 2 * (8 * i + j)] == Mark(if one then SONY_ONE_MARK else SONY_ZERO_MARK)
      && f[4 + 2 * (8 * i + j)] == Space(SONY_HDR_SPACE)
      && f[|f| - 1] == Space(SONY_HDR_SPACE)
  {
    var bs := BytesBits(bytes);
    var k := 8 * i + j;
    BytesBitsAt(bytes, i, j);
    PulsesAt(Sony, bs, k);
    PulsesAt(Sony, bs, |bs| - 1);
    var f := Sony64Frame(fv, dv, bytes);
    assert f[3 + 2 * k] == Pulses(Sony, bs)[2 * k];
    assert f[4 + 2 * k] == Pulses(Sony, bs)[2 * k + 1];
    assert f[|f| - 1] == Pulses(Sony, bs)[2 * (|bs| - 1) + 1];
  }

  /** sendSony ends on the space of its last bit, with no zero-length closing space. */
  lemma SonyFrameEnds(fv: u8, dv: u8, data: nat, nbits: nat)
    requires nbits >= 1
    ensures var f := SonyFrame(fv, dv, data, nbits);
      f[|f| - 1] == Space(SONY_HDR_SPACE)
  {
    var bs := Bits(data, nbits);
    PulsesAt(Sony, bs, nbits - 1);
    var f := SonyFrame(fv, dv, data, nbits);
    assert f[|f| - 1] == Pulses(Sony, bs)[2 * (nbits - 1) + 1];
  }

  /** Bit k that sendNEC sends is bit 31 - k of data, for the first 32 bits. */
  lemma {:induction false} NecBitsAt(data: nat, n: int, k: nat)
    requires k < n
    ensures NecBits(data, n)[k] == NecBit(data, k)
    decreases n
  {
    if k < n - 1 {
      NecBitsAt(data, n - 1, k);
    }
  }

  /** sendNEC's first 32 bits are the 32 bits of data; any further ones are clear. */
  lemma NecBitsWord(data: nat, n: int, w: nat)
    requires w == 32 && n >= w
    ensures NecBits(data, n)[..w] == Bits(data, w)
    ensures forall k :: w <= k < n ==> !NecBits(data, n)[k]
  {
    forall k | 0 <= k < w
      ensures NecBits(data, n)[k] == Bits(data, w)[k]
    {
      NecBitsAt(data, n, k);
      BitsAt(data, w, w - 1 - k);
    }
    forall k | w <= k < n
      ensures !NecBits(data, n)[k]
    {
      NecBitsAt(data, n, k);
    }
  }

  /** A 32-bit NEC frame: header, the 32 bits of data, and a closing mark. */
  lemma NecFrameCarries(fv: u8, dv: u8, data: u32)
    ensures var f := NecFrame(fv, dv, data, 32);
      && |f| == 69
      && f[..3] == [Carrier(fv, dv), Mark(NEC_HDR_MARK), Space(NEC_HDR_SPACE)]
      && Val(DecodePulses(Nec, f[3..67])) == data
      && f[67..] == [Mark(NEC_BIT_MARK), Space(0)]
  {
    var f := NecFrame(fv, dv, data, 32);
    var bs := NecBits(data, 32);
    assert f[3..67] == Pulses(Nec, bs);
    DecodePulsesInverse(Nec, bs);
    NecWord(data, 32);
  }

  lemma NecWord(data: u32, w: nat)
    requires w == 32
    ensures Val(NecBits(data, w)) == data
  {
    NecBitsWord(data, w, w);
    assert NecBits(data, w) == NecBits(data, w)[..w];
    Pow2Facts();
    RegLoad(data, w);
    assert Bits(data, w)[0..] + Zeros(0) == Bits(data, w);
  }

  /** An RC5 frame: three start pulses, the low nbits of data, a closing space. */
  lemma Rc5FrameCarries(fv: u8, dv: u8, data: nat, nbits: nat)
    ensures var f := Rc5Frame(fv, dv, data, nbits);
      && |f| == 5 + 2 * nbits
      && f[..4] == [Carrier(fv, dv), Mark(RC5_T1), Space(RC5_T1), Mark(RC5_T1)]
      && Val(DecodePulses(Rc5, f[4..|f| - 1])) == data % Pow2(nbits)
      && f[|f| - 1] == Space(0)
  {
    var f := Rc5Frame(fv, dv, data, nbits);
    assert f[4..|f| - 1] == Pulses(Rc5, Bits(data, nbits));
    DecodePulsesInverse(Rc5, Bits(data, nbits));
    ValBits(data, nbits);
  }

  /** An RC6 frame: header and start bit, the low nbits of data, a closing space. */
  lemma Rc6FrameCarries(fv: u8, dv: u8, data: nat, nbits: nat)
    ensures var f := Rc6Frame(fv, dv, data, nbits);
      && |f| == 6 + 2 * nbits
      && f[..5] == [Carrier(fv, dv), Mark(RC6_HDR_MARK), Space(RC6_HDR_SPACE), Mark(RC6_T1), Space(RC6_T1)]
      && Val(DecodePulses(Rc6, f[5..|f| - 1])) == data % Pow2(nbits)
      && f[|f| - 1] == Space(0)
  {
    var f := Rc6Frame(fv, dv, data, nbits);
    assert f[5..|f| - 1] == Pulses(Rc6, Bits(data, nbits));
    DecodePulsesInverse(Rc6, Bits(data, nbits));
    ValBits(data, nbits);
  }

  /** In RC6 the trailer bit (bit 3) lasts twice as long as every other bit. */
  lemma Rc6Widths(fv: u8, dv: u8, data: nat, nbits: nat, k: nat)
    requires k < nbits
    ensures var f := Rc6Frame(fv, dv, data, nbits);
      var t := if k == 3 then 2 * RC6_T1 else RC6_T1;
      var b := Bits(data, nbits)[k];
      f[5 + 2 * k] == (if b then Mark(t) else Space(t))
      && f[6 + 2 * k] == (if b then Space(t) else Mark(t))
  {
    var bs := Bits(data, nbits);
    PulsesAt(Rc6, bs, k);
    var f := Rc6Frame(fv, dv, data, nbits);
    assert f[5 + 2 * k] == Pulses(Rc6, bs)[2 * k];
    assert f[6 + 2 * k] == Pulses(Rc6, bs)[2 * k + 1];
  }

  /** txByte sends val least significant bit first. */
  lemma TxByteFrameCarries(fv: u8, dv: u8, val: u8)
    ensures var f := TxByteFrame(fv, dv, val);
      && |f| == 19
      && f[..3] == [Carrier(fv, dv), Mark(DATA_HDR_MARK), Space(DATA_HDR_SPACE)]
      && (forall k :: 0 <= k < 8 ==> DecodePulses(TxData, f[3..])[k] == ((val / Pow2(k)) % 2 == 1))
      && Val(Reverse(DecodePulses(TxData, f[3..]))) == val
  {
    var f := TxByteFrame(fv, dv, val);
    var bs := Reverse(Bits(val, 8));
    assert f[3..] == Pulses(TxData, bs);
    DecodePulsesInverse(TxData, bs);
    forall k | 0 <= k < 8
      ensures bs[k] == ((val / Pow2(k)) % 2 == 1)
    {
      BitsAt(val, 8, k);
    }
    ReverseReverse(Bits(val, 8));
    ByteValue(val);
  }

  /** sendRaw alternates marks and spaces, starting with a mark, with buf's durations. */
  lemma {:induction false} RawPulsesAt(buf: seq<u16>, k: nat)
    requires k < |buf|
    ensures RawPulses(buf)[k] == if k % 2 == 0 then Mark(buf[k]) else Space(buf[k])
  {
    var init := buf[..|buf| - 1];
    if k < |buf| - 1 {
      RawPulsesAt(init, k);
    }
  }

  lemma RawFrameCarries(fv: u8, dv: u8, buf: seq<u16>)
    ensures var f := RawFrame(fv, dv, buf);
      && |f| == |buf| + 2
      && f[0] == Carrier(fv, dv) && f[|f| - 1] == Space(0)
      && forall k :: 0 <= k < |buf| ==> f[k + 1] == if k % 2 == 0 then Mark(buf[k]) else Space(buf[k])
  {
    forall k | 0 <= k < |buf|
      ensures RawFrame(fv, dv, buf)[k + 1] == if k % 2 == 0 then Mark(buf[k]) else Space(buf[k])
    {
      RawPulsesAt(buf, k);
    }
  }

  /** A 38 kHz carrier needs a timer top value of 209. */
  lemma Carrier38k()
    ensures FreqToTimer1Val(38000) == 209
  {
  }
}
