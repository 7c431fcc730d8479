/**
 * Properties of the CtrlM command engine: what each command puts on the IR
 * log, how the script interpreter moves through a script, and how the bus
 * front end consumes and answers its commands.
 */
module CtrlMProps {
  import opened MachineInts
  import opened IRSend
  import opened IRSendProps
  import opened Opcodes
  import opened NonVol
  import opened CtrlM

  // ---------------------------------------------------------------------
  // Datagrams and their checksum

  /** An eight-byte datagram whose last byte is the checksum of the first seven. */
  predicate Sealed(buf: seq<u8>)
  {
    |buf| == 8 && buf[7] == Checksum(buf[..7])
  }

  /** Changing one byte changes the sum by the difference of the two values. */
  lemma {:induction false} SumUpdate(s: seq<u8>, k: nat, v: u8)
    requires k < |s|
    ensures Sum(s[k := v]) == Sum(s) - s[k] + v
    decreases |s|
  {
    var t := s[k := v];
    var n := |s| - 1;
    if k == n {
      assert t[..n] == s[..n];
    } else {
      assert t[..n] == s[..n][k := v];
      SumUpdate(s[..n], k, v);
    }
  }

  lemma ModShift(x: int, d: int)
    requires 0 < d < 0x100 || -0x100 < d < 0
    ensures (x + d) % 0x100 != x % 0x100
  {
  }

  /** compute_checksum notices any single changed byte. */
  lemma ChecksumDetectsOneByte(s: seq<u8>, k: nat, v: u8)
    requires k < |s| && v != s[k]
    ensures Checksum(s[k := v]) != Checksum(s)
  {
    SumUpdate(s, k, v);
    ModShift(Sum(s), v - s[k]);
  }

  /** A sealed datagram with any one byte changed, the checksum included, is no longer sealed. */
  lemma SealedDetectsCorruption(buf: seq<u8>, k: nat, v: u8)
    requires Sealed(buf) && k < 8 && v != buf[k]
    ensures !Sealed(buf[k := v])
  {
    var c := buf[k := v];
    if k < 7 {
      assert c[..7] == buf[..7][k := v];
      ChecksumDetectsOneByte(buf[..7], k, v);
    } else {
      assert c[..7] == buf[..7];
    }
  }

  /**
   * Sending a datagram: cmdargs ends up holding it with its checksum, the IR
   * log grows by the 131 events of one 64-bit frame, a receiver decodes the
   * eight bytes from it, and nothing else changes.
   */
  lemma DatagramSent(m: Machine, d: seq<u8>)
    requires Valid(m) && |d| == 7
    ensures var r := SendDatagram(m, d);
      && r.cmdargs == d + [Checksum(d)] && Sealed(r.cmdargs)
      && r.irLog == m.irLog + Sony64Frame(m.irFreqval, m.irDutyval, r.cmdargs)
      && |r.irLog| == |m.irLog| + 131
      && BitsBytes(DecodePulses(Sony, r.irLog[|m.irLog| + 3..])) == r.cmdargs
      && r == m.(cmdargs := r.cmdargs, irLog := r.irLog)
  {
    var r := SendDatagram(m, d);
    var buf := d + [Checksum(d)];
    assert (d + m.cmdargs[7..])[..7] == d;
    assert r.cmdargs == buf;
    assert buf[..7] == d;
    Sony64FrameCarries(m.irFreqval, m.irDutyval, buf);
    var f := Sony64Frame(m.irFreqval, m.irDutyval, buf);
    assert r.irLog[|m.irLog| + 3..] == f[3..];
  }

  /**
   * The default arm of handle_script_cmd: the command and its three arguments,
   * shifted up behind the start byte and the two addresses, go out with their
   * checksum; no argument is lost, and any pending wait is cancelled.
   */
  lemma PassthroughSent(m: Machine, stray: u8)
    requires Dispatchable(m) && !IsSettingCmd(m.cmd) && !IsFlowCmd(m.cmd)
    requires m.cmd != STOP_ALL && m.cmd != PLAY_COLORSPOT
    ensures var r := ScriptCmd(m, stray);
      var a := m.cmdargs;
      var d := [START_BYTE, m.freemAddr, m.blinkmAddr, m.cmd, a[0], a[1], a[2]];
      && r.cmdargs == d + [Checksum(d)]
      && r.irLog == m.irLog + Sony64Frame(m.irFreqval, m.irDutyval, r.cmdargs)
      && r == m.(cmdargs := r.cmdargs, irLog := r.irLog, waitTick := 0)
  {
    DatagramSent(m, PassthroughDatagram(m));
  }

  /** '*': the play-colorspot datagram carries cmdargs[0..4), the fourth byte whatever it held. */
  lemma PlayColorspotSent(m: Machine, stray: u8)
    requires Valid(m) && m.cmd == PLAY_COLORSPOT
    ensures var r := ScriptCmd(m, stray);
      var a := m.cmdargs;
      var d := [START_BYTE, m.freemAddr, COLORSPOT_PLAY, a[0], a[1], a[2], a[3]];
      && r.cmdargs == d + [Checksum(d)]
      && r.irLog == m.irLog + Sony64Frame(m.irFreqval, m.irDutyval, r.cmdargs)
      && r == m.(cmdargs := r.cmdargs, irLog := r.irLog, waitTick := 0)
  {
    DatagramSent(m, ColorspotDatagram(m, COLORSPOT_PLAY));
  }

  /**
   * 'O' stops the script and any wait, then still sends the play-colorspot
   * datagram; afterwards handle_script does nothing.
   */
  lemma StopAllSent(m: Machine, stray: u8, stray': u8)
    requires Valid(m) && m.cmd == STOP_ALL
    ensures var r := ScriptCmd(m, stray);
      var a := m.cmdargs;
      var d := [START_BYTE, m.freemAddr, COLORSPOT_PLAY, a[0], a[1], a[2], a[3]];
      && r.cmdargs == d + [Checksum(d)]
      && r.irLog == m.irLog + Sony64Frame(m.irFreqval, m.irDutyval, r.cmdargs)
      && r == m.(cmdargs := r.cmdargs, irLog := r.irLog, waitTick := 0, currScriptLen := 0)
      && HandleScript(r, stray') == r
  {
    DatagramSent(StopAll(m), ColorspotDatagram(StopAll(m), COLORSPOT_PLAY));
  }

  /** Bus '^': the four bytes after the command go out behind the set-colorspot selector. */
  lemma SetColorspotSent(m: Machine, stray: u8)
    requires BusReady(m) && |m.rx| > 0 && m.rx[0] == SET_COLORSPOT
    ensures var r := HandleI2c(m, stray);
      var x := m.rx;
      var d := [START_BYTE, m.freemAddr, COLORSPOT_SET, x[1], x[2], x[3], x[4]];
      && r.cmdargs == d + [Checksum(d)]
      && r.irLog == m.irLog + Sony64Frame(m.irFreqval, m.irDutyval, r.cmdargs)
      && r == m.(cmd := SET_COLORSPOT, cmdargs := r.cmdargs, irLog := r.irLog, rx := x[5..])
  {
    var m1 := ReadVals(TakeCmd(m), 4);
    assert m1.cmdargs[..4] == m.rx[1..5];
    DatagramSent(m1, ColorspotDatagram(m1, COLORSPOT_SET));
  }

  /** Bus '!': the eight bytes go out as they came, with no checksum computed. */
  lemma RawSentVerbatim(m: Machine, stray: u8)
    requires BusReady(m) && |m.rx| > 0 && m.rx[0] == SEND_RAW8
    ensures var r := HandleI2c(m, stray);
      && r.cmdargs == m.rx[1..9]
      && r.irLog == m.irLog + Sony64Frame(m.irFreqval, m.irDutyval, m.rx[1..9])
      && BitsBytes(DecodePulses(Sony, r.irLog[|m.irLog| + 3..])) == m.rx[1..9]
      && r == m.(cmd := SEND_RAW8, cmdargs := r.cmdargs, irLog := r.irLog, rx := m.rx[9..])
  {
    var r := HandleI2c(m, stray);
    assert r.cmdargs == m.rx[1..9];
    Sony64FrameCarries(m.irFreqval, m.irDutyval, m.rx[1..9]);
    assert r.irLog[|m.irLog| + 3..] == Sony64Frame(m.irFreqval, m.irDutyval, m.rx[1..9])[3..];
  }

  /**
   * Bus 'f' and 't' dispatch twice: once on the argument just read, then,
   * falling into the 'o' arm, on the buffer the first dispatch rewrote.
   */
  lemma FadeSpeedSentTwice(m: Machine, stray: u8)
    requires BusReady(m) && |m.rx| > 0 && m.rx[0] in {FADE_SPEED, TIME_ADJ}
    ensures var r := HandleI2c(m, stray);
      var c, a := m.rx[0], m.cmdargs;
      var d1 := [START_BYTE, m.freemAddr, m.blinkmAddr, c, m.rx[1], a[1], a[2]];
      var d2 := [START_BYTE, m.freemAddr, m.blinkmAddr, c, START_BYTE, m.freemAddr, m.blinkmAddr];
      && r.irLog == m.irLog + Sony64Frame(m.irFreqval, m.irDutyval, d1 + [Checksum(d1)])
                            + Sony64Frame(m.irFreqval, m.irDutyval, d2 + [Checksum(d2)])
      && r.cmdargs == d2 + [Checksum(d2)]
      && r == m.(cmd := c, cmdargs := r.cmdargs, irLog := r.irLog, waitTick := 0, rx := m.rx[2..])
  {
    var m1 := ReadVals(TakeCmd(m), 1);
    FadeSpeedArm(m, stray);
    var a := m1.cmdargs;
    assert a[0] == m.rx[1] && a[1] == m.cmdargs[1] && a[2] == m.cmdargs[2];
    assert m1 == m.(cmd := m.rx[0], cmdargs := a, rx := m.rx[2..]);
    DispatchTwice(m1, stray);
  }

  /** Bus 'f' and 't' read one byte and fall into the 'o' arm. */
  lemma FadeSpeedArm(m: Machine, stray: u8)
    requires BusReady(m) && |m.rx| > 0 && m.rx[0] in {FADE_SPEED, TIME_ADJ}
    ensures var m1 := ReadVals(TakeCmd(m), 1);
      HandleI2c(m, stray) == ScriptCmd(ScriptCmd(m1, stray), stray)
  {
    ReplyArm(m, stray);
    FadeSpeedReply(TakeCmd(m), stray);
  }

  lemma FadeSpeedReply(m: Machine, stray: u8)
    requires Valid(m) && |m.rx| >= 1 && m.cmd in {FADE_SPEED, TIME_ADJ}
    ensures I2cReply(m, stray) == ScriptCmd(ScriptCmd(ReadVals(m, 1), stray), stray)
  {
  }

  /** The commands with no arm of their own in handle_i2c go to the reply arms. */
  lemma ReplyArm(m: Machine, stray: u8)
    requires BusReady(m) && |m.rx| > 0
    requires !ForwardsThree(m.rx[0]) && m.rx[0] !in {SEND_SONY, SEND_RAW8, SET_COLORSPOT}
    ensures HandleI2c(m, stray) == I2cReply(TakeCmd(m), stray)
  {
  }

  lemma DispatchTwice(m: Machine, stray: u8)
    requires Valid(m) && m.cmd in {FADE_SPEED, TIME_ADJ}
    ensures var r := ScriptCmd(ScriptCmd(m, stray), stray);
      var a := m.cmdargs;
      var d1 := [START_BYTE, m.freemAddr, m.blinkmAddr, m.cmd, a[0], a[1], a[2]];
      var d2 := [START_BYTE, m.freemAddr, m.blinkmAddr, m.cmd, START_BYTE, m.freemAddr, m.blinkmAddr];
      && r.irLog == m.irLog + Sony64Frame(m.irFreqval, m.irDutyval, d1 + [Checksum(d1)])
                            + Sony64Frame(m.irFreqval, m.irDutyval, d2 + [Checksum(d2)])
      && r.cmdargs == d2 + [Checksum(d2)]
      && r == m.(cmdargs := r.cmdargs, irLog := r.irLog, waitTick := 0)
  {
    PassthroughSent(m, stray);
    PassthroughSent(ScriptCmd(m, stray), stray);
  }

  /** Bus 'o' reads no arguments: it dispatches whatever cmdargs held. */
  lemma StopScriptStale(m: Machine, stray: u8)
    requires BusReady(m) && |m.rx| > 0 && m.rx[0] == STOP_SCRIPT
    ensures var r := HandleI2c(m, stray);
      var a := m.cmdargs;
      var d := [START_BYTE, m.freemAddr, m.blinkmAddr, STOP_SCRIPT, a[0], a[1], a[2]];
      && r.cmdargs == d + [Checksum(d)]
      && r.irLog == m.irLog + Sony64Frame(m.irFreqval, m.irDutyval, r.cmdargs)
      && r == m.(cmd := STOP_SCRIPT, cmdargs := r.cmdargs, irLog := r.irLog, waitTick := 0, rx := m.rx[1..])
  {
    PassthroughSent(TakeCmd(m), stray);
  }

  /**
   * Bus 'O' reads no arguments either: it stops the script and any wait, and
   * sends the play-colorspot datagram built from whatever cmdargs held.
   */
  lemma StopAllBus(m: Machine, stray: u8, stray': u8)
    requires BusReady(m) && |m.rx| > 0 && m.rx[0] == STOP_ALL
    ensures var r := HandleI2c(m, stray);
      var a := m.cmdargs;
      var d := [START_BYTE, m.freemAddr, COLORSPOT_PLAY, a[0], a[1], a[2], a[3]];
      && r.cmdargs == d + [Checksum(d)]
      && r.irLog == m.irLog + Sony64Frame(m.irFreqval, m.irDutyval, r.cmdargs)
      && r == m.(cmd := STOP_ALL, cmdargs := r.cmdargs, irLog := r.irLog, waitTick := 0,
                 currScriptLen := 0, rx := m.rx[1..])
      && HandleScript(r, stray') == r
  {
    ReplyArm(m, stray);
    StopAllSent(TakeCmd(m), stray, stray');
  }

  /**
   * Bus 'P' reads three bytes but always plays the EEPROM script (id 0): the
   * first byte is ignored, the second gives the repeats and the third the
   * start position.
   */
  lemma PlayBus(m: Machine, stray: u8)
    requires BusReady(m) && |m.rx| > 0 && m.rx[0] == PLAY_CTRLM_SCRIPT
    ensures var r := HandleI2c(m, stray);
      && r == PlayScript(ReadVals(TakeCmd(m), 3), 0, m.rx[2], m.rx[3], stray)
      && r.currScriptId == 0 && r.scriptTick == 0
      && r.currScriptReps == (if m.rx[2] != 0 then m.rx[2] else m.ee.scriptReps)
      && r.rx == m.rx[4..]
  {
    ReplyArm(m, stray);
  }

  /**
   * The query commands answer the master and touch nothing else: 'a' the
   * stored address, 'Z' the version, 'i' the four inputs, and 'l' (with a
   * zero argument) the stored length and repeats followed by the inputs.
   */
  lemma QueriesAnswer(m: Machine, stray: u8)
    requires BusReady(m) && |m.rx| > 0
    requires m.rx[0] in {GET_ADDR, GET_VERSION, GET_SCRIPT_LEN, GET_INPUTS}
    ensures var r := HandleI2c(m, stray);
      var c := m.rx[0];
      && r.tx == m.tx + (if c == GET_ADDR then [m.ee.i2cAddr]
                         else if c == GET_VERSION then [VERSION_MAJOR, VERSION_MINOR]
                         else if c == GET_INPUTS then m.inputs
                         else if m.rx[1] == 0 then [m.ee.scriptLen, m.ee.scriptReps] + m.inputs
                         else m.inputs)
      && r.cmdargs[1..] == m.cmdargs[1..]
      && r == m.(cmd := c, cmdargs := r.cmdargs, rx := m.rx[1 + ArgCount(c)..], tx := r.tx)
  {
    ReplyArm(m, stray);
  }

  /** A command byte with no case in handle_i2c is consumed and nothing else happens. */
  lemma UnknownIgnored(m: Machine, stray: u8)
    requires BusReady(m) && |m.rx| > 0
    requires var c := m.rx[0];
      !ForwardsThree(c) && ArgCount(c) == 0 &&
      c !in {GET_ADDR, GET_VERSION, STOP_SCRIPT, STOP_ALL, GET_INPUTS}
    ensures HandleI2c(m, stray) == m.(cmd := m.rx[0], rx := m.rx[1..])
  {
    ReplyArm(m, stray);
  }

  /**
   * '#': only the two carrier settings change (and the wait is cleared). The
   * top value passes through the 16-bit `val` into the 8-bit `ir_freqval`, so
   * only its low byte is kept; from 31129 Hz up nothing is lost, and the timer
   * then counts the longest period that does not exceed the requested one.
   */
  lemma SetIrFreq(m: Machine, stray: u8)
    requires Dispatchable(m) && m.cmd == SET_IR_FREQ
    ensures var r := ScriptCmd(m, stray);
      var f := m.cmdargs[0] as int * 256 + m.cmdargs[1] as int;
      && r == m.(irFreqval := r.irFreqval, irDutyval := r.irDutyval, waitTick := 0)
      && r.irFreqval == FreqToTimer1Val(f) % 0x100
      && (f >= 31129 ==> (r.irFreqval + 1) * f <= F_CPU < (r.irFreqval + 2) * f)
  {
    var f := m.cmdargs[0] as int * 256 + m.cmdargs[1] as int;
    SetIrFreqState(m, stray);
    TimerByte(f, ScriptCmd(m, stray).irFreqval);
  }

  /** The '#' arm as a state change: the timer value passes through 16 and then 8 bits. */
  lemma SetIrFreqState(m: Machine, stray: u8)
    requires Dispatchable(m) && m.cmd == SET_IR_FREQ
    ensures var r := ScriptCmd(m, stray);
      var f := m.cmdargs[0] as int * 256 + m.cmdargs[1] as int;
      r == m.(irFreqval := (FreqToTimer1Val(f) % 0x1_0000) % 0x100, irDutyval := r.irDutyval, waitTick := 0)
  {
  }

  /**
   * The byte the timer gets: the low byte of the top value, which keeps the
   * whole value, and so its bracket, from 31129 Hz up.
   */
  lemma TimerByte(f: nat, x: int)
    requires 0 < f < 0x1_0000 && x == (FreqToTimer1Val(f) % 0x1_0000) % 0x100
    ensures x == FreqToTimer1Val(f) % 0x100
    ensures f >= 31129 ==> (x + 1) * f <= F_CPU < (x + 2) * f
  {
    ModOfMod(FreqToTimer1Val(f));
    if f >= 31129 {
      TimerFits(f);
      assert x == FreqToTimer1Val(f);
    }
  }

  /** Keeping the low 16 bits and then the low 8 keeps the low 8. */
  lemma ModOfMod(v: int)
    requires v >= 0
    ensures (v % 0x1_0000) % 0x100 == v % 0x100
  {
    var q, r := v / 0x1_0000, v % 0x1_0000;
    var t, b := r / 0x100, r % 0x100;
    assert v == (0x100 * q + t) * 0x100 + b;
    DivModUnique(v, 0x100, 0x100 * q + t, b);
  }

  /** The timer top value fits the 8-bit register exactly for carriers of 31129 Hz and up. */
  lemma TimerFits(f: nat)
    requires 0 < f < 0x1_0000
    ensures 0 <= FreqToTimer1Val(f) < 0x100 <==> f >= 31129
  {
    var v := FreqToTimer1Val(f);
    if f >= 31129 && v >= 0x100 {
      if v + 1 > 257 {
        MulStrict(257, v + 1, f);
      }
      assert false;
    }
    if f < 31129 && v < 0x100 {
      assert false;
    }
  }

  /** A 38 kHz carrier at 33 percent: top value 209 and, by the firmware's duty formula, 121. */
  lemma SetIrFreq38k(m: Machine, stray: u8)
    requires Valid(m) && m.cmd == SET_IR_FREQ && m.cmdargs[..3] == [0x94, 0x70, 33]
    ensures var r := ScriptCmd(m, stray);
      r.irFreqval == 209 && r.irDutyval == 121 && r.irLog == m.irLog
  {
    assert m.cmdargs[0] == 0x94 && m.cmdargs[1] == 0x70 && m.cmdargs[2] == 33;
    assert FreqToTimer1Val(38000) == 209;
  }

  // ---------------------------------------------------------------------
  // Script timing

  /**
   * The script side of the main loop with the bus and the inputs quiet: n
   * timer interrupts, each followed by one call of handle_script.
   */
  function RunTicks(m: Machine, n: nat, stray: u8): (r: Machine)
    requires Valid(m)
    ensures Valid(r)
    ensures r.rx == m.rx && r.tx == m.tx && r.ee == m.ee
    decreases n
  {
    if n == 0 then m else RunTicks(HandleScript(Tick(m), stray), n - 1, stray)
  }

  /** While a wait is pending and its unit has not run out, handle_script changes nothing. */
  lemma WaitNotDue(m: Machine, stray: u8)
    requires Valid(m) && m.waitTick > 0 && m.scriptTick < SCRIPT_TICKS_PER_WAIT_TICK
    ensures HandleScript(m, stray) == m
  {
  }

  /** Once a wait unit has run out, handle_script takes it off the wait and restarts the clock. */
  lemma WaitDue(m: Machine, stray: u8)
    requires Valid(m) && m.currScriptLen != 0 && m.waitTick > 0 && m.scriptTick >= SCRIPT_TICKS_PER_WAIT_TICK
    ensures HandleScript(m, stray) == m.(waitTick := m.waitTick - 1, scriptTick := 0)
  {
  }

  /** The ticks of a wait of w units, one unit after the other. */
  function WaitTicks(w: nat): nat
  {
    if w == 0 then 0 else SCRIPT_TICKS_PER_WAIT_TICK as nat + WaitTicks(w - 1)
  }

  /** So a wait of w units is 153 * w ticks. */
  lemma {:induction false} WaitTicksCount(w: nat)
    ensures WaitTicks(w) == SCRIPT_TICKS_PER_WAIT_TICK as nat * w
  {
    if w > 0 {
      WaitTicksCount(w - 1);
    }
  }

  /** From tick i of a wait unit, the rest of the wait runs out with the position still. */
  lemma {:induction false} WaitFrom(m: Machine, stray: u8)
    requires Valid(m) && m.currScriptLen != 0 && m.waitTick > 0 && m.scriptTick < SCRIPT_TICKS_PER_WAIT_TICK
    ensures RunTicks(m, (SCRIPT_TICKS_PER_WAIT_TICK - m.scriptTick) as nat + WaitTicks(m.waitTick as nat - 1), stray)
      == m.(waitTick := 0, scriptTick := 0)
    decreases m.waitTick, SCRIPT_TICKS_PER_WAIT_TICK - m.scriptTick
  {
    var n := (SCRIPT_TICKS_PER_WAIT_TICK - m.scriptTick) as nat + WaitTicks(m.waitTick as nat - 1);
    RunTicksStep(m, n, stray);
    if m.scriptTick + 1 < SCRIPT_TICKS_PER_WAIT_TICK {
      var t := m.(scriptTick := m.scriptTick + 1);
      WaitTickHolds(m, stray);
      assert n - 1 == (SCRIPT_TICKS_PER_WAIT_TICK - t.scriptTick) as nat + WaitTicks(t.waitTick as nat - 1);
      WaitFrom(t, stray);
    } else {
      var t := m.(waitTick := m.waitTick - 1, scriptTick := 0);
      WaitTickEnds(m, stray);
      if m.waitTick > 1 {
        assert n - 1 == (SCRIPT_TICKS_PER_WAIT_TICK - t.scriptTick) as nat + WaitTicks(t.waitTick as nat - 1);
        WaitFrom(t, stray);
      }
    }
  }

  /** A tick inside a wait unit only moves the clock. */
  lemma WaitTickHolds(m: Machine, stray: u8)
    requires Valid(m) && m.waitTick > 0 && m.scriptTick + 1 < SCRIPT_TICKS_PER_WAIT_TICK
    ensures HandleScript(Tick(m), stray) == m.(scriptTick := m.scriptTick + 1)
  {
    WaitNotDue(Tick(m), stray);
  }

  /** The tick that ends a wait unit takes one unit off and restarts the clock. */
  lemma WaitTickEnds(m: Machine, stray: u8)
    requires Valid(m) && m.currScriptLen != 0 && m.waitTick > 0 && m.scriptTick + 1 == SCRIPT_TICKS_PER_WAIT_TICK
    ensures HandleScript(Tick(m), stray) == m.(waitTick := m.waitTick - 1, scriptTick := 0)
  {
    WaitDue(Tick(m), stray);
  }

  /** One tick of RunTicks. */
  lemma RunTicksStep(m: Machine, n: nat, stray: u8)
    requires Valid(m) && n > 0
    ensures RunTicks(m, n, stray) == RunTicks(HandleScript(Tick(m), stray), n - 1, stray)
  {
  }

  /**
   * A wait of w units, begun with the clock at zero, lasts exactly WaitTicks(w)
   * ticks, with the position still and nothing sent; then the wait is over
   * with the clock at zero.
   */
  lemma WaitLasts(m: Machine, stray: u8)
    requires Valid(m) && m.currScriptLen != 0 && m.scriptTick == 0
    ensures RunTicks(m, WaitTicks(m.waitTick as nat), stray) == m.(waitTick := 0)
  {
    if m.waitTick > 0 {
      WaitFrom(m, stray);
    }
  }

  /**
   * Until it runs out, a wait holds: at every tick before the end, a wait
   * unit is still pending and only the wait counter and the clock have moved.
   */
  lemma {:induction false} WaitHolds(m: Machine, k: nat, stray: u8)
    requires Valid(m) && m.currScriptLen != 0 && m.waitTick > 0 && m.scriptTick < SCRIPT_TICKS_PER_WAIT_TICK
    requires k < (SCRIPT_TICKS_PER_WAIT_TICK - m.scriptTick) as nat + WaitTicks(m.waitTick as nat - 1)
    ensures var r := RunTicks(m, k, stray);
      r.waitTick > 0 && r == m.(waitTick := r.waitTick, scriptTick := r.scriptTick)
    decreases k
  {
    if k > 0 {
      RunTicksStep(m, k, stray);
      if m.scriptTick + 1 < SCRIPT_TICKS_PER_WAIT_TICK {
        var t := m.(scriptTick := m.scriptTick + 1);
        WaitTickHolds(m, stray);
        WaitHolds(t, k - 1, stray);
      } else {
        var t := m.(waitTick := m.waitTick - 1, scriptTick := 0);
        WaitTickEnds(m, stray);
        assert m.waitTick > 1;
        WaitHolds(t, k - 1, stray);
      }
    }
  }

  /** Before the line's time is up, handle_script changes nothing. */
  lemma LineNotDue(m: Machine, stray: u8)
    requires Valid(m) && m.waitTick == 0 && m.scriptTick < m.currLine.dur
    ensures HandleScript(m, stray) == m
  {
  }

  /** Once the line's time is up, handle_script moves on. */
  lemma LineDue(m: Machine, stray: u8)
    requires Valid(m) && m.currScriptLen != 0 && m.waitTick == 0 && m.scriptTick >= m.currLine.dur
    ensures HandleScript(m, stray) == NextStep(m, stray)
  {
  }

  /** From tick i of a line of duration d > i, the line ends after d - i more ticks. */
  lemma {:induction false} LineFrom(m: Machine, stray: u8)
    requires Valid(m) && m.currScriptLen != 0 && m.waitTick == 0 && m.scriptTick < m.currLine.dur
    ensures RunTicks(m, (m.currLine.dur - m.scriptTick) as nat, stray) == NextStep(m.(scriptTick := m.currLine.dur), stray)
    decreases m.currLine.dur - m.scriptTick
  {
    var n := (m.currLine.dur - m.scriptTick) as nat;
    RunTicksStep(m, n, stray);
    if m.scriptTick + 1 < m.currLine.dur {
      LineTickHolds(m, stray);
      LineFrom(m.(scriptTick := m.scriptTick + 1), stray);
    } else {
      LineTickEnds(m, stray);
    }
  }

  /** A tick before the line's time is up only moves the clock. */
  lemma LineTickHolds(m: Machine, stray: u8)
    requires Valid(m) && m.waitTick == 0 && m.scriptTick + 1 < m.currLine.dur
    ensures HandleScript(Tick(m), stray) == m.(scriptTick := m.scriptTick + 1)
  {
    LineNotDue(Tick(m), stray);
  }

  /** The tick that brings the clock to the line's duration moves on. */
  lemma LineTickEnds(m: Machine, stray: u8)
    requires Valid(m) && m.currScriptLen != 0 && m.waitTick == 0 && m.scriptTick + 1 == m.currLine.dur
    ensures HandleScript(Tick(m), stray) == NextStep(m.(scriptTick := m.currLine.dur), stray)
  {
    assert Tick(m) == m.(scriptTick := m.currLine.dur);
    LineDue(m.(scriptTick := m.currLine.dur), stray);
  }

  /** A line of duration d > 0, started with the clock at zero, ends on its d-th tick. */
  lemma LineLasts(m: Machine, stray: u8)
    requires Valid(m) && m.currScriptLen != 0 && m.waitTick == 0 && m.scriptTick == 0
    requires m.currLine.dur > 0
    ensures RunTicks(m, m.currLine.dur, stray) == NextStep(m.(scriptTick := m.currLine.dur), stray)
  {
    LineFrom(m, stray);
  }

  /** A zero-duration line moves on at the very next handle_script, with no tick in between. */
  lemma ZeroDurationAdvances(m: Machine, stray: u8)
    requires Valid(m) && m.currScriptLen != 0 && m.waitTick == 0 && m.currLine.dur == 0
    ensures var r := HandleScript(m, stray);
      && r == NextStep(m, stray)
      && r.scriptTick == 0
      && ((m.scriptPos as int + 1) % 0x100 != m.currScriptLen as int ==>
            r.cmd == NextLine(Advance(m)).cmd)
  {
  }
}
