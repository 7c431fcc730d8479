/**
 * Properties of CtrlM script playback and of the commands that steer it:
 * how a pass through the script ends, what the repeat count means, the
 * relative and input-triggered jumps, starting a script, the guarded change
 * of the bus address, the boot sequence, and worked examples of each.
 */
module CtrlMPlayback {
  import opened MachineInts
  import opened IRSend
  import opened Opcodes
  import opened NonVol
  import opened CtrlM
  import opened CtrlMProps

  // ---------------------------------------------------------------------
  // The end of a line and the end of a pass

  /** The next handle_script call finishes the current line. */
  predicate LineEnds(m: Machine)
  {
    m.currScriptLen != 0 && m.waitTick == 0 && m.scriptTick >= m.currLine.dur
  }

  /** ... and the line was the last one: the pass through the script ends. */
  predicate PassEnds(m: Machine)
  {
    LineEnds(m) && (m.scriptPos as int + 1) % 0x100 == m.currScriptLen as int
  }

  /** Inside the script, the clock restarts and the following line runs. */
  lemma NextLineRuns(m: Machine, stray: u8)
    requires Valid(m) && LineEnds(m) && !PassEnds(m)
    ensures var next := (m.scriptPos as int + 1) % 0x100;
      var r := HandleScript(m, stray);
      && r == ScriptDoNextLine(m.(scriptTick := 0, scriptPos := next), stray)
      && r.scriptTick == 0 && r.cmd == NextLine(m.(scriptPos := next)).cmd
  {
  }

  /** On the last repeat, the end of the pass stops playback and runs no further line. */
  lemma LastPassStops(m: Machine, stray: u8)
    requires Valid(m) && PassEnds(m) && m.currScriptReps == 1
    ensures HandleScript(m, stray) == m.(scriptTick := 0, scriptPos := 0, currScriptReps := 0, currScriptLen := 0)
  {
  }

  /**
   * Otherwise playback goes back to line 0 and runs it, with one repeat fewer;
   * a count of 0 (repeat forever) wraps to 255 and is reset to 0, not left at 255.
   */
  lemma NextPassRuns(m: Machine, stray: u8)
    requires Valid(m) && PassEnds(m) && m.currScriptReps != 1
    ensures var reps := if m.currScriptReps == 0 then 0 else m.currScriptReps - 1;
      HandleScript(m, stray) == ScriptDoNextLine(m.(scriptTick := 0, scriptPos := 0, currScriptReps := reps), stray)
  {
    var reps := if m.currScriptReps == 0 then 0 else m.currScriptReps - 1;
    var m1 := Advance(m);
    assert m1.scriptPos == m1.currScriptLen;
    assert EndOfPass(m1) == m.(scriptTick := 0, scriptPos := 0, currScriptReps := reps);
    assert HandleScript(m, stray) == NextStep(m, stray);
  }

  // ---------------------------------------------------------------------
  // Repeat counts over a whole run

  /**
   * No line the interpreter can load is 'O', the one command that ends
   * playback on its own; positions past the stored lines read erased bytes.
   */
  predicate NeverStops(m: Machine)
  {
    m.currLine.cmd != STOP_ALL && forall k :: 0 <= k < |m.ee.lines| ==> m.ee.lines[k].cmd != STOP_ALL
  }

  lemma NextLineNotStop(m: Machine)
    requires NeverStops(m)
    ensures NextLine(m).cmd != STOP_ALL
  {
  }

  /** How many passes end during n ticks of RunTicks. */
  function Passes(m: Machine, n: nat, stray: u8): nat
    requires Valid(m)
    decreases n
  {
    if n == 0 then 0
    else
      var t := Tick(m);
      (if PassEnds(t) then 1 else 0) + Passes(HandleScript(t, stray), n - 1, stray)
  }

  /** One handle_script call: the length and the repeat count change only at the end of a pass. */
  lemma StepReps(m: Machine, stray: u8)
    requires Valid(m) && NeverStops(m) && m.currScriptLen != 0
    ensures var r := HandleScript(m, stray);
      && NeverStops(r)
      && (!PassEnds(m) ==> r.currScriptLen == m.currScriptLen && r.currScriptReps == m.currScriptReps)
      && (PassEnds(m) && m.currScriptReps == 1 ==> r.currScriptLen == 0)
      && (PassEnds(m) && m.currScriptReps != 1 ==>
            r.currScriptLen == m.currScriptLen && r.currScriptReps == if m.currScriptReps == 0 then 0 else m.currScriptReps - 1)
  {
    if LineEnds(m) {
      var next := (m.scriptPos as int + 1) % 0x100;
      if !PassEnds(m) {
        NextLineRuns(m, stray);
        NextLineNotStop(m.(scriptTick := 0, scriptPos := next));
      } else if m.currScriptReps == 1 {
        LastPassStops(m, stray);
      } else {
        NextPassRuns(m, stray);
        var reps := if m.currScriptReps == 0 then 0 else m.currScriptReps - 1;
        NextLineNotStop(m.(scriptTick := 0, scriptPos := 0, currScriptReps := reps));
      }
    }
  }

  /** A stopped interpreter stays stopped: ticks only move the clock. */
  lemma {:induction false} StoppedStays(m: Machine, n: nat, stray: u8)
    requires Valid(m) && m.currScriptLen == 0
    ensures RunTicks(m, n, stray) == m.(scriptTick := RunTicks(m, n, stray).scriptTick)
    ensures Passes(m, n, stray) == 0
    decreases n
  {
    if n > 0 {
      StoppedStays(Tick(m), n - 1, stray);
    }
  }

  /**
   * A script with a repeat count N > 0 plays exactly N passes: while fewer
   * have ended it is still playing with N minus that many repeats left, and
   * the N-th end of a pass stops it for good.
   */
  lemma {:induction false} FinitePasses(m: Machine, n: nat, stray: u8)
    requires Valid(m) && NeverStops(m) && m.currScriptLen != 0 && m.currScriptReps >= 1
    ensures var r, p := RunTicks(m, n, stray), Passes(m, n, stray);
      && p <= m.currScriptReps
      && (p < m.currScriptReps ==> r.currScriptLen == m.currScriptLen && r.currScriptReps == m.currScriptReps - p)
      && (p == m.currScriptReps ==> r.currScriptLen == 0)
    decreases n
  {
    if n > 0 {
      var t := Tick(m);
      var h := HandleScript(t, stray);
      StepReps(t, stray);
      if PassEnds(t) && m.currScriptReps == 1 {
        StoppedStays(h, n - 1, stray);
      } else {
        FinitePasses(h, n - 1, stray);
      }
    }
  }

  /** A script with a repeat count of 0 never stops by itself, however many passes end. */
  lemma {:induction false} EndlessPlay(m: Machine, n: nat, stray: u8)
    requires Valid(m) && NeverStops(m) && m.currScriptLen != 0 && m.currScriptReps == 0
    ensures var r := RunTicks(m, n, stray);
      r.currScriptLen == m.currScriptLen && r.currScriptReps == 0
    decreases n
  {
    if n > 0 {
      StepReps(Tick(m), stray);
      EndlessPlay(HandleScript(Tick(m), stray), n - 1, stray);
    }
  }

  /** Before the line's time is up, ticks move only the clock. */
  lemma {:induction false} LineHolds(m: Machine, k: nat, stray: u8)
    requires Valid(m) && m.waitTick == 0 && m.scriptTick as int + k < m.currLine.dur as int
    ensures RunTicks(m, k, stray) == m.(scriptTick := m.scriptTick as int + k)
    decreases k
  {
    if k > 0 {
      var t := Tick(m);
      assert t == m.(scriptTick := m.scriptTick + 1);
      assert HandleScript(t, stray) == t;
      LineHolds(t, k - 1, stray);
    }
  }

  // ---------------------------------------------------------------------
  // Jumps

  /**
   * 'j' moves the position by its argument minus one, so that the line after
   * the jump is the argument, read as a signed byte, away from the 'j' line.
   */
  lemma RelativeJump(m: Machine, stray: u8)
    requires Valid(m) && m.cmd == JUMP
    ensures var r := ScriptCmd(m, stray);
      && r == m.(scriptPos := (m.scriptPos as int + m.cmdargs[0] as int - 1) % 0x100, waitTick := 0)
      && (r.scriptPos as int + 1) % 0x100 == (m.scriptPos as int + ToI8(m.cmdargs[0]) as int) % 0x100
  {
  }

  /**
   * 'I' arms the input jump: input number a0 - 0x40 (mod 256), level a1,
   * target line a2. Inputs 0x40..0x43 select inputs[0..4); 0x3F disables it.
   */
  lemma ArmInputJump(m: Machine, stray: u8)
    requires Valid(m) && m.cmd == ARM_INPUT_JUMP
    ensures var r := ScriptCmd(m, stray);
      var a := m.cmdargs;
      && r == m.(bigIinput := (a[0] as int - 0x40) % 0x100, bigIval := a[1], bigIjump := a[2], waitTick := 0)
      && (0x40 <= a[0] < 0x44 <==> r.bigIinput < 4)
      && (r.bigIinput == 0xFF <==> a[0] == 0x3F)
  {
  }

  /**
   * handle_inputs: with the input jump armed on an existing input, an input
   * above the level sends the position to the line before the target and
   * sets the clock to its maximum; otherwise the position and clock stay.
   */
  lemma InputJump(m: Machine, sda: bool, scl: bool, stray: u8)
    requires Valid(m) && m.bigIinput < 4 && m.bigIval != 0xFF
    ensures var r := HandleInputs(m, sda, scl, stray);
      && (r.inputs[m.bigIinput] > m.bigIval ==>
            r == m.(inputs := r.inputs, scriptPos := (m.bigIjump as int - 1) % 0x100, scriptTick := 255))
      && (r.inputs[m.bigIinput] <= m.bigIval ==> r == m.(inputs := r.inputs))
  {
  }

  /** A disarmed input jump (input or level 0xFF) only samples the pins. */
  lemma InputJumpDisarmed(m: Machine, sda: bool, scl: bool, stray: u8)
    requires Valid(m) && (m.bigIinput == 0xFF || m.bigIval == 0xFF)
    ensures var r := HandleInputs(m, sda, scl, stray); r == m.(inputs := r.inputs)
  {
  }

  /**
   * The forced clock makes the handle_script call that follows in the same
   * loop turn run the target line at once, whatever the current line's duration.
   */
  lemma InputJumpTakesPriority(m: Machine, sda: bool, scl: bool, s1: u8, s2: u8)
    requires Valid(m) && m.currScriptLen != 0 && m.waitTick == 0
    requires m.bigIinput < 4 && m.bigIval != 0xFF && m.bigIjump != m.currScriptLen
    requires HandleInputs(m, sda, scl, s1).inputs[m.bigIinput] > m.bigIval
    ensures var r := HandleInputs(m, sda, scl, s1);
      HandleScript(r, s2) == ScriptDoNextLine(r.(scriptTick := 0, scriptPos := m.bigIjump), s2)
  {
    InputJump(m, sda, scl, s1);
    var r := HandleInputs(m, sda, scl, s1);
    assert r.scriptPos as int == (m.bigIjump as int - 1) % 0x100 && r.scriptTick == 255;
    assert (r.scriptPos as int + 1) % 0x100 == m.bigIjump as int;
    NextLineRuns(r, s2);
  }

  // ---------------------------------------------------------------------
  // Starting a script

  /**
   * play_script of the EEPROM script: the clock is zero, the length and
   * repeat count come from the store (a nonzero argument overrides the
   * count), and exactly the line at pos has run, with its duration adjusted.
   */
  lemma PlayScriptRunsLine(m: Machine, reps: u8, pos: u8, stray: u8)
    requires Valid(m)
    ensures var r := PlayScript(m, 0, reps, pos, stray);
      var line := LineAt(m.ee, pos);
      && r.scriptTick == 0 && r.currScriptId == 0
      && r.currScriptReps == (if reps != 0 then reps else m.ee.scriptReps)
      && r.currScriptLen == (if line.cmd == STOP_ALL then 0 else m.ee.scriptLen)
      && r.cmd == line.cmd
      && r.currLine == line.(dur := AdjustDur(line.dur, m.timeadj))
      && (!IsFlowCmd(line.cmd) ==> r.scriptPos == pos)
  {
  }

  // ---------------------------------------------------------------------
  // The bus address

  /**
   * Bus 'A': the four bytes are read; the address is stored and taken into
   * use only when it is nonzero and comes twice around 0xD0 0x0D; otherwise
   * nothing changes but the buffer.
   */
  lemma SetAddrGuarded(m: Machine, stray: u8)
    requires BusReady(m) && |m.rx| > 0 && m.rx[0] == SET_ADDR
    ensures var r := HandleI2c(m, stray);
      var x := m.rx;
      && r.cmdargs[..4] == x[1..5] && r.rx == x[5..]
      && r.irLog == m.irLog && r.tx == m.tx
      && (AddrGuard(x[1..5]) ==> r.ee == m.ee.(i2cAddr := x[1]) && r.slaveAddr == x[1])
      && (!AddrGuard(x[1..5]) ==> r.ee == m.ee && r.slaveAddr == m.slaveAddr)
  {
    var m0 := TakeCmd(m);
    ReplyArm(m, stray);
    var z := m0.(cmdargs := [0, 0, 0, 0] + m0.cmdargs[4..]);
    assert ReadVals(z, 4).cmdargs[..4] == m.rx[1..5];
  }

  /**
   * An accepted address survives a reboot only if it is a 7-bit address; an
   * accepted address above 0x7F is used until the next boot, which replaces
   * it with the default.
   */
  lemma AddrAtReboot(m: Machine, stray: u8, bootStray: u8)
    requires BusReady(m) && |m.rx| > 0 && m.rx[0] == SET_ADDR && AddrGuard(m.rx[1..5])
    ensures var r := HandleI2c(m, stray);
      && r.slaveAddr == m.rx[1]
      && Boot(r.ee, bootStray).slaveAddr == if m.rx[1] <= 0x7F then m.rx[1] else I2C_ADDR
  {
    SetAddrGuarded(m, stray);
  }

  // ---------------------------------------------------------------------
  // Boot

  /** Without the play-script boot mode, the firmware starts idle and silent. */
  lemma BootIdle(ee: Store, stray: u8, stray': u8)
    requires ee.bootMode != BOOT_PLAY_SCRIPT
    ensures var m := Boot(ee, stray);
      && m.currScriptLen == 0 && m.irLog == [] && m.tx == []
      && m.waitTick == 0 && m.bigIinput == 0xFF && m.bigIval == 0xFF
      && HandleScript(m, stray') == m
  {
  }

  /** In the play-script boot mode the EEPROM script starts at line 0 with the boot repeat count. */
  lemma BootPlays(ee: Store, stray: u8)
    requires ee.bootMode == BOOT_PLAY_SCRIPT && ee.bootScriptId == 0
    ensures var m := Boot(ee, stray);
      var line := LineAt(ee, 0);
      && m.currScriptId == 0 && m.scriptTick == 0
      && m.currScriptReps == (if ee.bootReps != 0 then ee.bootReps else ee.scriptReps)
      && m.currScriptLen == (if line.cmd == STOP_ALL then 0 else ee.scriptLen)
      && m.cmd == line.cmd
      && m.currLine == line.(dur := AdjustDur(line.dur, ToI8(ee.bootTimeadj)))
  {
    var m0 := PowerOn(ee).(slaveAddr := BootAddr(ee.i2cAddr), timeadj := ToI8(ee.bootTimeadj));
    PlayScriptRunsLine(m0, ee.bootReps, 0, stray);
  }

  /** The shipped EEPROM boots idle, answering at 0x09, with no time adjustment. */
  lemma DefaultBoot(stray: u8)
    ensures var m := Boot(DefaultStore(), stray);
      m.slaveAddr == 0x09 && m.currScriptLen == 0 && m.timeadj == 0
  {
    BootIdle(DefaultStore(), stray, stray);
  }

  // ---------------------------------------------------------------------
  // Worked examples

  /**
   * '@' 0x01 0x09 (the bus reads a third, unused byte) and then
   * 'c' 0xFF 0x00 0xFF: one datagram addressed to BlinkM 9 on FreeM 1,
   * with checksum 0xC0.
   */
  lemma AddressThenColor(m: Machine, stray: u8)
    requires Valid(m) && m.rx == [SET_ADDRS, 0x01, 0x09, 0x00, FADE_RGB, 0xFF, 0x00, 0xFF]
    ensures var r := HandleI2c(HandleI2c(m, stray), stray);
      && r.cmdargs == [0x55, 0x01, 0x09, FADE_RGB, 0xFF, 0x00, 0xFF, 0xC0]
      && r.irLog == m.irLog + Sony64Frame(m.irFreqval, m.irDutyval, r.cmdargs)
      && r.rx == [] && r.freemAddr == 0x01 && r.blinkmAddr == 0x09
  {
    var m1 := HandleI2c(m, stray);
    AddressStep(m, stray);
    ColorStep(m1, stray);
    AddressColorChecksum();
  }

  lemma AddressColorChecksum()
    ensures Checksum([0x55, 0x01, 0x09, FADE_RGB, 0xFF, 0x00, 0xFF]) == 0xC0
  {
    SumSeven([0x55, 0x01, 0x09, FADE_RGB, 0xFF, 0x00, 0xFF]);
  }

  /** The '@' half of AddressThenColor: only the two addresses change. */
  lemma AddressStep(m: Machine, stray: u8)
    requires Valid(m) && m.rx == [SET_ADDRS, 0x01, 0x09, 0x00, FADE_RGB, 0xFF, 0x00, 0xFF]
    ensures var m1 := HandleI2c(m, stray);
      && m1.irLog == m.irLog && m1.freemAddr == 0x01 && m1.blinkmAddr == 0x09
      && m1.rx == [FADE_RGB, 0xFF, 0x00, 0xFF] && Valid(m1)
      && m1.irFreqval == m.irFreqval && m1.irDutyval == m.irDutyval
  {
    var m0 := ReadVals(TakeCmd(m), 3);
    assert m0.cmdargs[0] == 0x01 && m0.cmdargs[1] == 0x09 && m0.cmd == SET_ADDRS;
    assert HandleI2c(m, stray) == ScriptCmd(m0, stray);
  }

  /** The 'c' half of AddressThenColor: one datagram to the current addresses. */
  lemma ColorStep(m: Machine, stray: u8)
    requires Valid(m) && m.rx == [FADE_RGB, 0xFF, 0x00, 0xFF]
    ensures var r := HandleI2c(m, stray);
      var d := [START_BYTE, m.freemAddr, m.blinkmAddr, FADE_RGB, 0xFF, 0x00, 0xFF];
      && r.cmdargs == d + [Checksum(d)]
      && r.irLog == m.irLog + Sony64Frame(m.irFreqval, m.irDutyval, r.cmdargs)
      && r.rx == [] && r.freemAddr == m.freemAddr && r.blinkmAddr == m.blinkmAddr
  {
    var m2 := ReadVals(TakeCmd(m), 3);
    assert m2.cmdargs[..3] == [0xFF, 0x00, 0xFF] && m2.cmd == FADE_RGB;
    assert HandleI2c(m, stray) == ScriptCmd(m2, stray);
    PassthroughSent(m2, stray);
  }

  lemma SumStep(s: seq<u8>, k: nat)
    requires k < |s|
    ensures Sum(s[..k + 1]) == Sum(s[..k]) + s[k]
  {
    assert s[..k + 1][..k] == s[..k];
  }

  lemma SumSeven(d: seq<u8>)
    requires |d| == 7
    ensures Sum(d) == d[0] as int + d[1] as int + d[2] as int + d[3] as int + d[4] as int + d[5] as int + d[6] as int
  {
    assert d[..0] == [];
    SumStep(d, 0); SumStep(d, 1); SumStep(d, 2); SumStep(d, 3);
    SumStep(d, 4); SumStep(d, 5); SumStep(d, 6);
    assert d[..7] == d;
  }

  /**
   * Bus '*' 3 'c' 0x00 with FreeM address 0x55: the play-colorspot datagram.
   * Its seventh byte is cmdargs[3] as the previous command left it, as the
   * bus reads only three bytes.
   */
  lemma PlayColorspotExample(m: Machine, stray: u8)
    requires Valid(m) && m.freemAddr == 0x55 && m.rx == [PLAY_COLORSPOT, 3, FADE_RGB, 0x00]
    ensures var r := HandleI2c(m, stray);
      var d := [0x55, 0x55, COLORSPOT_PLAY, 3, FADE_RGB, 0x00, m.cmdargs[3]];
      r.cmdargs == d + [Checksum(d)]
      && r.irLog == m.irLog + Sony64Frame(m.irFreqval, m.irDutyval, d + [Checksum(d)])
  {
    var m1 := ReadVals(TakeCmd(m), 3);
    assert m1.cmdargs[..4] == [3, FADE_RGB, 0x00, m.cmdargs[3]];
    PlayColorspotSent(m1, stray);
  }

  /** The commands a script line hands on to the BlinkM unchanged: the default arm. */
  predicate Forwarded(c: u8)
  {
    !IsSettingCmd(c) && !IsFlowCmd(c) && c != STOP_ALL && c != PLAY_COLORSPOT
  }

  /** A forwarded line runs: it becomes the current line and one datagram goes out. */
  lemma ForwardedLineRuns(m: Machine, stray: u8)
    requires Valid(m) && Forwarded(NextLine(m).cmd)
    ensures var r := ScriptDoNextLine(m, stray);
      var line := NextLine(m);
      && r.cmd == line.cmd && r.currLine == line.(dur := AdjustDur(line.dur, m.timeadj))
      && |r.irLog| == |m.irLog| + 131
      && r == m.(currLine := r.currLine, cmd := r.cmd, cmdargs := r.cmdargs, irLog := r.irLog, waitTick := 0)
  {
    PassthroughSent(LoadLine(m), stray);
  }

  /** A forwarded line whose time is up gives way to the next line, itself forwarded. */
  lemma ForwardedNextLine(p: Machine, stray: u8)
    requires Valid(p) && LineEnds(p) && !PassEnds(p)
    requires Forwarded(NextLine(p.(scriptTick := 0, scriptPos := (p.scriptPos as int + 1) % 0x100)).cmd)
    ensures var p1 := p.(scriptTick := 0, scriptPos := (p.scriptPos as int + 1) % 0x100);
      var q := HandleScript(p, stray);
      var line := NextLine(p1);
      && q == p1.(currLine := line.(dur := AdjustDur(line.dur, p.timeadj)), cmd := line.cmd,
                 cmdargs := q.cmdargs, irLog := q.irLog, waitTick := 0)
      && |q.irLog| == |p.irLog| + 131
  {
    var p1 := p.(scriptTick := 0, scriptPos := (p.scriptPos as int + 1) % 0x100);
    NextLineRuns(p, stray);
    ForwardedLineRuns(p1, stray);
  }

  /** The two lines of the example script. */
  function TwoLines(): seq<SafeLine>
  {
    [ScriptLine(0, FADE_SPEED, 0x10, 0, 0), ScriptLine(10, FADE_RGB, 0xFF, 0x00, 0x80)]
  }

  /** Line 0 of the example runs as playback starts. */
  lemma TwoLineStart(m: Machine, stray: u8)
    requires Valid(m) && m.timeadj == 0 && m.ee.scriptLen == 2 && m.ee.scriptReps == 1 && m.ee.lines == TwoLines()
    ensures var p := PlayScript(m, 0, 0, 0, stray);
      && p == StartScript(m, 0, 0, 0).(currLine := TwoLines()[0], cmd := FADE_SPEED, cmdargs := p.cmdargs,
                                         irLog := p.irLog, waitTick := 0)
      && |p.irLog| == |m.irLog| + 131
  {
    ForwardedLineRuns(StartScript(m, 0, 0, 0), stray);
  }

  /** With no tick in between, the zero-duration line 0 gives way to line 1. */
  lemma TwoLineChain(p: Machine, stray: u8)
    requires Valid(p) && p.timeadj == 0 && p.ee.lines == TwoLines() && p.currScriptId == 0
    requires p.currScriptLen == 2 && p.scriptPos == 0 && p.scriptTick == 0 && p.waitTick == 0
    requires p.currLine.dur == 0
    ensures var q := HandleScript(p, stray);
      && q == p.(scriptPos := 1, currLine := TwoLines()[1], cmd := FADE_RGB, cmdargs := q.cmdargs, irLog := q.irLog)
      && |q.irLog| == |p.irLog| + 131
  {
    ForwardedNextLine(p, stray);
  }

  /** Line 1, the last, holds for 9 ticks and the 10th ends the only pass. */
  lemma TwoLineEnd(q: Machine, stray: u8)
    requires Valid(q) && q.currScriptLen == 2 && q.currScriptReps == 1 && q.scriptPos == 1
    requires q.scriptTick == 0 && q.waitTick == 0 && q.currLine.dur == 10
    ensures RunTicks(q, 9, stray) == q.(scriptTick := 9)
    ensures RunTicks(q, 10, stray) == q.(scriptTick := 0, scriptPos := 0, currScriptReps := 0, currScriptLen := 0)
  {
    LineHolds(q, 9, stray);
    LineLasts(q, stray);
    LastPassStops(q.(scriptTick := 10), stray);
  }

  /**
   * A two-line script, played once from line 0: the zero-duration line and
   * the line after it both run at once, with no tick in between; the second
   * line holds for 9 ticks and the 10th ends playback with nothing more sent.
   */
  lemma TwoLineScript(m: Machine, stray: u8)
    requires Valid(m) && m.timeadj == 0 && m.ee.scriptLen == 2 && m.ee.scriptReps == 1 && m.ee.lines == TwoLines()
    ensures var p := PlayScript(m, 0, 0, 0, stray);
      var q := HandleScript(p, stray);
      && p.cmd == FADE_SPEED && p.currScriptLen == 2
      && q.cmd == FADE_RGB && q.scriptPos == 1 && q.scriptTick == 0 && q.currScriptLen == 2
      && |q.irLog| == |m.irLog| + 2 * 131
      && RunTicks(q, 9, stray) == q.(scriptTick := 9)
      && RunTicks(q, 10, stray).currScriptLen == 0
      && RunTicks(q, 10, stray).irLog == q.irLog
  {
    var p := PlayScript(m, 0, 0, 0, stray);
    TwoLineStart(m, stray);
    TwoLineChain(p, stray);
    TwoLineEnd(HandleScript(p, stray), stray);
  }

  /** Line 0 of the shipped script runs as playback starts. */
  lemma DefaultStart(m: Machine, stray: u8)
    requires Valid(m) && m.ee == DefaultStore() && m.timeadj == 0
    ensures var p := PlayScript(m, 0, 0, 0, stray);
      && p.scriptPos == 0 && p.scriptTick == 0 && p.waitTick == 0 && p.currScriptId == 0
      && p.currScriptLen == 6 && p.currScriptReps == 0 && p.timeadj == 0 && p.ee == m.ee
      && p.currLine == DefaultScript()[0] && p.cmd == FADE_SPEED
      && |p.irLog| == |m.irLog| + 131
  {
    ForwardedLineRuns(StartScript(m, 0, 0, 0), stray);
  }

  /** A zero-duration line among the first two of the shipped script gives way to the next at once. */
  lemma DefaultLineChains(p: Machine, stray: u8)
    requires Valid(p) && p.ee == DefaultStore() && p.timeadj == 0 && p.currScriptId == 0
    requires p.currScriptLen == 6 && p.scriptPos < 2 && p.scriptTick == 0 && p.waitTick == 0
    requires p.currLine.dur == 0
    ensures var q := HandleScript(p, stray);
      var k := p.scriptPos + 1;
      && q == p.(scriptPos := k, currLine := DefaultScript()[k], cmd := DefaultScript()[k].cmd,
                 cmdargs := q.cmdargs, irLog := q.irLog)
      && |q.irLog| == |p.irLog| + 131
  {
    var k := p.scriptPos + 1;
    assert (p.scriptPos as int + 1) % 0x100 == k;
    assert LineAt(p.ee, k) == DefaultScript()[k];
    ForwardedNextLine(p, stray);
  }

  /**
   * The shipped script from line 0: the 'f' and 'o' lines chain at once into
   * the first 10-tick fade; 'o' is forwarded to the BlinkM and does not stop
   * CtrlM's own playback, which then repeats forever.
   */
  lemma DefaultScriptChains(m: Machine, n: nat, stray: u8)
    requires Valid(m) && m.ee == DefaultStore() && m.timeadj == 0
    ensures var p := PlayScript(m, 0, 0, 0, stray);
      var q := HandleScript(HandleScript(p, stray), stray);
      && q.scriptPos == 2 && q.cmd == FADE_RGB && q.currLine.dur == 10
      && q.currScriptLen == 6 && q.currScriptReps == 0
      && |q.irLog| == |m.irLog| + 3 * 131
      && RunTicks(q, n, stray).currScriptLen == 6
  {
    var p := PlayScript(m, 0, 0, 0, stray);
    DefaultStart(m, stray);
    DefaultLineChains(p, stray);
    var p1 := HandleScript(p, stray);
    DefaultLineChains(p1, stray);
    var q := HandleScript(p1, stray);
    DefaultNeverStops(q);
    EndlessPlay(q, n, stray);
  }

  /** No line of the shipped script is 'O'. */
  lemma DefaultNeverStops(m: Machine)
    requires m.ee == DefaultStore() && m.currLine.cmd != STOP_ALL
    ensures NeverStops(m)
  {
  }
}
