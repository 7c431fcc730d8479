/**
 * The CtrlM firmware (ctrlm.c) as the program it is: one object whose fields
 * are the firmware's globals, with one method per routine, each updating the
 * fields in the order the source does. Every method is proved to leave the
 * object in the state the matching function of module CtrlM computes.
 */
module CtrlMFirmware {
  import opened MachineInts
  import opened IRSend
  import opened Opcodes
  import opened NonVol
  import CtrlM

  /** compute_checksum: the 8-bit sum of buf[0..c), added up in an 8-bit register. */
  method ComputeChecksum(buf: array<u8>, c: int) returns (chksum: u8)
    requires c <= buf.Length
    requires c <= 255  // the counter is 8 bits wide: a larger count never ends
    ensures chksum == CtrlM.Checksum(buf[..if c < 0 then 0 else c])
  {
    chksum := 0;
    var i: u8 := 0;
    while i as int < c
      invariant 0 <= i as int <= (if c < 0 then 0 else c)
      invariant chksum == CtrlM.Checksum(buf[..i])
    {
      assert buf[..i + 1][..i] == buf[..i];
      chksum := (chksum + buf[i]) % 0x100;
      i := i + 1;
    }
  }

  /** One more element of src over dst: the splice grows by one. */
  lemma SpliceStep<T>(src: seq<T>, dst: seq<T>, i: nat)
    requires i < |src| && i < |dst|
    ensures (src[..i] + dst[i..])[i := src[i]] == src[..i + 1] + dst[i + 1..]
  {
  }

  class Firmware {
    const inputs: array<u8>
    var timeadj: i8
    var currLine: SafeLine
    var currScriptLen: u8
    var currScriptReps: u8
    var currScriptId: u8
    var scriptTick: u8
    var scriptPos: u8
    var cmd: u8
    const cmdargs: array<u8>
    var bigIinput: u8
    var bigIval: u8
    var bigIjump: u8
    var waitTick: u16
    var blinkmAddr: u8
    var freemAddr: u8
    var irFreqval: u8
    var irDutyval: u8
    /** What the IR LED has emitted. */
    var irLog: seq<IrEvent>
    /** The bus transceiver's receive and transmit queues. */
    var rx: seq<u8>
    var tx: seq<u8>
    /** The EEPROM and the address the transceiver answers to. */
    var ee: Store
    var slaveAddr: u8

    ghost predicate Valid()
      reads this
    {
      inputs.Length == 4 && cmdargs.Length == 8 && inputs != cmdargs
    }

    /** The globals as a value. */
    function State(): CtrlM.Machine
      reads this, inputs, cmdargs
    {
      CtrlM.Machine(inputs[..], timeadj, currLine, currScriptLen, currScriptReps, currScriptId,
                    scriptTick, scriptPos, cmd, cmdargs[..], bigIinput, bigIval, bigIjump, waitTick,
                    blinkmAddr, freemAddr, irFreqval, irDutyval, irLog, rx, tx, ee, slaveAddr)
    }

    /** main: the initialised globals, then the boot sequence read from the EEPROM. */
    constructor Boot(eeprom: Store, stray: u8)
      ensures Valid() && fresh(inputs) && fresh(cmdargs)
      ensures State() == CtrlM.Boot(eeprom, stray)
    {
      inputs := new u8[4](_ => 0);
      cmdargs := new u8[8](_ => 0);
      timeadj, currLine := 0, ScriptLine(0, 0, 0, 0, 0);
      currScriptLen, currScriptReps, currScriptId := 0, 0, 0;
      scriptTick, scriptPos, cmd := 0, 0, 0;
      bigIinput, bigIval, bigIjump, waitTick := 0xFF, 0xFF, 0, 0;
      blinkmAddr, freemAddr := 0x09, 0x00;
      irFreqval, irDutyval := CtrlM.DEFAULT_FREQVAL, CtrlM.DEFAULT_DUTYVAL;
      irLog, rx, tx, ee, slaveAddr := [], [], [], eeprom, 0;
      new;
      assert inputs[..] == [0, 0, 0, 0];
      assert cmdargs[..] == [0, 0, 0, 0, 0, 0, 0, 0];
      assert State() == CtrlM.PowerOn(eeprom);
      var bootMode := ee.bootMode;
      var bootScriptId := ee.bootScriptId;
      var bootReps := ee.bootReps;
      var bootTimeadj := ee.bootTimeadj;
      var addr := ee.i2cAddr;
      if addr == 0 || addr > 0x7F {
        addr := I2C_ADDR;
      }
      slaveAddr := addr;  // usiTwiSlaveInit
      timeadj := ToI8(bootTimeadj);
      if bootMode == BOOT_PLAY_SCRIPT {
        PlayScript(bootScriptId, bootReps, 0, stray);
      }
    }

    // -------------------------------------------------------------------
    // Bus transceiver

    /** usiTwiReceiveByte, on a byte that has arrived. */
    method ReceiveByte() returns (b: u8)
      requires |rx| > 0
      modifies this`rx
      ensures b == old(rx[0]) && rx == old(rx[1..])
    {
      b := rx[0];
      rx := rx[1..];
    }

    /** usiTwiTransmitByte: the byte is queued for the master. */
    method TransmitByte(b: u8)
      modifies this`tx
      ensures tx == old(tx) + [b]
    {
      tx := tx + [b];
    }

    /** cmd = usiTwiReceiveByte(). */
    method ReceiveCmd()
      requires |rx| > 0
      modifies this`cmd, this`rx
      ensures State() == CtrlM.TakeCmd(old(State()))
    {
      cmd := ReceiveByte();
    }

    /** read_i2c_vals, as a step of the whole state. */
    method ReadI2cVals(num: u8)
      requires Valid() && num <= 8 && num as int <= |rx|
      modifies this`rx, cmdargs
      ensures Valid() && State() == CtrlM.ReadVals(old(State()), num as nat)
    {
      ReceiveArgs(num);
    }

    /** read_i2c_vals' loop: the next num bus bytes into cmdargs[0..num). */
    method ReceiveArgs(num: u8)
      requires Valid() && num <= 8 && num as int <= |rx|
      modifies this`rx, cmdargs
      ensures Valid() && rx == old(rx)[num..] && cmdargs[..] == old(rx)[..num] + old(cmdargs[..])[num..]
    {
      var i: u8 := 0;
      while i < num
        invariant i <= num
        invariant rx == old(rx)[i..]
        invariant cmdargs[..] == old(rx)[..i] + old(cmdargs[..])[i..]
      {
        var b := ReceiveByte();
        cmdargs[i] := b;
        SpliceStep(old(rx), old(cmdargs[..]), i as nat);
        i := i + 1;
      }
    }

    // -------------------------------------------------------------------
    // Datagrams

    /** cmdargs[7] := compute_checksum(cmdargs, 7), then sendSonyData64bit(cmdargs). */
    method SealAndSend()
      requires Valid()
      modifies this`irLog, cmdargs
      ensures Valid()
      ensures var r := CtrlM.Seal(old(State())); cmdargs[..] == r.cmdargs && irLog == r.irLog
    {
      var chk := ComputeChecksum(cmdargs, 7);
      cmdargs[7] := chk;
      assert cmdargs[..] == old(cmdargs[..7]) + [chk];
      var p := SendSonyData64bit(irFreqval, irDutyval, cmdargs);
      assert cmdargs[..8] == cmdargs[..];
      irLog := irLog + p;
    }

    /** The default arm of handle_script_cmd: the command goes out as a BlinkM datagram. */
    method SendPassthrough()
      requires Valid()
      modifies this`irLog, cmdargs
      ensures Valid() && State() == CtrlM.SendDatagram(old(State()), CtrlM.PassthroughDatagram(old(State())))
    {
      StagePassthrough();
      SealAndSend();
    }

    /** The argument bytes move up three places behind the datagram header. */
    method StagePassthrough()
      requires Valid()
      modifies cmdargs
      ensures Valid() && cmdargs[..] == CtrlM.PassthroughDatagram(old(State())) + old(cmdargs[..])[7..]
    {
      cmdargs[6] := cmdargs[2];
      cmdargs[5] := cmdargs[1];
      cmdargs[4] := cmdargs[0];
      cmdargs[3] := cmd;
      cmdargs[2] := blinkmAddr;
      cmdargs[1] := freemAddr;
      cmdargs[0] := START_BYTE;
      assert cmdargs[..] == CtrlM.PassthroughDatagram(old(State())) + old(cmdargs[..])[7..];
    }

    /** The colorspot datagrams: cmdargs[0..4) shifted up behind a selector byte. */
    method SendColorspot(sel: u8)
      requires Valid()
      modifies this`irLog, cmdargs
      ensures Valid() && State() == CtrlM.SendDatagram(old(State()), CtrlM.ColorspotDatagram(old(State()), sel))
    {
      StageColorspot(sel);
      SealAndSend();
    }

    method StageColorspot(sel: u8)
      requires Valid()
      modifies cmdargs
      ensures Valid() && cmdargs[..] == CtrlM.ColorspotDatagram(old(State()), sel) + old(cmdargs[..])[7..]
    {
      cmdargs[6] := cmdargs[3];
      cmdargs[5] := cmdargs[2];
      cmdargs[4] := cmdargs[1];
      cmdargs[3] := cmdargs[0];
      cmdargs[2] := sel;
      cmdargs[1] := freemAddr;
      cmdargs[0] := START_BYTE;
      assert cmdargs[..] == CtrlM.ColorspotDatagram(old(State()), sel) + old(cmdargs[..])[7..];
    }

    // -------------------------------------------------------------------
    // handle_script_cmd

    method HandleScriptCmd(stray: u8)
      requires Valid() && CtrlM.Dispatchable(State())
      modifies this`freemAddr, this`blinkmAddr, this`irFreqval, this`irDutyval, this`irLog, this`scriptPos,
              this`bigIinput, this`bigIval, this`bigIjump, this`waitTick, this`currScriptLen, cmdargs
      ensures Valid() && State() == CtrlM.ScriptCmd(old(State()), stray)
    {
      var waitCmd := false;
      if CtrlM.IsSettingCmd(cmd) {
        SettingCmd();
      } else if CtrlM.IsFlowCmd(cmd) {
        waitCmd := FlowCmd(stray);
      } else {
        DatagramCmd();
      }
      if !waitCmd {
        waitTick := 0;
      }
    }

    /** The '@', '#', '%' and '$' arms, as a step of the whole state. */
    method SettingCmd()
      requires Valid() && CtrlM.Dispatchable(State()) && CtrlM.IsSettingCmd(cmd)
      modifies this`freemAddr, this`blinkmAddr, this`irFreqval, this`irDutyval, this`irLog
      ensures State() == CtrlM.SettingCmd(old(State()))
    {
      SettingArms();
    }

    /** The '@', '#', '%' and '$' arms: the fields they write. */
    method SettingArms()
      requires Valid() && CtrlM.Dispatchable(State()) && CtrlM.IsSettingCmd(cmd)
      modifies this`freemAddr, this`blinkmAddr, this`irFreqval, this`irDutyval, this`irLog
      ensures var r := CtrlM.SettingCmd(old(State()));
        && freemAddr == r.freemAddr && blinkmAddr == r.blinkmAddr
        && irFreqval == r.irFreqval && irDutyval == r.irDutyval && irLog == r.irLog
    {
      if cmd == SET_ADDRS {
        freemAddr := cmdargs[0];
        blinkmAddr := cmdargs[1];
      } else if cmd == SET_IR_FREQ {
        var val: u16 := cmdargs[0] as int * 256 + cmdargs[1] as int;
        val := FreqToTimer1Val(val) % 0x1_0000;
        irFreqval := val % 0x100;
        irDutyval := ((val * 100) % 0x1_0000 / cmdargs[2]) % 0x100;
      } else if cmd == IR_LED {
        if cmdargs[0] != 0 {
          irLog := irLog + [Carrier(irFreqval, irDutyval)];  // IRsend_enableIROut
          irLog := irLog + [IrOn];
        } else {
          irLog := irLog + [IrOff];
        }
      } else {
        var val: u16 := cmdargs[0] as int * 256 + cmdargs[1] as int;
        var p := SendSony(irFreqval, irDutyval, val, SONY_BITS);
        irLog := irLog + p;
      }
    }

    /** The 'j', 'i', 'I' and 'w' arms, as a step of the whole state. */
    method FlowCmd(stray: u8) returns (waitCmd: bool)
      requires Valid() && CtrlM.IsFlowCmd(cmd)
      modifies this`scriptPos, this`bigIinput, this`bigIval, this`bigIjump, this`waitTick
      ensures waitCmd == (cmd == WAIT)
      ensures State() == CtrlM.FlowCmd(old(State()), stray)
    {
      waitCmd := FlowArms(stray);
    }

    /** The 'j', 'i', 'I' and 'w' arms: the fields they write; waitCmd keeps the wait alive. */
    method FlowArms(stray: u8) returns (waitCmd: bool)
      requires Valid() && CtrlM.IsFlowCmd(cmd)
      modifies this`scriptPos, this`bigIinput, this`bigIval, this`bigIjump, this`waitTick
      ensures waitCmd == (cmd == WAIT)
      ensures var r := CtrlM.FlowCmd(old(State()), stray);
        && scriptPos == r.scriptPos && waitTick == r.waitTick
        && bigIinput == r.bigIinput && bigIval == r.bigIval && bigIjump == r.bigIjump
    {
      waitCmd := false;
      if cmd == JUMP {
        scriptPos := (scriptPos as int + cmdargs[0] as int - 1) % 0x100;
      } else if cmd == JUMP_IF_INPUT {
        // the computed input index always lies outside inputs[4]: stray is the byte found there
        if stray > cmdargs[1] {
          scriptPos := (scriptPos as int + cmdargs[2] as int - 1) % 0x100;
        }
      } else if cmd == ARM_INPUT_JUMP {
        bigIinput := (cmdargs[0] as int - 0x40) % 0x100;
        bigIval := cmdargs[1];
        bigIjump := cmdargs[2];
      } else {
        waitTick := cmdargs[0] as int + 256 * cmdargs[1] as int;
        waitCmd := true;
      }
    }

    /** The 'O' and '*' arms, and the default arm. */
    method DatagramCmd()
      requires Valid()
      modifies this`waitTick, this`currScriptLen, this`irLog, cmdargs
      ensures Valid() && State() == CtrlM.DatagramCmd(old(State()))
    {
      if cmd == STOP_ALL || cmd == PLAY_COLORSPOT {
        if cmd == STOP_ALL {
          StopAll();
        }
        SendColorspot(COLORSPOT_PLAY);
      } else {
        SendPassthrough();
      }
    }

    /** The 'O' arm's own part: no more script and no more waiting. */
    method StopAll()
      modifies this`waitTick, this`currScriptLen
      ensures State() == CtrlM.StopAll(old(State()))
    {
      waitTick := 0;
      currScriptLen := 0;
    }

    // -------------------------------------------------------------------
    // Script playback

    /** script_do_next_line up to the dispatch: load, adjust the duration, unpack the command. */
    method LoadLine()
      requires Valid()
      modifies this`currLine, this`cmd, cmdargs
      ensures Valid()
      ensures var r := CtrlM.LoadLine(old(State())); currLine == r.currLine && cmd == r.cmd && cmdargs[..] == r.cmdargs
    {
      if currScriptId == 0 {
        currLine := LineAt(ee, scriptPos);  // script_get_next_line_ee
      }
      if timeadj < 0 && (currLine.dur as int) < -(timeadj as int) {
        currLine := currLine.(dur := 0);
      } else {
        currLine := currLine.(dur := (currLine.dur as int + timeadj as int) % 0x100);
      }
      cmd := currLine.cmd;
      cmdargs[0] := currLine.arg1;
      cmdargs[1] := currLine.arg2;
      cmdargs[2] := currLine.arg3;
      assert cmdargs[..] == [currLine.arg1, currLine.arg2, currLine.arg3] + old(cmdargs[..])[3..];
    }

    method ScriptDoNextLine(stray: u8)
      requires Valid()
      modifies this`freemAddr, this`blinkmAddr, this`irFreqval, this`irDutyval, this`irLog, this`scriptPos,
              this`bigIinput, this`bigIval, this`bigIjump, this`waitTick, this`currScriptLen, cmdargs,
              this`currLine, this`cmd
      ensures Valid() && State() == CtrlM.ScriptDoNextLine(old(State()), stray)
    {
      LoadLine();
      HandleScriptCmd(stray);
    }

    method PlayScript(id: u8, reps: u8, pos: u8, stray: u8)
      requires Valid()
      modifies this`freemAddr, this`blinkmAddr, this`irFreqval, this`irDutyval, this`irLog, this`scriptPos,
              this`bigIinput, this`bigIval, this`bigIjump, this`waitTick, this`currScriptLen, cmdargs,
              this`currLine, this`cmd, this`scriptTick, this`currScriptId, this`currScriptReps
      ensures Valid() && State() == CtrlM.PlayScript(old(State()), id, reps, pos, stray)
    {
      StartScript(id, reps, pos);
      ScriptDoNextLine(stray);
    }

    /** play_script up to the first line. */
    method StartScript(id: u8, reps: u8, pos: u8)
      modifies this`scriptTick, this`scriptPos, this`currScriptId, this`currScriptLen, this`currScriptReps
      ensures var r := CtrlM.StartScript(old(State()), id, reps, pos);
        && scriptTick == r.scriptTick && scriptPos == r.scriptPos && currScriptId == r.currScriptId
        && currScriptLen == r.currScriptLen && currScriptReps == r.currScriptReps
    {
      scriptTick := 0;
      scriptPos := pos;
      currScriptId := id;
      if currScriptId == 0 {
        // play_script_ee
        currScriptLen := ee.scriptLen;
        currScriptReps := ee.scriptReps;
      }
      if reps != 0 {
        currScriptReps := reps;
      }
    }

    method HandleScript(stray: u8)
      requires Valid()
      modifies this`freemAddr, this`blinkmAddr, this`irFreqval, this`irDutyval, this`irLog, this`scriptPos,
              this`bigIinput, this`bigIval, this`bigIjump, this`waitTick, this`currScriptLen, cmdargs,
              this`currLine, this`cmd, this`scriptTick, this`currScriptId, this`currScriptReps
      ensures Valid() && State() == CtrlM.HandleScript(old(State()), stray)
    {
      if currScriptLen == 0 {
        return;
      }
      if waitTick > 0 {
        if scriptTick >= SCRIPT_TICKS_PER_WAIT_TICK {
          waitTick := waitTick - 1;
          scriptTick := 0;
        }
        return;
      }
      if scriptTick >= currLine.dur {
        NextStep(stray);
      }
    }

    method NextStep(stray: u8)
      requires Valid()
      modifies this`freemAddr, this`blinkmAddr, this`irFreqval, this`irDutyval, this`irLog, this`scriptPos,
              this`bigIinput, this`bigIval, this`bigIjump, this`waitTick, this`currScriptLen, cmdargs,
              this`currLine, this`cmd, this`scriptTick, this`currScriptId, this`currScriptReps
      ensures Valid() && State() == CtrlM.NextStep(old(State()), stray)
    {
      Advance();
      if scriptPos == currScriptLen {
        var last := currScriptReps == 1;
        EndOfPass();
        if last {
          return;
        }
      }
      ScriptDoNextLine(stray);
    }

    method Advance()
      modifies this`scriptTick, this`scriptPos
      ensures State() == CtrlM.Advance(old(State()))
    {
      scriptTick := 0;
      scriptPos := (scriptPos as int + 1) % 0x100;
    }

    /** Past the last line, as a step of the whole state. */
    method EndOfPass()
      modifies this`scriptPos, this`currScriptReps, this`currScriptLen
      ensures State() == CtrlM.EndOfPass(old(State()))
    {
      CountPass();
    }

    /** Past the last line: back to line 0 and one repeat fewer, or the end of playback. */
    method CountPass()
      modifies this`scriptPos, this`currScriptReps, this`currScriptLen
      ensures var r := CtrlM.EndOfPass(old(State()));
        scriptPos == r.scriptPos && currScriptReps == r.currScriptReps && currScriptLen == r.currScriptLen
    {
      scriptPos := 0;
      currScriptReps := (currScriptReps as int - 1) % 0x100;
      if currScriptReps == 255 {
        currScriptReps := 0;
      } else if currScriptReps == 0 {
        currScriptLen := 0;
      }
    }

    // -------------------------------------------------------------------
    // Inputs and the timer

    method HandleInputs(sda: bool, scl: bool, stray: u8)
      requires Valid()
      modifies inputs, this`scriptPos, this`scriptTick
      ensures Valid()
      ensures var r := CtrlM.HandleInputs(old(State()), sda, scl, stray);
        inputs[..] == r.inputs && scriptPos == r.scriptPos && scriptTick == r.scriptTick
    {
      inputs[0] := if sda then 255 else 0;
      inputs[1] := if scl then 255 else 0;
      assert inputs[..] == [inputs[0], inputs[1]] + old(inputs[..])[2..];
      if bigIinput != 0xFF && bigIval != 0xFF {
        // inputs[bigIinput] reads past the array when bigIinput >= 4
        var v := if bigIinput < 4 then inputs[bigIinput] else stray;
        if v > bigIval {
          scriptPos := (bigIjump as int - 1) % 0x100;
          scriptTick := 255;
        }
      }
    }

    /** The timer 0 overflow interrupt. */
    method Tick()
      modifies this`scriptTick
      ensures State() == CtrlM.Tick(old(State()))
    {
      scriptTick := (scriptTick + 1) % 0x100;
    }

    // -------------------------------------------------------------------
    // handle_i2c

    method HandleI2c(stray: u8)
      requires Valid() && CtrlM.BusReady(State())
      modifies this`freemAddr, this`blinkmAddr, this`irFreqval, this`irDutyval, this`irLog, this`scriptPos,
              this`bigIinput, this`bigIval, this`bigIjump, this`waitTick, this`currScriptLen, cmdargs,
              this`currLine, this`cmd, this`scriptTick, this`currScriptId, this`currScriptReps,
              this`rx, this`tx, this`ee, this`slaveAddr
      ensures Valid() && State() == CtrlM.HandleI2c(old(State()), stray)
    {
      if |rx| == 0 {
        return;
      }
      ReceiveCmd();
      if CtrlM.ForwardsThree(cmd) {
        ReadI2cVals(3);
        HandleScriptCmd(stray);
      } else if cmd == SEND_SONY {
        ReadI2cVals(5);
        BusSendSony();
      } else if cmd == SEND_RAW8 {
        ReadI2cVals(8);
        BusSendRaw8();
      } else if cmd == SET_COLORSPOT {
        ReadI2cVals(4);
        SendColorspot(COLORSPOT_SET);
      } else {
        HandleI2cReply(stray);
      }
    }

    /** The bus '$' arm after its read. */
    method BusSendSony()
      requires Valid()
      modifies this`irLog
      ensures State() == CtrlM.BusSendSony(old(State()))
    {
      if cmdargs[0] == 0 || cmdargs[0] == 1 {
        var p := SendSony(irFreqval, irDutyval, SignExtend16(cmdargs[1] as int * 256 + cmdargs[2] as int), SONY_BITS);
        irLog := irLog + p;
      }
    }

    /** The '!' arm after its read. */
    method BusSendRaw8()
      requires Valid()
      modifies this`irLog
      ensures State() == CtrlM.BusSendRaw8(old(State()))
    {
      var p := SendSonyData64bit(irFreqval, irDutyval, cmdargs);
      assert cmdargs[..8] == cmdargs[..];
      irLog := irLog + p;
    }

    /** The arms of handle_i2c that answer the master or drive the script engine. */
    method HandleI2cReply(stray: u8)
      requires Valid() && |rx| >= ArgCount(cmd)
      requires !CtrlM.ForwardsThree(cmd) && cmd !in {SEND_SONY, SEND_RAW8, SET_COLORSPOT}
      modifies this`freemAddr, this`blinkmAddr, this`irFreqval, this`irDutyval, this`irLog, this`scriptPos,
              this`bigIinput, this`bigIval, this`bigIjump, this`waitTick, this`currScriptLen, cmdargs,
              this`currLine, this`cmd, this`scriptTick, this`currScriptId, this`currScriptReps,
              this`rx, this`tx, this`ee, this`slaveAddr
      ensures Valid() && State() == CtrlM.I2cReply(old(State()), stray)
    {
      if cmd == GET_ADDR {
        TransmitByte(ee.i2cAddr);
      } else if cmd == SET_ADDR {
        SetAddr();
      } else if cmd == GET_VERSION {
        TransmitByte(VERSION_MAJOR);
        TransmitByte(VERSION_MINOR);
      } else if cmd == PLAY_CTRLM_SCRIPT {
        ReadI2cVals(3);
        PlayScript(0, cmdargs[1], cmdargs[2], stray);
      } else if cmd == FADE_SPEED || cmd == TIME_ADJ {
        ReadI2cVals(1);
        HandleScriptCmd(stray);
        HandleScriptCmd(stray);  // falls through into the 'o' arm
      } else if cmd == STOP_SCRIPT || cmd == STOP_ALL {
        HandleScriptCmd(stray);
      } else if cmd == GET_SCRIPT_LEN {
        ScriptLenReply();
        TransmitInputs();  // falls through into the 'i' arm
      } else if cmd == GET_INPUTS {
        TransmitInputs();
      }
    }

    /** The 'A' arm, as a step of the whole state. */
    method SetAddr()
      requires Valid() && |rx| >= 4
      modifies cmdargs, this`rx, this`ee, this`slaveAddr
      ensures Valid() && State() == CtrlM.SetAddr(old(State()))
    {
      SetAddrArm();
    }

    /** The 'A' arm: the fields it writes. */
    method SetAddrArm()
      requires Valid() && |rx| >= 4
      modifies cmdargs, this`rx, this`ee, this`slaveAddr
      ensures Valid()
      ensures var r := CtrlM.SetAddr(old(State()));
        cmdargs[..] == r.cmdargs && rx == r.rx && ee == r.ee && slaveAddr == r.slaveAddr
    {
      cmdargs[0], cmdargs[1], cmdargs[2], cmdargs[3] := 0, 0, 0, 0;
      assert cmdargs[..] == [0, 0, 0, 0] + old(cmdargs[..])[4..];
      ReceiveArgs(4);
      if cmdargs[0] != 0 && cmdargs[0] == cmdargs[3] && cmdargs[1] == ADDR_MAGIC1 && cmdargs[2] == ADDR_MAGIC2 {
        ee := ee.(i2cAddr := cmdargs[0]);  // eeprom_write_byte
        slaveAddr := cmdargs[0];            // usiTwiSlaveInit
      }
    }

    /** The 'l' arm up to its fall-through. */
    method ScriptLenReply()
      requires Valid() && |rx| >= 1
      modifies cmdargs, this`rx, this`tx
      ensures Valid()
      ensures State() == CtrlM.ScriptLenReply(old(State()))
    {
      ReadI2cVals(1);
      if cmdargs[0] == 0 {
        TransmitByte(ee.scriptLen);
        TransmitByte(ee.scriptReps);
      }
    }

    /** The 'i' arm: the four input values to the master. */
    method TransmitInputs()
      requires Valid()
      modifies this`tx
      ensures State() == CtrlM.SendInputs(old(State()))
    {
      TransmitByte(inputs[0]);
      TransmitByte(inputs[1]);
      TransmitByte(inputs[2]);
      TransmitByte(inputs[3]);
      assert tx == old(tx) + inputs[..];
    }

    // -------------------------------------------------------------------
    // main

    /** One turn of main's endless loop. */
    method Step(sda: bool, scl: bool, busStray: u8, inputStray: u8, scriptStray: u8)
      requires Valid() && CtrlM.BusReady(State())
      modifies this`freemAddr, this`blinkmAddr, this`irFreqval, this`irDutyval, this`irLog, this`scriptPos,
              this`bigIinput, this`bigIval, this`bigIjump, this`waitTick, this`currScriptLen, cmdargs,
              this`currLine, this`cmd, this`scriptTick, this`currScriptId, this`currScriptReps,
              this`rx, this`tx, this`ee, this`slaveAddr, inputs
      ensures Valid()
      ensures State() == CtrlM.LoopStep(old(State()), sda, scl, busStray, inputStray, scriptStray)
    {
      HandleI2c(busStray);
      HandleInputs(sda, scl, inputStray);
      HandleScript(scriptStray);
    }
  }
}
