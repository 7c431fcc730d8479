/**
 * The CtrlM command engine (ctrlm.c) as functions on the whole machine state.
 *
 * A `Machine` holds every global of the firmware, together with what the
 * firmware's environment sees: the IR pulse log, the bytes the bus master has
 * written and not yet been read, the bytes the firmware has queued for the
 * master, the EEPROM and the bus address the transceiver answers to.
 *
 * Each function below is one routine of ctrlm.c; the class in
 * ctrlm_firmware.dfy runs the same routines step by step on mutable fields
 * and is proved to agree with these functions.
 */
module CtrlM {
  import opened MachineInts
  import opened IRSend
  import opened Opcodes
  import opened NonVol

  /** ir_freqval at power-on on the ATtiny85, and the 33% duty value derived from it. */
  const DEFAULT_FREQVAL: u8 := 210
  const DEFAULT_DUTYVAL: u8 := 70

  datatype Machine = Machine(
    inputs: seq<u8>,          // inputs[4]
    timeadj: i8,
    currLine: SafeLine,       // curr_line
    currScriptLen: u8,
    currScriptReps: u8,
    currScriptId: u8,
    scriptTick: u8,
    scriptPos: u8,
    cmd: u8,
    cmdargs: seq<u8>,         // cmdargs[8]
    bigIinput: u8,
    bigIval: u8,
    bigIjump: u8,
    waitTick: u16,
    blinkmAddr: u8,
    freemAddr: u8,
    irFreqval: u8,
    irDutyval: u8,
    irLog: seq<IrEvent>,      // everything IRsend has emitted, oldest first
    rx: seq<u8>,              // bytes written by the bus master, not yet read
    tx: seq<u8>,              // bytes queued for the bus master
    ee: Store,                // the EEPROM
    slaveAddr: u8)            // the address the bus transceiver answers to

  /** The fixed-size arrays have their declared sizes. */
  predicate Valid(m: Machine)
  {
    |m.inputs| == 4 && |m.cmdargs| == 8
  }

  /** handle_script_cmd is defined on the current command and arguments. */
  predicate Dispatchable(m: Machine)
  {
    Valid(m) && DispatchDefined(m.cmd, m.cmdargs[0], m.cmdargs[1], m.cmdargs[2])
  }

  // ---------------------------------------------------------------------
  // Datagrams

  /** The sum of the bytes of s, without overflow. */
  function Sum(s: seq<u8>): nat
  {
    if s == [] then 0 else Sum(s[..|s| - 1]) + s[|s| - 1]
  }

  /** compute_checksum: the 8-bit sum of the bytes. */
  function Checksum(s: seq<u8>): u8
  {
    Sum(s) % 0x100
  }

  /** A datagram's first seven bytes written over cmdargs[0..7). */
  function Stage(m: Machine, d: seq<u8>): (r: Machine)
    requires Valid(m) && |d| == 7
    ensures Valid(r)
  {
    m.(cmdargs := d + m.cmdargs[7..])
  }

  /** cmdargs[7] gets the checksum of cmdargs[0..7), then all eight bytes go out over IR. */
  function Seal(m: Machine): (r: Machine)
    requires Valid(m)
    ensures Valid(r)
  {
    var d := m.cmdargs[..7];
    var buf := d + [Checksum(d)];
    m.(cmdargs := buf, irLog := m.irLog + Sony64Frame(m.irFreqval, m.irDutyval, buf))
  }

  /** Sends the datagram d, completed with its checksum, through the cmdargs buffer. */
  function SendDatagram(m: Machine, d: seq<u8>): (r: Machine)
    requires Valid(m) && |d| == 7
    ensures Valid(r)
  {
    Seal(Stage(m, d))
  }

  /** The default arm's datagram: the command and its three arguments, addressed to the BlinkM. */
  function PassthroughDatagram(m: Machine): (d: seq<u8>)
    requires Valid(m)
    ensures |d| == 7
  {
    var a := m.cmdargs;
    [START_BYTE, m.freemAddr, m.blinkmAddr, m.cmd, a[0], a[1], a[2]]
  }

  /** A colorspot datagram: the selector byte, then cmdargs[0..4). */
  function ColorspotDatagram(m: Machine, sel: u8): (d: seq<u8>)
    requires Valid(m)
    ensures |d| == 7
  {
    var a := m.cmdargs;
    [START_BYTE, m.freemAddr, sel, a[0], a[1], a[2], a[3]]
  }

  // ---------------------------------------------------------------------
  // handle_script_cmd (ctrlm.c:259-399)

  /** What a command leaves alone: the routines around the dispatcher rely on these. */
  predicate KeepsContext(m: Machine, r: Machine)
  {
    && r.cmd == m.cmd && r.currLine == m.currLine && r.scriptTick == m.scriptTick
    && r.currScriptId == m.currScriptId && r.currScriptReps == m.currScriptReps
    && r.timeadj == m.timeadj && r.inputs == m.inputs
    && r.rx == m.rx && r.tx == m.tx && r.ee == m.ee && r.slaveAddr == m.slaveAddr
  }

  /** The arms that change the IR settings or drive the LED directly. */
  predicate IsSettingCmd(c: u8)
  {
    c in {SET_ADDRS, SET_IR_FREQ, IR_LED, SEND_SONY}
  }

  /** The arms that steer script playback. */
  predicate IsFlowCmd(c: u8)
  {
    c in {JUMP, JUMP_IF_INPUT, ARM_INPUT_JUMP, WAIT}
  }

  function ScriptCmd(m: Machine, stray: u8): (r: Machine)
    requires Dispatchable(m)
    ensures Valid(r) && KeepsContext(m, r)
    ensures r.waitTick == if m.cmd == WAIT then m.cmdargs[0] as int + 256 * m.cmdargs[1] as int else 0
    ensures r.currScriptLen == if m.cmd == STOP_ALL then 0 else m.currScriptLen
  {
    var r :=
      if IsSettingCmd(m.cmd) then SettingCmd(m)
      else if IsFlowCmd(m.cmd) then FlowCmd(m, stray)
      else DatagramCmd(m);
    // every command but 'w' cancels a pending wait
    if m.cmd == WAIT then r else r.(waitTick := 0)
  }

  function SettingCmd(m: Machine): (r: Machine)
    requires Dispatchable(m) && IsSettingCmd(m.cmd)
    ensures Valid(r) && KeepsContext(m, r) && r.waitTick == m.waitTick
  {
    var a := m.cmdargs;
    var c := m.cmd;
    if c == SET_ADDRS then
      m.(freemAddr := a[0], blinkmAddr := a[1])
    else if c == SET_IR_FREQ then
      var val := FreqToTimer1Val(a[0] as int * 256 + a[1] as int) % 0x1_0000;
      m.(irFreqval := val % 0x100, irDutyval := ((val * 100) % 0x1_0000 / a[2]) % 0x100)
    else if c == IR_LED then
      if a[0] != 0 then m.(irLog := m.irLog + [Carrier(m.irFreqval, m.irDutyval), IrOn])
      else m.(irLog := m.irLog + [IrOff])
    else
      m.(irLog := m.irLog + SonyFrame(m.irFreqval, m.irDutyval, a[0] as int * 256 + a[1] as int, SONY_BITS as nat))
  }

  function FlowCmd(m: Machine, stray: u8): (r: Machine)
    requires Valid(m) && IsFlowCmd(m.cmd)
    ensures Valid(r) && KeepsContext(m, r)
    ensures m.cmd != WAIT ==> r.waitTick == m.waitTick
  {
    var a := m.cmdargs;
    var c := m.cmd;
    if c == JUMP then
      m.(scriptPos := (m.scriptPos as int + a[0] as int - 1) % 0x100)
    else if c == JUMP_IF_INPUT then
      // the input index is out of the bounds of inputs[4] whatever a[0] is: stray is the byte read
      if stray > a[1] then m.(scriptPos := (m.scriptPos as int + a[2] as int - 1) % 0x100) else m
    else if c == ARM_INPUT_JUMP then
      m.(bigIinput := (a[0] as int - 0x40) % 0x100, bigIval := a[1], bigIjump := a[2])
    else
      m.(waitTick := a[0] as int + 256 * a[1] as int)
  }

  /** SettingCmd changes the BlinkM and FreeM addresses, the IR settings and the IR log, nothing else. */
  lemma SettingCmdFrame(m: Machine)
    requires Dispatchable(m) && IsSettingCmd(m.cmd)
    ensures var r := SettingCmd(m);
      r == m.(freemAddr := r.freemAddr, blinkmAddr := r.blinkmAddr,
              irFreqval := r.irFreqval, irDutyval := r.irDutyval, irLog := r.irLog)
  {
  }

  /** FlowCmd changes the position, the wait and the input jump, nothing else. */
  lemma FlowCmdFrame(m: Machine, stray: u8)
    requires Valid(m) && IsFlowCmd(m.cmd)
    ensures var r := FlowCmd(m, stray);
      r == m.(scriptPos := r.scriptPos, waitTick := r.waitTick,
              bigIinput := r.bigIinput, bigIval := r.bigIval, bigIjump := r.bigIjump)
  {
  }

  /** 'O', '*' and every other command: a datagram goes out over IR. */
  function DatagramCmd(m: Machine): (r: Machine)
    requires Valid(m)
    ensures Valid(r) && KeepsContext(m, r)
  {
    // 'O' falls through into '*'
    var m1 := if m.cmd == STOP_ALL then StopAll(m) else m;
    var d := if m.cmd in {STOP_ALL, PLAY_COLORSPOT} then ColorspotDatagram(m1, COLORSPOT_PLAY) else PassthroughDatagram(m1);
    SendDatagram(m1, d)
  }

  /** 'O' stops the script and any wait before it sends its datagram. */
  function StopAll(m: Machine): (r: Machine)
  {
    m.(waitTick := 0, currScriptLen := 0)
  }

  // ---------------------------------------------------------------------
  // Script playback (ctrlm.c:540-626)

  /** The loaded duration after the time adjustment of script_do_next_line. */
  function AdjustDur(dur: u8, timeadj: i8): (d: u8)
    ensures timeadj <= 0 ==> d == if dur + timeadj < 0 then 0 else dur + timeadj
    ensures timeadj >= 0 ==> d == (dur + timeadj) % 0x100
  {
    if timeadj < 0 && (dur as int) < -(timeadj as int) then 0 else (dur as int + timeadj as int) % 0x100
  }

  /** The line script_do_next_line loads: only script 0, the EEPROM one, is ever loaded. */
  function NextLine(m: Machine): SafeLine
  {
    if m.currScriptId == 0 then LineAt(m.ee, m.scriptPos) else m.currLine
  }

  /** The first half of script_do_next_line: the line, its adjusted duration, its command. */
  function LoadLine(m: Machine): (r: Machine)
    requires Valid(m)
    ensures Dispatchable(r)
  {
    var line := NextLine(m);
    var adjusted: SafeLine := line.(dur := AdjustDur(line.dur, m.timeadj));
    m.(currLine := adjusted, cmd := line.cmd, cmdargs := [line.arg1, line.arg2, line.arg3] + m.cmdargs[3..])
  }

  function ScriptDoNextLine(m: Machine, stray: u8): (r: Machine)
    requires Valid(m)
    ensures Valid(r)
    ensures r.cmd == NextLine(m).cmd
    ensures r.currLine == NextLine(m).(dur := AdjustDur(NextLine(m).dur, m.timeadj))
    ensures r.scriptTick == m.scriptTick && r.currScriptReps == m.currScriptReps && r.currScriptId == m.currScriptId
    ensures r.currScriptLen == if NextLine(m).cmd == STOP_ALL then 0 else m.currScriptLen
    ensures r.rx == m.rx && r.tx == m.tx && r.ee == m.ee && r.slaveAddr == m.slaveAddr
  {
    ScriptCmd(LoadLine(m), stray)
  }

  function PlayScript(m: Machine, id: u8, reps: u8, pos: u8, stray: u8): (r: Machine)
    requires Valid(m)
    ensures Valid(r)
    ensures r.scriptTick == 0 && r.currScriptId == id
    ensures r.currScriptReps == if reps != 0 then reps else if id == 0 then m.ee.scriptReps else m.currScriptReps
    ensures r.rx == m.rx && r.tx == m.tx && r.ee == m.ee && r.slaveAddr == m.slaveAddr
  {
    ScriptDoNextLine(StartScript(m, id, reps, pos), stray)
  }

  /** The set-up of play_script: the clock, the position, the script and its repeat count. */
  function StartScript(m: Machine, id: u8, reps: u8, pos: u8): (r: Machine)
  {
    var m1 := m.(scriptTick := 0, scriptPos := pos, currScriptId := id);
    var m2 := if id == 0 then m1.(currScriptLen := m.ee.scriptLen, currScriptReps := m.ee.scriptReps) else m1;
    if reps != 0 then m2.(currScriptReps := reps) else m2
  }

  function HandleScript(m: Machine, stray: u8): (r: Machine)
    requires Valid(m)
    ensures Valid(r)
    ensures m.currScriptLen == 0 ==> r == m
    ensures r.rx == m.rx && r.tx == m.tx && r.ee == m.ee && r.slaveAddr == m.slaveAddr
  {
    if m.currScriptLen == 0 then m
    else if m.waitTick > 0 then
      if m.scriptTick >= SCRIPT_TICKS_PER_WAIT_TICK then m.(waitTick := m.waitTick - 1, scriptTick := 0)
      else m
    else if m.scriptTick >= m.currLine.dur then NextStep(m, stray)
    else m
  }

  /** The current line's time is up: the clock restarts and the position moves on. */
  function Advance(m: Machine): (r: Machine)
  {
    m.(scriptTick := 0, scriptPos := (m.scriptPos as int + 1) % 0x100)
  }

  /** Past the last line: back to line 0, one repeat fewer; the last repeat stops playback. */
  function EndOfPass(m: Machine): (r: Machine)
  {
    var reps := (m.currScriptReps as int - 1) % 0x100;
    var m1 := m.(scriptPos := 0, currScriptReps := if reps == 255 then 0 else reps);
    if reps == 0 then m1.(currScriptLen := 0) else m1
  }

  /** handle_script once the current line's time is up: on to the next line. */
  function NextStep(m: Machine, stray: u8): (r: Machine)
    requires Valid(m)
    ensures Valid(r)
    ensures r.rx == m.rx && r.tx == m.tx && r.ee == m.ee && r.slaveAddr == m.slaveAddr
  {
    var m1 := Advance(m);
    var atEnd := m1.scriptPos == m1.currScriptLen;
    var m2 := if atEnd then EndOfPass(m1) else m1;
    // the last repeat stops playback without loading another line
    if atEnd && m1.currScriptReps == 1 then m2 else ScriptDoNextLine(m2, stray)
  }

  // ---------------------------------------------------------------------
  // Inputs and the timer (ctrlm.c:632-648, 769-772)

  /**
   * handle_inputs with the levels of the SDA and SCL pins. inputs[bigIinput]
   * past the end of inputs[4] reads a byte of other memory: stray.
   */
  function HandleInputs(m: Machine, sda: bool, scl: bool, stray: u8): (r: Machine)
    requires Valid(m)
    ensures Valid(r)
    ensures r.inputs[0] == (if sda then 255 else 0) && r.inputs[1] == (if scl then 255 else 0)
    ensures r.inputs[2..] == m.inputs[2..]
    ensures r.rx == m.rx && r.tx == m.tx && r.irLog == m.irLog && r.ee == m.ee
  {
    var ins := [if sda then 255 else 0, if scl then 255 else 0] + m.inputs[2..];
    var m1 := m.(inputs := ins);
    if m.bigIinput != 0xFF && m.bigIval != 0xFF then
      var v := if m.bigIinput < 4 then ins[m.bigIinput] else stray;
      if v > m.bigIval then m1.(scriptPos := (m.bigIjump - 1) % 0x100, scriptTick := 255) else m1
    else m1
  }

  /** The timer 0 overflow interrupt. */
  function Tick(m: Machine): (r: Machine)
    ensures r.scriptTick == (m.scriptTick + 1) % 0x100
  {
    m.(scriptTick := (m.scriptTick + 1) % 0x100)
  }

  // ---------------------------------------------------------------------
  // handle_i2c (ctrlm.c:404-529)

  /** read_i2c_vals(n): the next n bus bytes go to cmdargs[0..n). */
  function ReadVals(m: Machine, n: nat): (r: Machine)
    requires Valid(m) && n <= 8 && n <= |m.rx|
    ensures Valid(r)
  {
    m.(cmdargs := m.rx[..n] + m.cmdargs[n..], rx := m.rx[n..])
  }

  /** 'A' writes the address only when it comes twice around the two magic bytes. */
  predicate AddrGuard(a: seq<u8>)
    requires |a| >= 4
  {
    a[0] != 0 && a[0] == a[3] && a[1] == ADDR_MAGIC1 && a[2] == ADDR_MAGIC2
  }

  /**
   * The bus reads block until their bytes arrive; here the master must have
   * written the whole command, and a '#' must carry a nonzero frequency and duty.
   */
  predicate BusReady(m: Machine)
  {
    Valid(m) &&
    (|m.rx| > 0 ==>
       |m.rx| > ArgCount(m.rx[0]) &&
       (m.rx[0] == SET_IR_FREQ ==> DispatchDefined(SET_IR_FREQ, m.rx[1], m.rx[2], m.rx[3])))
  }

  /** The opcodes that handle_i2c reads three arguments for and hands to handle_script_cmd. */
  predicate ForwardsThree(c: u8)
  {
    c in {SET_ADDRS, SET_IR_FREQ, IR_LED, PACKET_WAIT, PLAY_COLORSPOT,
          SET_RGB, FADE_RGB, FADE_RANDOM_RGB, FADE_HSV, FADE_RANDOM_HSV, PLAY_SCRIPT}
  }

  function HandleI2c(m: Machine, stray: u8): (r: Machine)
    requires BusReady(m)
    ensures Valid(r)
    ensures |m.rx| == 0 ==> r == m
    ensures |m.rx| > 0 ==> r.cmd == m.rx[0] || m.rx[0] == PLAY_CTRLM_SCRIPT
    ensures |m.rx| > 0 ==> r.rx == m.rx[1 + ArgCount(m.rx[0])..]
  {
    if |m.rx| == 0 then m
    else
      var c := m.rx[0];
      var m0 := TakeCmd(m);
      if ForwardsThree(c) then
        ScriptCmd(ReadVals(m0, 3), stray)
      else if c == SEND_SONY then
        BusSendSony(ReadVals(m0, 5))
      else if c == SEND_RAW8 then
        BusSendRaw8(ReadVals(m0, 8))
      else if c == SET_COLORSPOT then
        var m1 := ReadVals(m0, 4);
        SendDatagram(m1, ColorspotDatagram(m1, COLORSPOT_SET))
      else
        I2cReply(m0, stray)
  }

  /**
   * The bus '$' arm, its five bytes read: types 0 and 1 send the Sony code
   * cmdargs[1..3), which passes through a 16-bit int into the 32-bit data argument.
   */
  function BusSendSony(m: Machine): (r: Machine)
    requires Valid(m)
  {
    var a := m.cmdargs;
    if a[0] == 0 || a[0] == 1 then
      m.(irLog := m.irLog + SonyFrame(m.irFreqval, m.irDutyval, SignExtend16(a[1] as int * 256 + a[2] as int), SONY_BITS as nat))
    else m
  }

  /** The '!' arm, its eight bytes read: they go out as they are, checksum or not. */
  function BusSendRaw8(m: Machine): (r: Machine)
    requires Valid(m)
  {
    m.(irLog := m.irLog + Sony64Frame(m.irFreqval, m.irDutyval, m.cmdargs))
  }

  /** The command byte is read off the bus into cmd. */
  function TakeCmd(m: Machine): (r: Machine)
    requires |m.rx| > 0
  {
    m.(cmd := m.rx[0], rx := m.rx[1..])
  }

  /** The arms of handle_i2c that answer the master or drive the script engine; cmd is read. */
  function I2cReply(m: Machine, stray: u8): (r: Machine)
    requires Valid(m) && |m.rx| >= ArgCount(m.cmd)
    requires !ForwardsThree(m.cmd) && m.cmd !in {SEND_SONY, SEND_RAW8, SET_COLORSPOT}
    ensures Valid(r)
    ensures r.rx == m.rx[ArgCount(m.cmd)..]
    ensures m.cmd != PLAY_CTRLM_SCRIPT ==> r.cmd == m.cmd
  {
    var c := m.cmd;
    if c == GET_ADDR then
      m.(tx := m.tx + [m.ee.i2cAddr])
    else if c == SET_ADDR then
      SetAddr(m)
    else if c == GET_VERSION then
      m.(tx := m.tx + [VERSION_MAJOR, VERSION_MINOR])
    else if c == PLAY_CTRLM_SCRIPT then
      var m1 := ReadVals(m, 3);
      PlayScript(m1, 0, m1.cmdargs[1], m1.cmdargs[2], stray)
    else if c == FADE_SPEED || c == TIME_ADJ then
      // falls through into the 'o' arm: a second dispatch on the rewritten cmdargs
      ScriptCmd(ScriptCmd(ReadVals(m, 1), stray), stray)
    else if c == STOP_SCRIPT || c == STOP_ALL then
      ScriptCmd(m, stray)
    else if c == GET_SCRIPT_LEN then
      SendInputs(ScriptLenReply(m))  // falls through into the 'i' arm
    else if c == GET_INPUTS then
      SendInputs(m)
    else
      m
  }

  /** The 'A' arm: four bytes over a zeroed cmdargs[0..4), then the guarded address change. */
  function SetAddr(m: Machine): (r: Machine)
    requires Valid(m) && |m.rx| >= 4
    ensures Valid(r)
  {
    var m1 := ReadVals(m.(cmdargs := [0, 0, 0, 0] + m.cmdargs[4..]), 4);
    if AddrGuard(m1.cmdargs) then m1.(ee := m1.ee.(i2cAddr := m1.cmdargs[0]), slaveAddr := m1.cmdargs[0])
    else m1
  }

  /** The 'l' arm's own part: with a zero argument, the stored script's length and repeats. */
  function ScriptLenReply(m: Machine): (r: Machine)
    requires Valid(m) && |m.rx| >= 1
    ensures Valid(r)
  {
    var m1 := ReadVals(m, 1);
    if m1.cmdargs[0] == 0 then m1.(tx := m1.tx + [m1.ee.scriptLen, m1.ee.scriptReps]) else m1
  }

  /** The 'i' arm: the four input values go to the master. */
  function SendInputs(m: Machine): (r: Machine)
  {
    m.(tx := m.tx + m.inputs)
  }

  // ---------------------------------------------------------------------
  // Boot (ctrlm.c:730-745)

  /** The globals as the C runtime initialises them. */
  function PowerOn(ee: Store): (m: Machine)
    ensures Valid(m)
  {
    Machine(
      inputs := [0, 0, 0, 0], timeadj := 0, currLine := ScriptLine(0, 0, 0, 0, 0),
      currScriptLen := 0, currScriptReps := 0, currScriptId := 0,
      scriptTick := 0, scriptPos := 0, cmd := 0, cmdargs := [0, 0, 0, 0, 0, 0, 0, 0],
      bigIinput := 0xFF, bigIval := 0xFF, bigIjump := 0, waitTick := 0,
      blinkmAddr := 0x09, freemAddr := 0x00,
      irFreqval := DEFAULT_FREQVAL, irDutyval := DEFAULT_DUTYVAL,
      irLog := [], rx := [], tx := [], ee := ee, slaveAddr := 0)
  }

  /** The bus address used at boot: the stored one unless it is 0 or not a 7-bit address. */
  function BootAddr(stored: u8): (a: u8)
    ensures 1 <= a <= 0x7F
    ensures a == stored <==> 1 <= stored <= 0x7F
  {
    if stored == 0 || stored > 0x7F then I2C_ADDR else stored
  }

  function Boot(ee: Store, stray: u8): (m: Machine)
    ensures Valid(m)
    ensures m.slaveAddr == BootAddr(ee.i2cAddr) && m.ee == ee
    ensures m.timeadj == ToI8(ee.bootTimeadj)
  {
    var m := PowerOn(ee).(slaveAddr := BootAddr(ee.i2cAddr), timeadj := ToI8(ee.bootTimeadj));
    if ee.bootMode == BOOT_PLAY_SCRIPT then PlayScript(m, ee.bootScriptId, ee.bootReps, 0, stray) else m
  }

  /** One turn of main's endless loop. */
  function LoopStep(m: Machine, sda: bool, scl: bool, busStray: u8, inputStray: u8, scriptStray: u8): (r: Machine)
    requires BusReady(m)
    ensures Valid(r)
  {
    HandleScript(HandleInputs(HandleI2c(m, busStray), sda, scl, inputStray), scriptStray)
  }
}
