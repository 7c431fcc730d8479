/**
 * The persistent data of the CtrlM firmware (ctrlm_nonvol_data.h): the record
 * shapes of a script, the timing and boot constants, and the EEPROM image the
 * firmware ships with.
 */
module NonVol {
  import opened MachineInts
  import opened Opcodes

  /** The default bus address, unless the build predefines another. */
  const I2C_ADDR: u8 := 0x09

  /** Script ticks per unit of a 'w'ait command. */
  const SCRIPT_TICKS_PER_WAIT_TICK: u8 := 153

  /** The script tick: timer 0 overflows every 1024 * 256 cycles of the 8 MHz clock. */
  const CYCLES_PER_SCRIPT_TICK: nat := 1024 * 256

  // Values of the boot mode byte
  const BOOT_NOTHING: u8 := 0
  const BOOT_PLAY_SCRIPT: u8 := 1
  const BOOT_MODE_END: u8 := 2

  const MAX_EE_SCRIPT_LEN: nat := 49

  /** `script_line`: a duration in script ticks and the command {cmd, arg1, arg2, arg3}. */
  datatype ScriptLine = ScriptLine(dur: u8, cmd: u8, arg1: u8, arg2: u8, arg3: u8)

  /** A line the interpreter can execute without a division by zero. */
  type SafeLine = l: ScriptLine | DispatchDefined(l.cmd, l.arg1, l.arg2, l.arg3)
    witness ScriptLine(0, 0, 0, 0, 0)

  /** Erased EEPROM reads as 0xFF. */
  const ERASED: u8 := 0xFF
  const ERASED_LINE: SafeLine := ScriptLine(ERASED, ERASED, ERASED, ERASED, ERASED)

  /**
   * The EEPROM image: the single bytes at its start, then the `script` record
   * (`len`, `reps`, and its lines). `len == 0` is a blank script and
   * `reps == 0` repeats forever.
   */
  datatype Store = Store(
    i2cAddr: u8,
    bootMode: u8,
    bootScriptId: u8,
    bootReps: u8,
    bootFadespeed: u8,
    bootTimeadj: u8,
    unused2: u8,
    scriptLen: u8,
    scriptReps: u8,
    lines: seq<SafeLine>)

  /**
   * Line `pos` of the stored script. The interpreter reads by position alone,
   * so any position up to 255 reads some EEPROM bytes: past the recorded lines
   * they are erased.
   */
  function LineAt(ee: Store, pos: u8): (l: SafeLine)
    ensures pos as int < |ee.lines| ==> l == ee.lines[pos]
    ensures pos as int >= |ee.lines| ==> l == ERASED_LINE
  {
    if pos as int < |ee.lines| then ee.lines[pos] else ERASED_LINE
  }

  /** The EEPROM contents the firmware is built with. */
  function DefaultStore(): (ee: Store)
    ensures ee.i2cAddr == I2C_ADDR && ee.bootMode == BOOT_NOTHING
    ensures ee.scriptLen as int == |ee.lines| <= MAX_EE_SCRIPT_LEN
    ensures ee.scriptReps == 0
  {
    Store(I2C_ADDR, BOOT_NOTHING, 0x00, 0x00, 0x08, 0x00, 0xDA, 6, 0, DefaultScript())
  }

  function DefaultScript(): seq<SafeLine>
  {
    [ ScriptLine(0, FADE_SPEED, 0x22, 0x33, 0x44),
      ScriptLine(0, STOP_SCRIPT, 0x00, 0x00, 0x00),
      ScriptLine(10, FADE_RGB, 0x33, 0x66, 0x00),
      ScriptLine(10, FADE_RGB, 0x11, 0x11, 0x11),
      ScriptLine(10, FADE_RGB, 0x00, 0x66, 0x33),
      ScriptLine(10, FADE_RGB, 0xff, 0xff, 0xff) ]
  }

  /** The shipped script: two zero-duration lines, then four 10-tick fades, forever. */
  lemma DefaultScriptShape()
    ensures var s := DefaultStore();
      && s.lines[0].dur == 0 && s.lines[0].cmd == FADE_SPEED
      && s.lines[1].dur == 0 && s.lines[1].cmd == STOP_SCRIPT
      && (forall k :: 2 <= k < 6 ==> s.lines[k].dur == 10 && s.lines[k].cmd == FADE_RGB)
  {
  }

  /** One wait unit is 153 ticks of 1024 * 256 cycles at 8 MHz, a little over 5 s. */
  lemma WaitUnitSeconds()
    ensures 5013 * F_CPU <= SCRIPT_TICKS_PER_WAIT_TICK as nat * CYCLES_PER_SCRIPT_TICK * 1000 < 5014 * F_CPU
  {
  }
}
