/**
 * The one-byte command codes of the CtrlM bus and script protocol
 * (ctrlm.c:264-394 and 409-527), and the argument counts the bus front end
 * reads for each.
 */
module Opcodes {
  import opened MachineInts

  // CtrlM-only commands
  const SET_ADDRS: u8 := '@' as int        // {'@', freem_addr, blinkm_addr, 0}
  const SET_IR_FREQ: u8 := '#' as int      // {'#', freq_msb, freq_lsb, duty}
  const IR_LED: u8 := '%' as int           // {'%', on, 0, 0}
  const PACKET_WAIT: u8 := '&' as int      // its handler is commented out
  const SEND_SONY: u8 := '$' as int        // {'$', type, cmd_hi, cmd_lo, ...}
  const SEND_RAW8: u8 := '!' as int        // eight bytes sent verbatim
  const SET_COLORSPOT: u8 := '^' as int    // {'^', pos, r, g, b}
  const PLAY_COLORSPOT: u8 := '*' as int   // {'*', pos, cmd, 0}
  const GET_ADDR: u8 := 'a' as int
  const SET_ADDR: u8 := 'A' as int         // {'A', addr, 0xD0, 0x0D, addr}
  const GET_VERSION: u8 := 'Z' as int
  const PLAY_CTRLM_SCRIPT: u8 := 'P' as int

  // BlinkM commands, forwarded over IR
  const SET_RGB: u8 := 'n' as int
  const FADE_RGB: u8 := 'c' as int
  const FADE_RANDOM_RGB: u8 := 'C' as int
  const FADE_HSV: u8 := 'h' as int
  const FADE_RANDOM_HSV: u8 := 'H' as int
  const PLAY_SCRIPT: u8 := 'p' as int
  const FADE_SPEED: u8 := 'f' as int
  const TIME_ADJ: u8 := 't' as int
  const STOP_SCRIPT: u8 := 'o' as int
  const STOP_ALL: u8 := 'O' as int
  const GET_SCRIPT_LEN: u8 := 'l' as int
  const GET_INPUTS: u8 := 'i' as int

  // Script-only commands
  const JUMP: u8 := 'j' as int             // relative jump
  const JUMP_IF_INPUT: u8 := 'i' as int    // the script reading of 'i'
  const ARM_INPUT_JUMP: u8 := 'I' as int   // absolute jump when an input passes a level
  const WAIT: u8 := 'w' as int

  /** The returned protocol version, 'b' 'b'. */
  const VERSION_MAJOR: u8 := 'b' as int
  const VERSION_MINOR: u8 := 'b' as int

  /** The IR datagram's start byte and the colorspot selectors in its address byte. */
  const START_BYTE: u8 := 0x55
  const COLORSPOT_SET: u8 := 0xFE
  const COLORSPOT_PLAY: u8 := 0xFD

  /** The magic bytes that must surround a new bus address. */
  const ADDR_MAGIC1: u8 := 0xD0
  const ADDR_MAGIC2: u8 := 0x0D

  /**
   * How many argument bytes handle_i2c reads after the command byte
   * (ctrlm.c:409-518); a command with no case reads none.
   */
  function ArgCount(c: u8): (n: nat)
    ensures n <= 8
    ensures c == SEND_RAW8 <==> n == 8
  {
    if c in {SET_ADDRS, SET_IR_FREQ, IR_LED, PACKET_WAIT, PLAY_COLORSPOT, PLAY_CTRLM_SCRIPT,
             SET_RGB, FADE_RGB, FADE_RANDOM_RGB, FADE_HSV, FADE_RANDOM_HSV, PLAY_SCRIPT} then 3
    else if c == SEND_SONY then 5
    else if c == SEND_RAW8 then 8
    else if c in {SET_COLORSPOT, SET_ADDR} then 4
    else if c in {FADE_SPEED, TIME_ADJ, GET_SCRIPT_LEN} then 1
    else 0
  }

  /**
   * '#' divides by the requested frequency and by the duty argument; the
   * command is defined only when both are nonzero.
   */
  predicate DispatchDefined(c: u8, a0: u8, a1: u8, a2: u8)
  {
    c == SET_IR_FREQ ==> a0 * 256 + a1 != 0 && a2 != 0
  }
}
