# CtrlM firmware, modelled and verified in Dafny

CtrlM is the firmware of a small ATtiny board that bridges an I2C bus and
infrared. An I2C master writes BlinkM-style commands to it, for example
`{'c', r, g, b}` "fade to this colour". CtrlM forwards each one over IR to
BlinkMs that sit on FreeM receivers. Every forwarded command goes out as an
8-byte datagram, `{0x55, freem_addr, blinkm_addr, cmd, a1, a2, a3, checksum}`,
coded with Sony-style pulse widths. The checksum is the 8-bit sum of the first
seven bytes. CtrlM can also play a script stored in EEPROM. The main loop polls
the bus, samples two inputs that can make the script jump, and advances the
script on a timer tick that fires about 30 times a second.

## Modules

- `machine_ints.dfy` (`MachineInts`): 8-, 16- and 32-bit integers as bounded
  `int`s. Wrap-around is written out with `%`. Also the `Bits`/`Val`
  bit-string helpers used to state what an IR frame carries.
- `opcodes.dfy` (`Opcodes`): the command letters, and how many argument bytes
  the bus front end reads for each one.
- `nonvol.dfy` (`NonVol`): the EEPROM layout (`Store`), script lines, the
  timing and boot constants, and the EEPROM image the firmware ships with.
- `irsend.dfy` (`IRSend`): the IR transmit routines as methods with their
  shift-register loops. What goes out is logged as a sequence of `IrEvent`s:
  carrier setup, mark(t) and space(t). Each method is proved to produce a
  frame function (`SonyFrame`, `Sony64Frame`, `NecFrame`, ...).
- `irsend_props.dfy` (`IRSendProps`): decoders for the pulse trains, and
  round-trip lemmas stating that each frame carries exactly its data.
- `ctrlm_spec.dfy` (`CtrlM`): the whole firmware state as a `Machine` record
  and every routine of `ctrlm.c` as a function on it.
- `ctrlm_firmware.dfy` (`CtrlMFirmware`): the same routines as imperative
  code over the globals. The globals are the fields of class `Firmware`, and
  `cmdargs` and `inputs` are arrays. Each method that carries out a whole
  routine ensures `State() == CtrlM.F(old(State()))` for its function `F`.
  The helpers those methods call (`ReceiveArgs`, `SealAndSend`,
  `StagePassthrough`, `StageColorspot`, `SettingArms`, `FlowArms`,
  `LoadLine`, `StartScript`, `CountPass`, `HandleInputs`, `SetAddrArm`) state
  the new value of each field they modify. Their field-level `modifies`
  clauses keep every other field.
- `ctrlm_props.dfy` (`CtrlMProps`), `ctrlm_playback.dfy` (`CtrlMPlayback`):
  properties of the command engine, the bus front end, the script player
  and boot.

Conventions:

- The bus is two byte queues, `rx` (written by the master) and `tx` (the
  replies).
- The I2C read routine blocks until a byte arrives. The model asks instead
  (`BusReady`) that the master has already written the whole command.
- Where the C code reads outside an array, the byte it gets is a parameter
  named `stray`. The model says nothing about that value.

The model follows the code where it differs from the command reference
written alongside the firmware:

- bus `'@'` reads three argument bytes, not two;
- the seventh byte of the `'*'` (play colorspot) datagram is the stale
  `cmdargs[3]`, not 0;
- the `'#'` duty is computed as written: `val * 100` wraps to 16 bits,
  is divided by the duty argument, and is truncated to 8 bits. At 38 kHz and
  33 % this gives 121 (`SetIrFreq38k`).

## Model

| member | source | states |
|---|---|---|
| MachineInts.ToI8 | trunk/ctrlm/firmware/ctrlm.c:548-552 | reading a byte as `int8_t`: the value is congruent to the byte mod 256, and negative exactly when the byte's top bit is set |
| MachineInts.SignExtend16 | trunk/ctrlm/firmware/ctrlm.c:419-425 | a 16-bit `int` passed as the 32-bit code: the result is congruent to it mod 2^16, and unchanged when bit 15 is clear |
| MachineInts.BitsAt | trunk/ctrlm/firmware-beta/IRsend.h:178-195 | element n-1-k of the n-bit MSB-first string of x is bit k of x |
| MachineInts.ValBits | trunk/ctrlm/firmware-beta/IRsend.h:178-195 | the MSB-first bit string of `data` has value `data mod 2^n`: no bits are lost or reordered |
| Opcodes.ArgCount | trunk/ctrlm/firmware/ctrlm.c:404-524 | how many argument bytes `handle_i2c` reads for a command: at most 8, and 8 only for `'!'` |
| NonVol.LineAt | trunk/ctrlm/firmware/ctrlm.c:533-537 | reading line `pos` from EEPROM: the stored line if there is one, an erased (all-0xFF) line past the end |
| NonVol.DefaultStore | trunk/ctrlm/firmware-beta/ctrlm_nonvol_data.h:42-79 | the shipped EEPROM image: address 0x09, boot does nothing, its script length equals its line count (at most 49), repeats forever |
| NonVol.DefaultScriptShape | trunk/ctrlm/firmware-beta/ctrlm_nonvol_data.h:68-79 | the shipped script is `'f'` and `'o'` at duration 0, then four `'c'` fades of 10 ticks |
| NonVol.WaitUnitSeconds | trunk/ctrlm/firmware-beta/ctrlm_nonvol_data.h:14-19 | 153 script ticks of 1024*256 cycles at 8 MHz last between 5.013 and 5.014 seconds |
| IRSend.FreqToTimer1Val | trunk/ctrlm/firmware-beta/IRsend.h:46 | the timer top value r is the largest one whose period (r+1)/F_CPU does not exceed the requested carrier period |
| IRSend.Reverse | trunk/ctrlm/firmware-beta/IRsend.h:344-368 | the reversal has the same length, and element i is element len-1-i of the input |
| IRSend.SendSony | trunk/ctrlm/firmware-beta/IRsend.h:178-195 | the shift loop emits exactly the Sony frame of the low nbits of `data`, MSB first |
| IRSend.SendSonyData4 | trunk/ctrlm/firmware-beta/IRsend.h:197-215 | emits the same frame as `sendSony(data, 32)` |
| IRSend.SendSonyData64bit | trunk/ctrlm/firmware-beta/IRsend.h:221-246 | emits one Sony header followed by the 8 buffer bytes, each MSB first |
| IRSend.SendNEC | trunk/ctrlm/firmware-beta/IRsend.h:267-285 | emits the NEC frame: header, nbits bits taken from the top of the 32-bit word (clear once all 32 are out), stop mark |
| IRSend.SendRC5 | trunk/ctrlm/firmware-beta/IRsend.h:289-308 | emits the RC5 frame: start bits, then Manchester-coded bits MSB first |
| IRSend.SendRC6 | trunk/ctrlm/firmware-beta/IRsend.h:313-340 | emits the RC6 frame, with the trailer bit (bit 3) at double width |
| IRSend.TxByte | trunk/ctrlm/firmware-beta/IRsend.h:344-368 | emits the data-header frame of one byte, LSB first |
| IRSend.SendRaw | trunk/ctrlm/firmware-beta/IRsend.h:393-403 | emits carrier setup, then alternating marks and spaces of `buf[..len]`, then the LED off (nothing from the buffer when len <= 0) |
| IRSendProps.DecodePulsesInverse | trunk/ctrlm/firmware-beta/IRsend.h:108-122 | decoding the marks and spaces of a bit string gives back the bit string, for every coding |
| IRSendProps.ReverseReverse | trunk/ctrlm/firmware-beta/IRsend.h:344-368 | reversing twice is the identity |
| IRSendProps.SonyFrameCarries | trunk/ctrlm/firmware-beta/IRsend.h:178-195 | a Sony frame is 3+2n events: the carrier and header, then cells that decode to `data mod 2^n` |
| IRSendProps.SonyTwelveBits | trunk/ctrlm/firmware-beta/IRsend.h:25 | a 12-bit Sony code is 27 events and decodes to exactly the code |
| IRSendProps.BitsBytesInverse | trunk/ctrlm/firmware-beta/IRsend.h:221-246 | packing the MSB-first bits of a byte string gives back the bytes |
| IRSendProps.Sony64FrameCarries | trunk/ctrlm/firmware-beta/IRsend.h:221-246 | a 64-bit datagram frame is 3+16n events and decodes back to exactly its bytes |
| IRSendProps.Sony64Pulses | trunk/ctrlm/firmware-beta/IRsend.h:221-246 | bit j of byte i goes out as a long or short mark at position 3+2(8i+j), followed by the fixed space, and the frame ends with a space |
| IRSendProps.SonyFrameEnds | trunk/ctrlm/firmware-beta/IRsend.h:178-195 | a non-empty Sony frame ends with the fixed space |
| IRSendProps.NecFrameCarries | trunk/ctrlm/firmware-beta/IRsend.h:267-285 | a 32-bit NEC frame is 69 events: header, cells decoding to the data word, stop mark and LED off |
| IRSendProps.Rc5FrameCarries | trunk/ctrlm/firmware-beta/IRsend.h:289-308 | an RC5 frame is 5+2n events: start bits, cells decoding to `data mod 2^n`, LED off |
| IRSendProps.Rc6FrameCarries | trunk/ctrlm/firmware-beta/IRsend.h:313-340 | an RC6 frame is 6+2n events: header, start bit, cells decoding to `data mod 2^n`, LED off |
| IRSendProps.Rc6Widths | trunk/ctrlm/firmware-beta/IRsend.h:313-340 | every RC6 bit is a mark/space pair ordered by its value, twice as wide at bit 3 |
| IRSendProps.TxByteFrameCarries | trunk/ctrlm/firmware-beta/IRsend.h:344-368 | a byte frame is 19 events, its k-th cell is bit k of the byte, and reversing the decoded bits gives the byte |
| IRSendProps.RawFrameCarries | trunk/ctrlm/firmware-beta/IRsend.h:393-403 | a raw frame is the buffer with a carrier before and LED off after; even entries are marks and odd ones spaces |
| IRSendProps.Carrier38k | trunk/ctrlm/firmware-beta/IRsend.h:46 | the timer value for a 38 kHz carrier is 209 |
| CtrlM.ScriptCmd | trunk/ctrlm/firmware/ctrlm.c:259-399 | dispatching a command keeps the bus, EEPROM, script and inputs context; only `'w'` leaves a wait pending (`a1 + 256*a2` units); only `'O'` stops the script |
| CtrlM.SettingCmd | trunk/ctrlm/firmware/ctrlm.c:265-290 | the addressing, carrier and LED commands keep the context and leave the wait unchanged |
| CtrlM.SettingCmdFrame | trunk/ctrlm/firmware/ctrlm.c:265-290 | they change nothing but the two addresses, the carrier settings and the IR log |
| CtrlM.FlowCmd | trunk/ctrlm/firmware/ctrlm.c:296-320 | the jump, input-jump and wait commands keep the context; only `'w'` touches the wait |
| CtrlM.FlowCmdFrame | trunk/ctrlm/firmware/ctrlm.c:296-320 | they change nothing but the script position, the wait and the input-jump settings |
| CtrlM.AdjustDur | trunk/ctrlm/firmware/ctrlm.c:548-552 | a negative adjustment larger than the duration gives 0; otherwise the adjusted duration wraps mod 256 |
| CtrlM.ScriptDoNextLine | trunk/ctrlm/firmware/ctrlm.c:540-560 | the line read at the script position becomes current with its duration adjusted, and its command is run; only a `'O'` line stops the script |
| CtrlM.PlayScript | trunk/ctrlm/firmware/ctrlm.c:572-588 | starting a script clears the tick, sets the id, and takes the repeat count from the caller or else from EEPROM |
| CtrlM.HandleScript | trunk/ctrlm/firmware/ctrlm.c:593-626 | a stopped script stays stopped and unchanged; the player never touches the bus or EEPROM |
| CtrlM.NextStep | trunk/ctrlm/firmware/ctrlm.c:607-625 | moving to the next line or pass keeps the bus and EEPROM |
| CtrlM.HandleInputs | trunk/ctrlm/firmware/ctrlm.c:632-648 | inputs 0 and 1 become 255 or 0 from the two pins, inputs 2 and 3 keep their values, and nothing is sent |
| CtrlM.Tick | trunk/ctrlm/firmware/ctrlm.c:769-772 | the timer interrupt adds one to the 8-bit script tick, wrapping at 256 |
| CtrlM.HandleI2c | trunk/ctrlm/firmware/ctrlm.c:404-529 | an empty bus changes nothing; otherwise the command byte and exactly its argument bytes are consumed |
| CtrlM.I2cReply | trunk/ctrlm/firmware/ctrlm.c:465-524 | the reply arms consume exactly their argument bytes |
| CtrlM.BootAddr | trunk/ctrlm/firmware/ctrlm.c:737-738 | the bus address is the stored one exactly when that is a 7-bit address other than 0, and always lies in 1..0x7F |
| CtrlM.Boot | trunk/ctrlm/firmware/ctrlm.c:730-745 | boot listens on `BootAddr` of the stored address and takes the time adjustment from EEPROM as a signed byte |
| CtrlMFirmware.ComputeChecksum | trunk/ctrlm/firmware/ctrlm.c:241-248 | the loop returns the 8-bit sum of the first c bytes (none when c is negative) |
| CtrlMFirmware.Firmware.Boot | trunk/ctrlm/firmware/ctrlm.c:730-745 | the globals after power-up and boot are `CtrlM.Boot` |
| CtrlMFirmware.Firmware.ReadI2cVals | trunk/ctrlm/firmware/ctrlm.c:253-257 | the next n bus bytes land in `cmdargs[0..n)`, and the rest of `cmdargs` is kept |
| CtrlMFirmware.Firmware.ReceiveArgs | trunk/ctrlm/firmware/ctrlm.c:253-257 | the loop's array contents: the first n bytes come from the bus, the rest are unchanged |
| CtrlMFirmware.Firmware.SendPassthrough | trunk/ctrlm/firmware/ctrlm.c:376-390 | the in-place shuffle of `cmdargs` followed by sealing and sending is `CtrlM.SendDatagram` of the passthrough datagram |
| CtrlMFirmware.Firmware.SendColorspot | trunk/ctrlm/firmware/ctrlm.c:360-374 | the in-place shuffle for `'*'` followed by sealing and sending is `CtrlM.SendDatagram` of the colorspot datagram |
| CtrlMFirmware.Firmware.HandleScriptCmd | trunk/ctrlm/firmware/ctrlm.c:259-399 | the switch over the globals is `CtrlM.ScriptCmd` |
| CtrlMFirmware.Firmware.ScriptDoNextLine | trunk/ctrlm/firmware/ctrlm.c:540-560 | is `CtrlM.ScriptDoNextLine` |
| CtrlMFirmware.Firmware.PlayScript | trunk/ctrlm/firmware/ctrlm.c:563-588 | is `CtrlM.PlayScript` |
| CtrlMFirmware.Firmware.HandleScript | trunk/ctrlm/firmware/ctrlm.c:593-626 | is `CtrlM.HandleScript` |
| CtrlMFirmware.Firmware.HandleInputs | trunk/ctrlm/firmware/ctrlm.c:632-648 | the inputs array, position and tick become those of `CtrlM.HandleInputs` |
| CtrlMFirmware.Firmware.Tick | trunk/ctrlm/firmware/ctrlm.c:769-772 | is `CtrlM.Tick` |
| CtrlMFirmware.Firmware.HandleI2c | trunk/ctrlm/firmware/ctrlm.c:404-529 | is `CtrlM.HandleI2c` |
| CtrlMFirmware.Firmware.HandleI2cReply | trunk/ctrlm/firmware/ctrlm.c:465-524 | is `CtrlM.I2cReply` |
| CtrlMFirmware.Firmware.SetAddr | trunk/ctrlm/firmware/ctrlm.c:468-477 | is `CtrlM.SetAddr` |
| CtrlMFirmware.Firmware.Step | trunk/ctrlm/firmware/ctrlm.c:756-760 | one turn of the main loop (bus, then inputs, then script) is `CtrlM.LoopStep` |
| CtrlMProps.SumUpdate | trunk/ctrlm/firmware/ctrlm.c:241-248 | replacing one byte changes the sum by the difference |
| CtrlMProps.ChecksumDetectsOneByte | trunk/ctrlm/firmware/ctrlm.c:241-248 | changing any one byte changes the 8-bit checksum |
| CtrlMProps.SealedDetectsCorruption | trunk/ctrlm/firmware/ctrlm.c:384-388 | a sealed datagram with any one byte altered, checksum included, is no longer sealed |
| CtrlMProps.DatagramSent | trunk/ctrlm/firmware/ctrlm.c:384-388 | sending a datagram seals it, appends exactly its 131-event frame to the IR log (which decodes back to the 8 bytes), and changes nothing else |
| CtrlMProps.PassthroughSent | trunk/ctrlm/firmware/ctrlm.c:376-396 | any other command goes out as `{0x55, freem, blinkm, cmd, a1, a2, a3, sum}` and clears the wait |
| CtrlMProps.PlayColorspotSent | trunk/ctrlm/firmware/ctrlm.c:360-374 | `'*'` goes out as `{0x55, freem, 0xFD, pos, cmd, arg, cmdargs[3], sum}` |
| CtrlMProps.StopAllSent | trunk/ctrlm/firmware/ctrlm.c:354-374 | `'O'` stops the script, falls through into the `'*'` datagram, and the player then stays idle |
| CtrlMProps.SetColorspotSent | trunk/ctrlm/firmware/ctrlm.c:432-448 | bus `'^'` reads four bytes and sends `{0x55, freem, 0xFE, pos, r, g, b, sum}` |
| CtrlMProps.RawSentVerbatim | trunk/ctrlm/firmware/ctrlm.c:427-431 | bus `'!'` sends its eight bytes unchanged, checksum or not, and they decode back from the IR log |
| CtrlMProps.FadeSpeedSentTwice | trunk/ctrlm/firmware/ctrlm.c:497-504 | bus `'f'`/`'t'` send two datagrams: the command with its argument, then the command again with the first datagram's head as arguments |
| CtrlMProps.FadeSpeedArm | trunk/ctrlm/firmware/ctrlm.c:497-504 | bus `'f'`/`'t'` read one byte and dispatch twice |
| CtrlMProps.DispatchTwice | trunk/ctrlm/firmware/ctrlm.c:376-390 | dispatching a passthrough command twice sends the second time on the datagram the first left in `cmdargs` |
| CtrlMProps.StopScriptStale | trunk/ctrlm/firmware/ctrlm.c:501-504 | bus `'o'` reads no arguments and sends whatever `cmdargs` held |
| CtrlMProps.StopAllBus | trunk/ctrlm/firmware/ctrlm.c:501-504 | bus `'O'` reads no arguments, stops the script and any wait, and sends the play-colorspot datagram of the stale `cmdargs`; the player then stays idle |
| CtrlMProps.PlayBus | trunk/ctrlm/firmware/ctrlm.c:482-485 | bus `'P'` reads three bytes and always plays script 0, ignoring the first byte; the second gives the repeats (0: the stored ones) and the third the start line |
| CtrlMProps.QueriesAnswer | trunk/ctrlm/firmware/ctrlm.c:465-524 | `'a'` answers the stored address, `'Z'` the version, `'i'` the inputs, and `'l'` 0 the stored length and repeats followed by the inputs; nothing else changes |
| CtrlMProps.UnknownIgnored | trunk/ctrlm/firmware/ctrlm.c:404-529 | a command byte without a case is consumed and nothing else changes |
| CtrlMProps.SetIrFreq | trunk/ctrlm/firmware/ctrlm.c:269-274 | `'#'` changes only the carrier settings; the timer value is the low byte of `freq_to_timer1val`, and from 31129 Hz up the timer counts the longest period not above the requested one |
| CtrlMProps.TimerFits | trunk/ctrlm/firmware-beta/IRsend.h:46 | the timer value fits the 8-bit register exactly when the carrier is 31129 Hz or more |
| CtrlMProps.TimerByte | trunk/ctrlm/firmware/ctrlm.c:270-272 | truncating the 16-bit value and then the 8-bit register leaves its low byte, which from 31129 Hz up brackets the requested period |
| CtrlMProps.SetIrFreq38k | trunk/ctrlm/firmware/ctrlm.c:269-274 | `{'#', 0x94, 0x70, 33}` sets timer 209 and duty 121, and sends nothing |
| CtrlMProps.RunTicks | trunk/ctrlm/firmware/ctrlm.c:756-772 | ticks with the player in between never touch the bus or EEPROM |
| CtrlMProps.WaitNotDue | trunk/ctrlm/firmware/ctrlm.c:598-604 | during a wait, before 153 ticks have passed, the player does nothing |
| CtrlMProps.WaitDue | trunk/ctrlm/firmware/ctrlm.c:598-604 | after 153 ticks one wait unit is used up and the tick restarts |
| CtrlMProps.WaitTicksCount | trunk/ctrlm/firmware-beta/ctrlm_nonvol_data.h:14-19 | w wait units are 153*w ticks |
| CtrlMProps.WaitFrom | trunk/ctrlm/firmware/ctrlm.c:598-604 | from tick t with w units left, the wait ends after exactly (153-t) + 153*(w-1) ticks, with nothing else changed |
| CtrlMProps.WaitLasts | trunk/ctrlm/firmware/ctrlm.c:598-604 | a `'w'` of w units holds the script for exactly 153*w ticks |
| CtrlMProps.WaitHolds | trunk/ctrlm/firmware/ctrlm.c:598-604 | at every tick before a wait runs out, a wait unit is still pending and only the wait counter and the clock have changed |
| CtrlMProps.LineNotDue | trunk/ctrlm/firmware/ctrlm.c:606-607 | before a line's duration has passed the player does nothing |
| CtrlMProps.LineDue | trunk/ctrlm/firmware/ctrlm.c:606-625 | once it has passed, the player moves to the next step |
| CtrlMProps.LineFrom | trunk/ctrlm/firmware/ctrlm.c:606-625 | a line reached at tick t moves on after exactly dur-t more ticks |
| CtrlMProps.LineLasts | trunk/ctrlm/firmware/ctrlm.c:606-625 | a line of duration d > 0 lasts exactly d ticks |
| CtrlMProps.ZeroDurationAdvances | trunk/ctrlm/firmware/ctrlm.c:606-625 | a line of duration 0 is followed on the very next call, with the tick reset |
| CtrlMPlayback.NextLineRuns | trunk/ctrlm/firmware/ctrlm.c:606-625 | inside a pass, the player runs the line after the current one |
| CtrlMPlayback.LastPassStops | trunk/ctrlm/firmware/ctrlm.c:610-619 | at the end of the last pass the script stops |
| CtrlMPlayback.NextPassRuns | trunk/ctrlm/firmware/ctrlm.c:610-621 | at the end of another pass the script restarts at line 0, with one repeat fewer (0 stays 0) |
| CtrlMPlayback.StepReps | trunk/ctrlm/firmware/ctrlm.c:606-625 | one step keeps the length and repeats inside a pass, stops at the end of the last pass, and counts down otherwise |
| CtrlMPlayback.StoppedStays | trunk/ctrlm/firmware/ctrlm.c:595-596 | a stopped script stays stopped over any number of ticks, and completes no pass |
| CtrlMPlayback.FinitePasses | trunk/ctrlm/firmware-beta/ctrlm_nonvol_data.h:36 | with N > 0 repeats, any run completes at most N passes; the remaining repeats are N minus the passes, and the script stops after exactly N |
| CtrlMPlayback.EndlessPlay | trunk/ctrlm/firmware-beta/ctrlm_nonvol_data.h:36 | with 0 repeats the script never stops over any number of ticks |
| CtrlMPlayback.LineHolds | trunk/ctrlm/firmware/ctrlm.c:606-607 | k ticks within a line's duration change only the tick |
| CtrlMPlayback.RelativeJump | trunk/ctrlm/firmware/ctrlm.c:296-298 | `'j'` by a signed offset makes the next line the current one plus the offset, mod 256 |
| CtrlMPlayback.ArmInputJump | trunk/ctrlm/firmware/ctrlm.c:312-316 | `'I'` arms input `a1-'@'`, which is an input exactly for `'@'`..`'C'`, and `'?'` disarms |
| CtrlMPlayback.InputJump | trunk/ctrlm/firmware/ctrlm.c:640-646 | an armed input above the level moves the position to one before the target and sets the tick to 255; otherwise only the inputs change |
| CtrlMPlayback.InputJumpDisarmed | trunk/ctrlm/firmware/ctrlm.c:640-641 | when disarmed only the inputs change |
| CtrlMPlayback.InputJumpTakesPriority | trunk/ctrlm/firmware/ctrlm.c:640-646 | after a triggered jump the next script step runs the target line |
| CtrlMPlayback.PlayScriptRunsLine | trunk/ctrlm/firmware/ctrlm.c:563-588 | `'P'` and boot run the line at the start position with its duration adjusted, with repeats from the caller or EEPROM and the length from EEPROM |
| CtrlMPlayback.SetAddrGuarded | trunk/ctrlm/firmware/ctrlm.c:468-477 | `'A'` changes the stored and live address exactly when the magic bytes and the repeated address match |
| CtrlMPlayback.AddrAtReboot | trunk/ctrlm/firmware/ctrlm.c:737-738 | a written address is used after reboot exactly when it is a 7-bit address |
| CtrlMPlayback.BootIdle | trunk/ctrlm/firmware/ctrlm.c:742-745 | without boot-play mode the board starts idle, sends nothing, and the player stays idle |
| CtrlMPlayback.BootPlays | trunk/ctrlm/firmware/ctrlm.c:742-745 | in boot-play mode boot runs the first stored line with the stored repeats and time adjustment |
| CtrlMPlayback.DefaultBoot | trunk/ctrlm/firmware-beta/ctrlm_nonvol_data.h:42-49 | the shipped EEPROM boots on address 0x09, idle, without time adjustment |
| CtrlMPlayback.AddressThenColor | trunk/ctrlm/firmware/ctrlm.c:410-416 | `{'@', 1, 9, 0}` then `{'c', 0xFF, 0, 0xFF}` sends exactly `{0x55, 1, 9, 'c', 0xFF, 0, 0xFF, 0xC0}` |
| CtrlMPlayback.ColorStep | trunk/ctrlm/firmware/ctrlm.c:410-416 | a bus `'c'` sends the fade datagram to the current addresses and consumes its bytes |
| CtrlMPlayback.PlayColorspotExample | trunk/ctrlm/firmware/ctrlm.c:360-374 | a bus `'*'` sends the colorspot datagram with the stale seventh byte |
| CtrlMPlayback.ForwardedLineRuns | trunk/ctrlm/firmware/ctrlm.c:540-560 | a line whose command is forwarded adds one 131-event datagram and changes only the line, command, arguments and wait |
| CtrlMPlayback.TwoLineScript | trunk/ctrlm/firmware/ctrlm.c:572-626 | a two-line script played once sends two datagrams, holds the second line for 10 ticks and then stops without sending more |
| CtrlMPlayback.DefaultStart | trunk/ctrlm/firmware-beta/ctrlm_nonvol_data.h:68-79 | playing the shipped script starts on its `'f'` line with 6 lines and endless repeats |
| CtrlMPlayback.DefaultScriptChains | trunk/ctrlm/firmware-beta/ctrlm_nonvol_data.h:68-79 | the shipped script's two zero-duration lines chain into the first 10-tick fade on consecutive calls, and it never stops |
| CtrlMPlayback.DefaultNeverStops | trunk/ctrlm/firmware-beta/ctrlm_nonvol_data.h:68-79 | the shipped script holds no `'O'` line |

## Left out

- Hardware I/O is not modelled: the USI-TWI driver, port and timer
  registers, `_delay_ms`, `led_flash`, `fanfare`, and the real timing of marks
  and spaces. The IR log records what would be sent. EEPROM is a `Store` value.
- The race between the timer interrupt and the main loop on `script_tick`
  (`handle_inputs` writes 255 while the interrupt increments it) is not
  modelled. Ticks happen between loop turns (`Tick`, `RunTicks`).
- The script `'i'` command always indexes `inputs` out of bounds (its
  `int8_t` index is -128 or 64), and `inputs[bigIinput]` with an input
  number of 4 or more is out of bounds too. The byte read is the `stray`
  parameter.
- Script ids other than 0 (flash scripts, commented out) load no line. The
  model keeps the previous line.
- `sendSonyData8`, `txBuff`, `txString`, the test code (`basic_tests`,
  `reverse8`, the `#if 0` blocks) and the separate repeater firmware are not
  part of this model.
- HandleI2c: the blocking bus reads are a precondition (`BusReady`): a
  command whose bytes have not all arrived is not modelled.
- ScriptCmd: `'#'` with a zero frequency or zero duty divides by zero in C,
  so it is excluded (`DispatchDefined`, `SafeLine`).
- ComputeChecksum: with c > 255 the 8-bit loop counter never reaches c, so
  the loop never ends. The method requires c <= 255.
- The power-on carrier setting (`PowerOn`, `DEFAULT_FREQVAL`) is the
  ATtiny85 one, 210. The ATtiny84 build's 105 is not modelled.
- RunTicks: each timer tick is followed by exactly one call of
  `handle_script`. In the firmware the main loop calls it many times per
  tick, and a blocking bus read can let several ticks pass between two
  calls. The timing lemmas built on `RunTicks` (`WaitFrom`, `WaitLasts`,
  `WaitHolds`, `LineFrom`, `LineLasts`, `LineHolds`, `Passes`,
  `FinitePasses`, `EndlessPlay`, `StoppedStays`, `TwoLineScript`,
  `DefaultScriptChains`) hold for that schedule only. Extra calls inside a
  tick change nothing while a line or a wait is not due (`LineNotDue`,
  `WaitNotDue`). The schedules differ on zero-duration lines, which cost the
  model one tick each and the firmware none, and when ticks are skipped,
  which makes a line run late in the firmware.
