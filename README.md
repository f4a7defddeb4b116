# Arduino serial API: host side, in Dafny

This models the host half of the Arduino serial API found in `Python-API/Arduino/arduino.py`. The host drives an ATmega328 board running a small firmware. Most API calls send a short frame of two-byte instructions. `version` and `softwareReset` send a lone reset byte, `analogWrite` sends a text command, and `cmdDo` sends nothing. In a frame, the opcode sits in the high nibble of the first byte, and for bit operations the bit index is added into the low nibble. The second byte is a register address or a data byte. The host keeps a counter of the command bytes it has sent, modulo 256. `cmdDo` marks a position in that count, and `cmdLoop` asks the firmware to replay the bytes buffered since the mark. It can ask for at most 255 of them: the count wraps modulo 256, so after 256 or more bytes it asks for fewer than were sent.

The modules follow the source:

- `Bytes`: byte values, `int.from_bytes` in both byte orders, and serial `read(n)` and `readline(n)` over the bytes the device sends back.
- `Decimal` and `CmdString`: `str(int)` and `build_cmd_str`, each with a parser that inverts it.
- `Board`: the `pin_name`/`pin_port` tables, looked up with Python's list indexing. The m328 register addresses are a `Registers` value given to the constructor.
- `Protocol`: the twelve opcodes, the instruction datatype, and frame encoding and decoding.
- `Commands`: the frame each API method builds, with its error path, and what the frame means to the firmware.
- `Counter`: the modulo-256 command counter and `cmdLoop`'s repeat count.
- `Device`: the register file that the data, register, set-bit, clear-bit and read instructions act on. It is used to state what `registerWrite`, `pinMode`, `digitalWrite` and `digitalRead` do on the board.
- `Session`: the `Arduino` class. Its fields are the counters and the bytes written to the port. The device's reply to each read is a parameter.

Where building a frame raises in Python (`bytearray.append` of a value outside 0..255 gives ValueError; a pin outside -20..19 gives IndexError), the model returns `Err`. Whether the exception escapes or is swallowed follows the method's `try` blocks.

Behaviour of the code that the model keeps:

- `analogRead` sends one 12-byte frame of six instructions: set ADMUX, set ADCSRA, wait on ADSC, and the 16-bit read of ADCL/ADCH.
- `int.from_bytes(b'')` is 0, so an empty reply reads as 0.
- `pinMode(pin, "INPUT_PULLUP")` sends one 4-byte frame: clear the DDR bit, then set the PORT bit.
- `analogRead` does not mask its result to 10 bits. It returns `int.from_bytes` of what `readline(2)` gave, low byte first, so a low byte of 0x0A loses the high byte (Findings below).
- A negative pin number indexes the tables from the end, as Python lists do; pin -1 is pin 19.
- Line 195 (`else:` in `cmdLoop`) and line 279 (the `sendAPICmd` call in `waitUntilBitIsSet`) have a URL pasted into them, which makes the file fail to parse. The model takes the evident code: the `else` branch and a `sendAPICmd(cmd_str)` call.

## Model

| member | source | states |
|---|---|---|
| Bytes.FromBytesBig | Python-API/Arduino/arduino.py:227 | big-endian decoding of n bytes is below 256^n |
| Bytes.FromBytesLittle | Python-API/Arduino/arduino.py:254 | little-endian decoding of n bytes is below 256^n |
| Bytes.LittleRoundTrip | Python-API/Arduino/arduino.py:254 | a value below 256^n, written as n little-endian bytes, decodes back to itself |
| Bytes.LittleCanonical | Python-API/Arduino/arduino.py:254 | decoding then re-encoding to the same width gives back the same bytes |
| Bytes.OneByte | Python-API/Arduino/arduino.py:226-227 | a one-byte reply decodes to that byte in either order |
| Bytes.Read | Python-API/Arduino/arduino.py:226 | read(n) returns a prefix of the reply, n bytes long or the whole reply when it is shorter |
| Bytes.TwoBytesRead | Python-API/Arduino/arduino.py:253-254 | two bytes read little endian are low + 256 * high |
| Bytes.ReadLine | Python-API/Arduino/arduino.py:253 | readline(n) returns a prefix of at most n bytes with no line feed before its last byte, and stops early only on a line feed |
| Bytes.ReadTwoBytes | Python-API/Arduino/arduino.py:253-254 | every 16-bit value sent low byte first comes back unchanged through read(2) |
| Bytes.ReadLineTwoBytes | Python-API/Arduino/arduino.py:253-254 | a 16-bit value comes back unchanged through readline(2) if and only if its low byte is not 0x0A or it is below 256 |
| Bytes.ReadLineLosesHighByte | Python-API/Arduino/arduino.py:253-254 | an ADC value of 522 reads as 10 through readline(2) |
| Decimal.NatToDecimal | Python-API/Arduino/arduino.py:77 | str of a natural number is non-empty, all digits, with no leading zero |
| Decimal.IntToDecimal | Python-API/Arduino/arduino.py:77 | str of an integer is digits and a minus sign, which leads exactly when the number is negative |
| Decimal.NatRoundTrip | Python-API/Arduino/arduino.py:77 | parsing str(n) gives back n |
| Decimal.IntRoundTrip | Python-API/Arduino/arduino.py:77 | parsing str(n) gives back n, negative numbers included |
| CmdString.Join | Python-API/Arduino/arduino.py:77 | '%'.join: empty for no parts, starts with the first part, and puts a "%" right after it when there are more |
| CmdString.Decimals | Python-API/Arduino/arduino.py:77 | map(str, args) is element-wise str |
| CmdString.BuildCmdStr | Python-API/Arduino/arduino.py:65-80 | the command string starts with "@", ends with "$!" and is four characters longer than the command and its %-joined arguments together |
| CmdString.SplitJoin | Python-API/Arduino/arduino.py:77 | splitting a %-join of %-free fields gives back the fields |
| CmdString.ParseDecimals | Python-API/Arduino/arduino.py:77 | the joined decimal arguments parse back to the arguments |
| CmdString.BuildParseRoundTrip | Python-API/Arduino/arduino.py:65-80 | for a command without "%", parsing build_cmd_str(cmd, args) gives back cmd and args |
| CmdString.CmdStrIsAscii | Python-API/Arduino/arduino.py:65-80 | every character of a command string is ASCII |
| CmdString.ClampDuty | Python-API/Arduino/arduino.py:435-438 | the duty value is in 0..255, is unchanged inside that range and is 255 above it and 0 below it |
| CmdString.AnalogWriteCommand | Python-API/Arduino/arduino.py:439 | analogWrite's command string is ASCII |
| CmdString.AnalogWriteParses | Python-API/Arduino/arduino.py:435-439 | analogWrite's string parses back to "aw" with the pin and the clamped value |
| Board.PinPort | Python-API/Arduino/arduino.py:26-28 | the port table has 20 entries, each one of PORTB, PORTC and PORTD |
| Board.ListIndex | Python-API/Arduino/arduino.py:320 | Python list indexing: -n..n-1 is valid, and a negative index counts from the end |
| Board.Resolve | Python-API/Arduino/arduino.py:23-28 | a pin resolves exactly when it is in -20..19, to a bit below 8 of PORTB, PORTC or PORTD |
| Board.ResolveLayout | Python-API/Arduino/arduino.py:23-28 | pins 0-7 are PORTD bits 0-7, pins 8-13 PORTB bits 0-5, pins 14-19 PORTC bits 0-5 |
| Board.ResolveNegative | Python-API/Arduino/arduino.py:320-321 | pin -k addresses the same bit as pin 20-k |
| Board.ResolvedRegistersAreBytes | Python-API/Arduino/arduino.py:321 | a resolved pin's PORT, DDR (PORT-1) and PIN (PORT-2) registers are bytes |
| Board.ResolveInjective | Python-API/Arduino/arduino.py:23-28 | two different pins in 0..19 never share a bit of a port |
| Protocol.Encode | Python-API/Arduino/arduino.py:33-44 | an instruction encodes as two bytes: the opcode in the high nibble, its bit index in the low nibble, then its operand |
| Protocol.EncodeAll | Python-API/Arduino/arduino.py:33-44 | a frame is twice as long as its instruction list |
| Protocol.DecodeEncode | Python-API/Arduino/arduino.py:33-44 | every well-formed instruction decodes back from its encoding |
| Protocol.EncodeDecode | Python-API/Arduino/arduino.py:33-44 | every byte pair that decodes is the encoding of what it decodes to |
| Protocol.EncodeAllAppend | Python-API/Arduino/arduino.py:33-44 | encoding distributes over concatenation |
| Protocol.EncodeAllAt | Python-API/Arduino/arduino.py:33-44 | bytes 2j and 2j+1 of a frame are instruction j's opcode and operand |
| Protocol.FrameRoundTrip | Python-API/Arduino/arduino.py:33-44 | a frame of well-formed instructions decodes to those instructions |
| Protocol.FrameCanonical | Python-API/Arduino/arduino.py:33-44 | a byte string that decodes is exactly the encoding of its instructions |
| Protocol.FramesConcatenate | Python-API/Arduino/arduino.py:33-44 | frames sent back to back decode to the two instruction lists in order |
| Protocol.DecodeConcat | Python-API/Arduino/arduino.py:33-44 | two decodable byte strings decode, concatenated, to their concatenated instructions |
| Protocol.ProbeIsIncomplete | Python-API/Arduino/arduino.py:112-123 | the one-byte version probe is not a whole frame |
| Commands.RegisterWriteFrame | Python-API/Arduino/arduino.py:205-215 | the frame is built exactly when register and value are bytes; otherwise ValueError |
| Commands.RegisterReadFrame | Python-API/Arduino/arduino.py:217-222 | the frame is built exactly when the register is a byte; otherwise ValueError |
| Commands.ReadAdcFrame | Python-API/Arduino/arduino.py:244-250 | readADC's frame is 6 bytes |
| Commands.WaitFrame | Python-API/Arduino/arduino.py:259-305 | with a register argument, built exactly when opcode + bit and the register are bytes (else ValueError); without one, exactly when the pin resolves (else IndexError); 2 bytes |
| Commands.PinModeFrame | Python-API/Arduino/arduino.py:313-336 | built exactly when the pin resolves (else IndexError); 4 bytes for INPUT_PULLUP, 2 otherwise |
| Commands.DigitalWriteFrame | Python-API/Arduino/arduino.py:340-361 | built exactly when the pin resolves (else IndexError); 2 bytes |
| Commands.DigitalReadFrame | Python-API/Arduino/arduino.py:375-377 | built exactly when the pin resolves (else IndexError); 2 bytes |
| Commands.AnalogReadFrame | Python-API/Arduino/arduino.py:399-413 | built exactly when 0x40 + pin is a byte (else ValueError); 12 bytes |
| Commands.IsLow | Python-API/Arduino/arduino.py:353 | a number is low exactly when it is 0, a string exactly when it is "LOW" |
| Commands.RepeatFrame | Python-API/Arduino/arduino.py:198-200 | cmdLoop's frame decodes to one repeat instruction with the count |
| Commands.AcceptsVersion | Python-API/Arduino/arduino.py:102-103 | a port is kept exactly when the first reply byte is 6 |
| Commands.OneByteRead | Python-API/Arduino/arduino.py:127-128 | a one-byte read decodes to the first reply byte, or 0 when nothing came |
| Commands.BitSpillsIntoNextOpcode | Python-API/Arduino/arduino.py:270-271 | waitUntilBitIsSet(16, reg) builds a frame the firmware reads as a wait until bit 0 of reg is cleared |
| Commands.RegisterWriteMeaning | Python-API/Arduino/arduino.py:208-212 | registerWrite's frame is SET_DATA value, SET_REGISTER reg |
| Commands.RegisterReadMeaning | Python-API/Arduino/arduino.py:220-222 | registerRead's frame is READ_REGISTER reg |
| Commands.ReadAdcMeaning | Python-API/Arduino/arduino.py:244-250 | readADC sets ADSC, waits until ADSC clears, reads ADCL/ADCH |
| Commands.WaitOnRegisterMeaning | Python-API/Arduino/arduino.py:267-271 | with a register, the frame means a wait on bit bit_num of that register if and only if bit_num is 0..7 |
| Commands.WaitOnPinMeaning | Python-API/Arduino/arduino.py:272-277 | without a register, the wait is on the pin's bit of its PIN register |
| Commands.PinModeMeaning | Python-API/Arduino/arduino.py:320-336 | OUTPUT sets the DDR bit; INPUT_PULLUP clears it and sets the PORT bit; anything else clears it |
| Commands.DigitalWriteMeaning | Python-API/Arduino/arduino.py:349-360 | "LOW" or 0 clears the PORT bit; any other value sets it |
| Commands.DigitalReadMeaning | Python-API/Arduino/arduino.py:375-377 | digitalRead reads the pin's bit of its PIN register |
| Commands.AnalogReadMeaning | Python-API/Arduino/arduino.py:399-413 | analogRead selects the channel in ADMUX, starts ADCSRA, waits on ADSC and reads ADCL/ADCH |
| Counter.CounterAfterSendAsWritten | Python-API/Arduino/arduino.py:166-168 | the single subtraction keeps the counter congruent to the byte total modulo 256, and in 0..255 while counter plus frame length stays below 512 |
| Counter.CounterAfterSend | Python-API/Arduino/arduino.py:166-168 | the counter stays in 0..255 |
| Counter.CounterTracksTotal | Python-API/Arduino/arduino.py:166-168 | the counter is the number of bytes sent so far, modulo 256 |
| Counter.AsWrittenAgreesOnShortFrames | Python-API/Arduino/arduino.py:166-168 | for frames of up to 256 bytes the single subtraction equals the modulo |
| Counter.AsWrittenLeavesByteRange | Python-API/Arduino/arduino.py:166-168 | from 255, a 300-byte frame leaves the counter at 299 instead of 43 |
| Counter.ReplayCount | Python-API/Arduino/arduino.py:193-196 | the repeat count is in 0..255 and takes the mark forward to the counter, modulo 256 |
| Counter.ReplayCountSinceMark | Python-API/Arduino/arduino.py:189-196 | when fewer than 256 bytes went out since cmdDo, the repeat count is exactly that number |
| Counter.ReplayCountUnique | Python-API/Arduino/arduino.py:193-196 | the repeat count is the only distance in 0..255 from mark to counter |
| Counter.ReplayCountWraps | Python-API/Arduino/arduino.py:195-196 | from mark 250 to counter 4 the count is 10 |
| Device.Put | Python-API/Arduino/arduino.py:35 | a register store changes that register and no other |
| Device.WithBit | Python-API/Arduino/arduino.py:36-37 | setting or clearing bit b changes bit b and keeps the other bits |
| Device.RunStep | Python-API/Arduino/arduino.py:33-44 | instructions run one after another, replies concatenated |
| Device.RunWriteRead | Python-API/Arduino/arduino.py:34-35 | SET_DATA v, SET_REGISTER reg, READ_REGISTER reg stores v and replies v |
| Device.WriteThenRead | Python-API/Arduino/arduino.py:205-228 | registerWrite then registerRead of a register reads back the value and changes no other register |
| Device.PinModeEffect | Python-API/Arduino/arduino.py:313-336 | after pinMode the pin's DDR bit is set exactly for OUTPUT and its PORT bit is set for INPUT_PULLUP; other registers keep their values |
| Device.DigitalWriteEffect | Python-API/Arduino/arduino.py:340-361 | after digitalWrite the pin's PORT bit is low exactly for "LOW" or 0; other registers keep their values |
| Device.DigitalReadEffect | Python-API/Arduino/arduino.py:366-386 | digitalRead's one reply byte reads big-endian as 1 exactly when the pin's PIN-register bit is set and as 0 otherwise, the documented "0 for LOW, 1 for HIGH"; no register changes |
| Device.Read16Value | Python-API/Arduino/arduino.py:249-254 | the 16-bit read replies low byte then high byte, which decode to the register pair's value |
| Session.AsciiBytes | Python-API/Arduino/arduino.py:439-441 | the ASCII bytes of the command string: one byte per character, with the same codes |
| Session.Arduino.constructor | Python-API/Arduino/arduino.py:132-148 | all three counters start at 0 and nothing has been written |
| Session.Arduino.SendAPICmd | Python-API/Arduino/arduino.py:159-171 | the frame is written as is, and the counter becomes the total bytes sent modulo 256; nothing else changes |
| Session.Arduino.Version | Python-API/Arduino/arduino.py:112-128 | writes the one reset byte outside the counter; returns the first reply byte (0 if none), which is 6 exactly when the board is accepted |
| Session.Arduino.SoftwareReset | Python-API/Arduino/arduino.py:176-187 | sends the reset byte through the counter and returns 0 |
| Session.Arduino.CmdDo | Python-API/Arduino/arduino.py:189-190 | the mark becomes the current counter; nothing is sent |
| Session.Arduino.CmdLoop | Python-API/Arduino/arduino.py:192-203 | sends REPEAT_CMD_BUFFER with the repeat count, which is the number of bytes sent since cmdDo when that is below 256 |
| Session.Arduino.RegisterWrite | Python-API/Arduino/arduino.py:205-215 | sends registerWrite's frame, or nothing when it cannot be built (the error is swallowed) |
| Session.Arduino.SendNothing | Python-API/Arduino/arduino.py:214-215 | a swallowed error leaves port and counters unchanged |
| Session.Arduino.RegisterRead | Python-API/Arduino/arduino.py:217-230 | returns the first reply byte exactly when the register is a byte, None otherwise, after sending the frame |
| Session.Arduino.ReadADC | Python-API/Arduino/arduino.py:232-257 | sends the 6-byte frame and returns low + 256 * high of a two-byte reply, the lone byte of a one-byte reply and 0 for no reply; always below 65536 |
| Session.Arduino.WaitUntilBitIsSet | Python-API/Arduino/arduino.py:259-281 | sends the wait frame, or raises its error before sending anything |
| Session.Arduino.WaitUntilBitIsCleared | Python-API/Arduino/arduino.py:283-305 | sends the wait frame, or raises its error before sending anything |
| Session.Arduino.SendWait | Python-API/Arduino/arduino.py:266-281 | the shared body of the two waits: the error escapes and nothing is sent |
| Session.Arduino.PinMode | Python-API/Arduino/arduino.py:313-338 | sends pinMode's frame, or raises IndexError before sending anything |
| Session.Arduino.DigitalWrite | Python-API/Arduino/arduino.py:340-364 | sends digitalWrite's frame, or raises IndexError before sending anything |
| Session.Arduino.DigitalRead | Python-API/Arduino/arduino.py:366-386 | raises IndexError exactly for a pin outside the table; otherwise sends the frame and returns the first reply byte |
| Session.Arduino.AnalogRead | Python-API/Arduino/arduino.py:388-424 | raises ValueError exactly when 0x40 + pin is not a byte; otherwise sends the 12-byte frame and returns low + 256 * high of a two-byte reply, the lone byte of a one-byte reply and 0 for no reply |
| Session.PortWrite | Python-API/Arduino/arduino.py:441 | sr.write passes bytes through unchanged and refuses a str with TypeError |
| Session.ShortReplyRead | Python-API/Arduino/arduino.py:253-254 | read(2) decoded little endian is low + 256 * high, the lone byte, or 0, by reply length |
| Session.Arduino.AnalogWriteAsWritten | Python-API/Arduino/arduino.py:426-444 | the str handed to sr.write is refused and the error swallowed: nothing is written and no counter moves |
| Session.Arduino.AnalogWrite | Python-API/Arduino/arduino.py:426-444 | writes the ASCII bytes of the "aw" command with the clamped value straight to the port; the counter does not move |
| Session.DoLoopExample | Python-API/examples.py:53-58 | pin 13 set as output, then two digitalWrites after cmdDo: cmdLoop sends REPEAT_CMD_BUFFER 4 |
| Session.AnalogWriteExample | Python-API/Arduino/arduino.py:426-444 | analogWrite on a fresh board: as written nothing reaches the port; encoded, the whole command of at least 9 bytes does |
| Session.AnalogReadExample | Python-API/Arduino/arduino.py:388-424 | analogRead(0) with reply bytes 0x00, 0x02 returns 512 after a 12-byte frame that starts SET_DATA 0x40 |

## Left out

- Port discovery (`enumerate_serial_ports`, `find_port`'s globbing, opening ports, the two-second sleep) is left out: it depends on the operating system and the hardware. What is modelled is the test that decides whether a port is kept (`Commands.AcceptsVersion`).
- Serial I/O is not modelled as such. Writes are appended to `wire`. The device's reply is a parameter, already cut short at the timeout. `flush`, `flushInput` and `inWaiting` change nothing the model tracks.
- I/O failures other than analogWrite's refused `str` are not modelled. These include the exceptions that `try`/`except` blocks catch around `write` and `read`, the `-1`, `-10` and `None` results they produce, and `get_version` returning None.
- Logging and the `print` in `sendAPICmd` are left out because they are output only.
- The nested `test()` function and the commented-out TimerOne code are not part of this model.
- The m328 register constants are not part of this model. They are the `Registers` parameter, with the ports in 2..255 so that their DDR and PIN registers are bytes.
- Session.AsciiBytes: is the encoding the corrected analogWrite sends. As written, line 441 hands the `str` itself to `sr.write`, which writes nothing (Findings below; `Session.Arduino.AnalogWriteAsWritten`).
- Session.Arduino.AnalogWrite: sends the ASCII bytes of the command, where the code as written sends nothing (Findings below).
- `PyValue` covers strings and integers only. Python's `True == 1`, `False == 0` and float arguments are not modelled.
- `Device` gives meaning to SET_DATA, SET_REGISTER, the set-bit and clear-bit instructions, READ_REGISTER, READ_REGISTER_BIT and the 16-bit incrementing read. The waits, the decrementing read, the repeat buffer and reset have no device semantics here: the waits and reset depend on the board's timing, the repeat on the firmware's buffer, and no API method sends the decrementing read.
- `cmd_loop_buffer_num` is set to 0 and never used. It is kept as a field and never changes.
- Session.Arduino.ReadADC: reads the reply with `read(2)` where the code calls `readline(2)`. This is the correction in Findings below; the `readline` behaviour itself is `Bytes.ReadLine`.
- Session.Arduino.AnalogRead: reads the reply with `read(2)` where the code calls `readline(2)` (line 419), as for ReadADC.
- Session.Arduino.SendAPICmd: keeps the counter with the modulo rather than the single subtraction. The two agree for every frame of up to 256 bytes (Findings below).

## Findings

| source | as written | input that shows it | evidently intended | confidence | as-written member | corrected member |
|---|---|---|---|---|---|---|
| Python-API/Arduino/arduino.py:253 | readADC and analogRead read the 2-byte result with `readline(2)`, which stops after a 0x0A byte | an ADC result of 522 (bytes 0x0A, 0x02) is read as 10; so is every result whose low byte is 0x0A and that is 256 or more | read both bytes with `read(2)` | high, not executed | Bytes.ReadLineLosesHighByte | Bytes.ReadTwoBytes |
| Python-API/Arduino/arduino.py:166-168 | the counter adds the frame length and takes 256 off once | counter 255 and a 300-byte frame give 299, outside 0..255 | the counter modulo 256 | medium (no frame built by the library is that long), not executed | Counter.AsWrittenLeavesByteRange | Counter.CounterTracksTotal |
| Python-API/Arduino/arduino.py:439-444 | analogWrite hands the `str` from build_cmd_str to `sr.write`; under Python 3 pyserial refuses a `str` with TypeError, and the bare `except: pass` swallows it | analogWrite(9, 128): nothing reaches the board | write `cmd_str.encode()`; that text suits a firmware speaking the text protocol, since the bytecode firmware of this library would read its bytes as instructions | high, not executed | Session.Arduino.AnalogWriteAsWritten | Session.Arduino.AnalogWrite |
