/** The frames the Arduino class's methods build before they hand them to
    sendAPICmd. A builder returns Err where Python raises while building:
    IndexError for a pin outside the pinout, ValueError for a value
    bytearray.append refuses. No byte is written in either case, because
    every frame is complete before it is sent. */
module Commands {
  import opened Wrappers
  import opened Bytes
  import opened Board
  import opened Protocol

  datatype PyError = IndexError | ValueError | TypeError

  /** A pin mode or level as the caller passes it: the library compares it
      with strings and with 0 (Python's False equals 0 as well). */
  datatype PyValue = Str(s: string) | Int(n: int)

  type Frame = seq<Byte>

  /** ADSC, the start-conversion bit of ADCSRA. */
  const ADSC: Byte := 6
  /** ADMUX's REFS0 bit: AVcc reference; the channel number is added to it. */
  const ADMUX_AVCC: Byte := 0x40
  /** ADCSRA value: ADEN, ADSC and a prescaler of 128. */
  const ADCSRA_START: Byte := 0xC7

  /** registerWrite(reg_name, reg_value) */
  function RegisterWriteFrame(reg: int, value: int): (f: Result<Frame, PyError>)
    ensures f.Ok? <==> IsByte(reg) && IsByte(value)
    ensures f.Err? ==> f.error == ValueError
  {
    if IsByte(value) && IsByte(reg) then Ok([SET_DATA, value, SET_REGISTER, reg]) else Err(ValueError)
  }

  /** registerRead(reg_name) */
  function RegisterReadFrame(reg: int): (f: Result<Frame, PyError>)
    ensures f.Ok? <==> IsByte(reg)
    ensures f.Err? ==> f.error == ValueError
  {
    if IsByte(reg) then Ok([READ_REGISTER, reg]) else Err(ValueError)
  }

  /** readADC(): start a conversion, wait on the device until ADSC clears,
      then read ADCL and ADCH. */
  function ReadAdcFrame(r: Registers): (f: Frame)
    requires ValidRegisters(r)
    ensures |f| == 6
  {
    [SET_REGISTER_BIT + ADSC, r.adcsra,
     WAIT_UNTIL_BIT_IS_CLEARED + ADSC, r.adcsra,
     READ_16_BIT_REGISTER_INCR_ADDR, r.adcl]
  }

  function WaitOpcode(untilSet: bool): Byte {
    if untilSet then WAIT_UNTIL_BIT_IS_SET else WAIT_UNTIL_BIT_IS_CLEARED
  }

  function WaitInstr(untilSet: bool, bit: int, reg: Byte): Instr {
    if untilSet then WaitUntilBitIsSet(bit, reg) else WaitUntilBitIsCleared(bit, reg)
  }

  /** waitUntilBitIsSet(bit_num, *reg_name) when untilSet, else
      waitUntilBitIsCleared: with a register argument the bit number is
      used as given; without one it is a pin, and the wait is on that
      pin's input register. Extra register arguments are ignored. */
  function WaitFrame(untilSet: bool, r: Registers, bitNum: int, regArgs: seq<int>): (f: Result<Frame, PyError>)
    requires ValidRegisters(r)
    ensures |regArgs| > 0 ==> (f.Ok? <==> IsByte(WaitOpcode(untilSet) + bitNum) && IsByte(regArgs[0]))
    ensures |regArgs| == 0 ==> (f.Ok? <==> Resolve(r, bitNum).Some?)
    ensures f.Err? ==> f.error == if |regArgs| > 0 then ValueError else IndexError
    ensures f.Ok? ==> |f.value| == 2
  {
    var opcode := WaitOpcode(untilSet);
    if |regArgs| > 0 then
      if IsByte(opcode + bitNum) && IsByte(regArgs[0]) then Ok([opcode + bitNum, regArgs[0]])
      else Err(ValueError)
    else
      match Resolve(r, bitNum)
      case None => Err(IndexError)
      case Some(a) => Ok([opcode + a.bit, InputRegister(a.port)])
  }

  /** pinMode(pin, val): "OUTPUT" sets the pin's DDR bit; anything else
      clears it, and "INPUT_PULLUP" also sets the PORT bit, in the same frame. */
  function PinModeFrame(r: Registers, pin: int, mode: PyValue): (f: Result<Frame, PyError>)
    requires ValidRegisters(r)
    ensures f.Ok? <==> Resolve(r, pin).Some?
    ensures f.Err? ==> f.error == IndexError
    ensures f.Ok? ==> |f.value| == if mode == Str("INPUT_PULLUP") then 4 else 2
  {
    match Resolve(r, pin)
    case None => Err(IndexError)
    case Some(a) =>
      var cmdPin := a.bit + if mode == Str("OUTPUT") then SET_REGISTER_BIT else CLR_REGISTER_BIT;
      var pullUp: Frame := if mode == Str("INPUT_PULLUP") then [a.bit + SET_REGISTER_BIT, a.port] else [];
      Ok([cmdPin, DirectionRegister(a.port)] + pullUp)
  }

  /** digitalWrite's test for a low level: "LOW" or 0. */
  predicate IsLow(val: PyValue)
    ensures val.Int? ==> (IsLow(val) <==> val.n == 0)
    ensures val.Str? ==> (IsLow(val) <==> val.s == "LOW")
  {
    val == Str("LOW") || val == Int(0)
  }

  /** digitalWrite(pin, val) */
  function DigitalWriteFrame(r: Registers, pin: int, val: PyValue): (f: Result<Frame, PyError>)
    requires ValidRegisters(r)
    ensures f.Ok? <==> Resolve(r, pin).Some?
    ensures f.Err? ==> f.error == IndexError
    ensures f.Ok? ==> |f.value| == 2
  {
    match Resolve(r, pin)
    case None => Err(IndexError)
    case Some(a) =>
      var cmdPin := a.bit + if IsLow(val) then CLR_REGISTER_BIT else SET_REGISTER_BIT;
      Ok([cmdPin, a.port])
  }

  /** digitalRead(pin) */
  function DigitalReadFrame(r: Registers, pin: int): (f: Result<Frame, PyError>)
    requires ValidRegisters(r)
    ensures f.Ok? <==> Resolve(r, pin).Some?
    ensures f.Err? ==> f.error == IndexError
    ensures f.Ok? ==> |f.value| == 2
  {
    match Resolve(r, pin)
    case None => Err(IndexError)
    case Some(a) => Ok([a.bit + READ_REGISTER_BIT, InputRegister(a.port)])
  }

  /** analogRead(pin): select the channel, start the conversion, wait on
      the device until it ends and read the result, all in one frame. */
  function AnalogReadFrame(r: Registers, pin: int): (f: Result<Frame, PyError>)
    requires ValidRegisters(r)
    ensures f.Ok? <==> IsByte(ADMUX_AVCC + pin)
    ensures f.Err? ==> f.error == ValueError
    ensures f.Ok? ==> |f.value| == 12
  {
    if !IsByte(ADMUX_AVCC + pin) then Err(ValueError)
    else Ok([SET_DATA, ADMUX_AVCC + pin, SET_REGISTER, r.admux,
             SET_DATA, ADCSRA_START, SET_REGISTER, r.adcsra,
             WAIT_UNTIL_BIT_IS_CLEARED + ADSC, r.adcsra,
             READ_16_BIT_REGISTER_INCR_ADDR, r.adcl])
  }

  /** cmdLoop's frame: repeat the last count buffered command bytes. */
  function RepeatFrame(count: Byte): (f: Frame)
    ensures DecodeFrame(f) == Some([RepeatCmdBuffer(count)])
  {
    var f := [REPEAT_CMD_BUFFER, count];
    FrameRoundTrip([RepeatCmdBuffer(count)]);
    f
  }

  /** The single byte get_version and softwareReset send. */
  const ResetByte: Frame := [PROCES_RESET]

  /** find_port keeps a port when get_version's one-byte reply, read big
      endian, is 6. */
  predicate AcceptsVersion(reply: seq<Byte>)
    ensures AcceptsVersion(reply) <==> |reply| >= 1 && reply[0] == 6
  {
    OneByteRead(reply);
    FromBytesBig(Read(reply, 1)) == 6
  }

  lemma OneByteRead(reply: seq<Byte>)
    ensures FromBytesBig(Read(reply, 1)) == if |reply| >= 1 then reply[0] else 0
  {
    if |reply| >= 1 {
      OneByte(reply[0]);
      assert Read(reply, 1) == [reply[0]];
    }
  }

  // What each frame means to the firmware.

  lemma RegisterWriteMeaning(reg: Byte, value: Byte)
    ensures RegisterWriteFrame(reg, value).Ok?
    ensures DecodeFrame(RegisterWriteFrame(reg, value).value) == Some([SetData(value), SetRegister(reg)])
  {
    var ins := [SetData(value), SetRegister(reg)];
    assert EncodeAll(ins) == RegisterWriteFrame(reg, value).value;
    FrameRoundTrip(ins);
  }

  lemma RegisterReadMeaning(reg: Byte)
    ensures RegisterReadFrame(reg).Ok?
    ensures DecodeFrame(RegisterReadFrame(reg).value) == Some([ReadRegister(reg)])
  {
    var ins := [ReadRegister(reg)];
    assert EncodeAll(ins) == RegisterReadFrame(reg).value;
    FrameRoundTrip(ins);
  }

  lemma ReadAdcMeaning(r: Registers)
    requires ValidRegisters(r)
    ensures DecodeFrame(ReadAdcFrame(r)) ==
      Some([SetRegisterBit(ADSC, r.adcsra), WaitUntilBitIsCleared(ADSC, r.adcsra), Read16BitIncrAddr(r.adcl)])
  {
    var ins := [SetRegisterBit(ADSC, r.adcsra), WaitUntilBitIsCleared(ADSC, r.adcsra), Read16BitIncrAddr(r.adcl)];
    forall k | 0 <= k < 6 ensures EncodeAll(ins)[k] == ReadAdcFrame(r)[k] {
      EncodeAllAt(ins, k / 2);
    }
    assert EncodeAll(ins) == ReadAdcFrame(r);
    FrameRoundTrip(ins);
  }

  /** With a register argument, the frame means "wait on bit bitNum of that
      register" exactly when bitNum is a bit index 0..7; a larger number
      turns into a different instruction or into none. */
  lemma WaitOnRegisterMeaning(untilSet: bool, r: Registers, bitNum: int, regArgs: seq<int>)
    requires ValidRegisters(r) && |regArgs| > 0 && IsByte(regArgs[0])
    requires WaitFrame(untilSet, r, bitNum, regArgs).Ok?
    ensures DecodeFrame(WaitFrame(untilSet, r, bitNum, regArgs).value) == Some([WaitInstr(untilSet, bitNum, regArgs[0])])
            <==> 0 <= bitNum < 8
  {
    var f := WaitFrame(untilSet, r, bitNum, regArgs).value;
    if 0 <= bitNum < 8 {
      var ins := [WaitInstr(untilSet, bitNum, regArgs[0])];
      assert EncodeAll(ins) == f;
      FrameRoundTrip(ins);
    } else if DecodeFrame(f).Some? {
      FrameCanonical(f);
    }
  }

  /** Without a register argument, the wait is on the pin's bit of its
      input register (PINx, two below PORTx). */
  lemma WaitOnPinMeaning(untilSet: bool, r: Registers, pin: int)
    requires ValidRegisters(r) && Resolve(r, pin).Some?
    ensures var a := Resolve(r, pin).value;
      DecodeFrame(WaitFrame(untilSet, r, pin, []).value) == Some([WaitInstr(untilSet, a.bit, InputRegister(a.port))])
  {
    var a := Resolve(r, pin).value;
    var ins := [WaitInstr(untilSet, a.bit, InputRegister(a.port))];
    assert EncodeAll(ins) == WaitFrame(untilSet, r, pin, []).value;
    FrameRoundTrip(ins);
  }

  /** The instructions pinMode sends for a resolved pin. */
  function PinModeInstrs(a: PinAddress, mode: PyValue): seq<Instr>
    requires 0 <= a.bit < 8 && 2 <= a.port < 256
  {
    var ddr := DirectionRegister(a.port);
    if mode == Str("OUTPUT") then [SetRegisterBit(a.bit, ddr)]
    else if mode == Str("INPUT_PULLUP") then [ClrRegisterBit(a.bit, ddr), SetRegisterBit(a.bit, a.port)]
    else [ClrRegisterBit(a.bit, ddr)]
  }

  lemma PinModeMeaning(r: Registers, pin: int, mode: PyValue)
    requires ValidRegisters(r) && Resolve(r, pin).Some?
    ensures DecodeFrame(PinModeFrame(r, pin, mode).value) == Some(PinModeInstrs(Resolve(r, pin).value, mode))
  {
    var ins := PinModeInstrs(Resolve(r, pin).value, mode);
    assert EncodeAll(ins) == PinModeFrame(r, pin, mode).value;
    FrameRoundTrip(ins);
  }

  lemma DigitalWriteMeaning(r: Registers, pin: int, val: PyValue)
    requires ValidRegisters(r) && Resolve(r, pin).Some?
    ensures var a := Resolve(r, pin).value;
      DecodeFrame(DigitalWriteFrame(r, pin, val).value) ==
        Some([if IsLow(val) then ClrRegisterBit(a.bit, a.port) else SetRegisterBit(a.bit, a.port)])
  {
    var a := Resolve(r, pin).value;
    var ins := [if IsLow(val) then ClrRegisterBit(a.bit, a.port) else SetRegisterBit(a.bit, a.port)];
    assert EncodeAll(ins) == DigitalWriteFrame(r, pin, val).value;
    FrameRoundTrip(ins);
  }

  lemma DigitalReadMeaning(r: Registers, pin: int)
    requires ValidRegisters(r) && Resolve(r, pin).Some?
    ensures var a := Resolve(r, pin).value;
      DecodeFrame(DigitalReadFrame(r, pin).value) == Some([ReadRegisterBit(a.bit, InputRegister(a.port))])
  {
    var a := Resolve(r, pin).value;
    var ins := [ReadRegisterBit(a.bit, InputRegister(a.port))];
    assert EncodeAll(ins) == DigitalReadFrame(r, pin).value;
    FrameRoundTrip(ins);
  }

  lemma AnalogReadMeaning(r: Registers, pin: int)
    requires ValidRegisters(r) && IsByte(ADMUX_AVCC + pin)
    ensures DecodeFrame(AnalogReadFrame(r, pin).value) ==
      Some([SetData(ADMUX_AVCC + pin), SetRegister(r.admux),
            SetData(ADCSRA_START), SetRegister(r.adcsra),
            WaitUntilBitIsCleared(ADSC, r.adcsra), Read16BitIncrAddr(r.adcl)])
  {
    var ins := [SetData(ADMUX_AVCC + pin), SetRegister(r.admux),
                SetData(ADCSRA_START), SetRegister(r.adcsra),
                WaitUntilBitIsCleared(ADSC, r.adcsra), Read16BitIncrAddr(r.adcl)];
    forall k | 0 <= k < 12 ensures EncodeAll(ins)[k] == AnalogReadFrame(r, pin).value[k] {
      EncodeAllAt(ins, k / 2);
    }
    assert EncodeAll(ins) == AnalogReadFrame(r, pin).value;
    FrameRoundTrip(ins);
  }

  /** waitUntilBitIsSet(16, reg): the bit number spills out of the low
      nibble into the next opcode, and the firmware reads a wait until bit
      0 of reg is cleared. */
  lemma BitSpillsIntoNextOpcode(r: Registers, reg: Byte)
    requires ValidRegisters(r)
    ensures WaitFrame(true, r, 16, [reg]).Ok?
    ensures DecodeFrame(WaitFrame(true, r, 16, [reg]).value) == Some([WaitUntilBitIsCleared(0, reg)])
  {
    var f := WaitFrame(true, r, 16, [reg]).value;
    assert f == [WAIT_UNTIL_BIT_IS_CLEARED, reg];
    var ins := [WaitUntilBitIsCleared(0, reg)];
    assert EncodeAll(ins) == f;
    FrameRoundTrip(ins);
  }
}
