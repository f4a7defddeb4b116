/** The Arduino object: the serial link, seen only as the bytes written to
    it and the reply bytes the device sends back, and the two counters
    behind cmdDo and cmdLoop. */
module Session {
  import opened Wrappers
  import opened Bytes
  import opened Board
  import opened Protocol
  import opened Commands
  import opened Counter
  import opened CmdString

  /** The bytes that reach the port for a result: none when building the
      frame, or writing it, raised. */
  function Sent(f: Result<Frame, PyError>): Frame {
    if f.Ok? then f.value else []
  }

  /** The exception that escapes a method whose frame building raised. */
  function Raised(f: Result<Frame, PyError>): Option<PyError> {
    if f.Err? then Some(f.error) else None
  }

  /** An ASCII string as the bytes the serial port writes for it. */
  function AsciiBytes(s: string): (r: seq<Byte>)
    requires forall i :: 0 <= i < |s| ==> s[i] as int < 128
    ensures |r| == |s|
    ensures forall i :: 0 <= i < |s| ==> r[i] == s[i] as int
  {
    if s == [] then [] else [s[0] as int] + AsciiBytes(s[1..])
  }

  /** What sr.write is handed: text, or bytes. */
  datatype WriteArg = Text(text: string) | Data(bytes: seq<Byte>)

  /** pyserial's write under Python 3: bytes are written as they are; a
      str is refused with TypeError before anything reaches the port. */
  function PortWrite(arg: WriteArg): (r: Result<seq<Byte>, PyError>)
    ensures r.Ok? <==> arg.Data?
    ensures r.Ok? ==> r.value == arg.bytes
    ensures r.Err? ==> r.error == TypeError
  {
    match arg
    case Text(_) => Err(TypeError)
    case Data(bs) => Ok(bs)
  }

  /** The value read(2) decoded little endian gives for every reply length. */
  lemma ShortReplyRead(reply: seq<Byte>)
    ensures |reply| >= 2 ==> FromBytesLittle(Read(reply, 2)) == reply[0] as int + 256 * reply[1] as int
    ensures |reply| == 1 ==> FromBytesLittle(Read(reply, 2)) == reply[0]
    ensures reply == [] ==> FromBytesLittle(Read(reply, 2)) == 0
  {
    if |reply| >= 2 {
      TwoBytesRead(reply);
    } else if |reply| == 1 {
      assert Read(reply, 2) == [reply[0]];
      OneByte(reply[0]);
    }
  }

  class Arduino {
    /** The m328 register addresses the pin tables and frames refer to. */
    const regs: Registers
    /** cmd_buffer_num: bytes sent through SendAPICmd, modulo 256. */
    var cmdBufferNum: int
    /** cmd_do_buffer_num: cmdBufferNum at the last CmdDo. */
    var cmdDoBufferNum: int
    /** cmd_loop_buffer_num: set to 0 at construction and never used. */
    var cmdLoopBufferNum: int

    /** Every byte written to the serial port, in order. */
    var wire: seq<Byte>
    /** The bytes written through SendAPICmd, which the counter counts. */
    ghost var counted: seq<Byte>
    /** |counted| at the last CmdDo. */
    ghost var mark: nat

    ghost predicate Valid()
      reads this
    {
      ValidRegisters(regs) &&
      0 <= cmdBufferNum < 256 && 0 <= cmdDoBufferNum < 256 &&
      cmdBufferNum == |counted| % 256 &&
      mark <= |counted| && cmdDoBufferNum == mark % 256
    }

    /** The port is already open and flushed; finding it is not modelled. */
    constructor (regs: Registers)
      requires ValidRegisters(regs)
      ensures Valid() && this.regs == regs
      ensures cmdBufferNum == 0 && cmdDoBufferNum == 0 && cmdLoopBufferNum == 0
      ensures wire == [] && counted == [] && mark == 0
    {
      this.regs := regs;
      cmdBufferNum := 0;
      cmdDoBufferNum := 0;
      cmdLoopBufferNum := 0;
      wire := [];
      counted := [];
      mark := 0;
    }

    /** What a call that sends frame through SendAPICmd leaves behind. */
    twostate predicate SentApi(frame: seq<Byte>)
      reads this
    {
      Valid() &&
      wire == old(wire) + frame && counted == old(counted) + frame &&
      cmdBufferNum == CounterAfterSend(old(cmdBufferNum), |frame|) &&
      cmdDoBufferNum == old(cmdDoBufferNum) && cmdLoopBufferNum == old(cmdLoopBufferNum) &&
      mark == old(mark)
    }

    /** sendAPICmd(cmd_str): copies the frame byte by byte, writes it
        unchanged and advances the counter by its length, modulo 256. */
    method SendAPICmd(cmd: seq<Byte>)
      requires Valid()
      modifies this
      ensures SentApi(cmd)
    {
      var packet: seq<Byte> := [];
      var i := 0;
      while i < |cmd|
        invariant 0 <= i <= |cmd|
        invariant packet == cmd[..i]
      {
        packet := packet + [cmd[i]];
        i := i + 1;
      }
      assert packet == cmd;
      CounterTracksTotal(|counted|, |packet|);
      wire := wire + packet;
      counted := counted + packet;
      cmdBufferNum := CounterAfterSend(cmdBufferNum, |packet|);
    }

    /** version(): get_version writes the lone reset byte straight to the
        port, bypassing the counter, and reads one byte back. */
    method Version(reply: seq<Byte>) returns (version: int)
      requires Valid()
      modifies this
      ensures Valid() && wire == old(wire) + ResetByte && counted == old(counted)
      ensures cmdBufferNum == old(cmdBufferNum) && cmdDoBufferNum == old(cmdDoBufferNum) && mark == old(mark)
      ensures cmdLoopBufferNum == old(cmdLoopBufferNum)
      ensures version == if |reply| >= 1 then reply[0] else 0
      ensures AcceptsVersion(reply) <==> version == 6
    {
      wire := wire + ResetByte;
      version := FromBytesBig(Read(reply, 1));
      OneByteRead(reply);
    }

    /** softwareReset(): the reset byte through sendAPICmd; the reply is
        read and dropped. */
    method SoftwareReset(reply: seq<Byte>) returns (r: int)
      requires Valid()
      modifies this
      ensures SentApi(ResetByte)
      ensures r == 0
    {
      SendAPICmd(ResetByte);
      r := 0;
    }

    /** cmdDo(): marks where the loop body starts. */
    method CmdDo()
      requires Valid()
      modifies this
      ensures Valid() && cmdDoBufferNum == old(cmdBufferNum) && mark == |counted|
      ensures cmdBufferNum == old(cmdBufferNum) && cmdLoopBufferNum == old(cmdLoopBufferNum)
      ensures wire == old(wire) && counted == old(counted)
    {
      cmdDoBufferNum := cmdBufferNum;
      mark := |counted|;
    }

    /** cmdLoop(): asks the firmware to repeat what was sent since the
        mark. When fewer than 256 bytes went out since CmdDo, the count is
        exactly their number. */
    method CmdLoop()
      requires Valid()
      modifies this
      ensures SentApi(RepeatFrame(ReplayCount(old(cmdDoBufferNum), old(cmdBufferNum))))
      ensures |old(counted)| - mark < 256 ==>
        wire == old(wire) + [REPEAT_CMD_BUFFER, |old(counted)| - mark]
    {
      var repeatLastCmdBufferNum: int;
      if cmdDoBufferNum <= cmdBufferNum {
        repeatLastCmdBufferNum := cmdBufferNum - cmdDoBufferNum;
      } else {
        repeatLastCmdBufferNum := cmdBufferNum + (256 - cmdDoBufferNum);
      }
      if |counted| - mark < 256 {
        ReplayCountSinceMark(mark, |counted|);
      }
      SendAPICmd([REPEAT_CMD_BUFFER, repeatLastCmdBufferNum]);
    }

    /** registerWrite(reg_name, reg_value); a value that is not a byte is
        caught and nothing is sent. */
    method RegisterWrite(reg: int, value: int)
      requires Valid()
      modifies this
      ensures SentApi(Sent(RegisterWriteFrame(reg, value)))
    {
      var f := RegisterWriteFrame(reg, value);
      if f.Ok? {
        SendAPICmd(f.value);
      } else {
        SendNothing();
      }
    }

    /** Leaves everything as it is; for the paths that send no frame. */
    method SendNothing()
      requires Valid()
      modifies this
      ensures SentApi([])
    {
      assert wire + [] == wire && counted + [] == counted;
      CounterTracksTotal(|counted|, 0);
    }

    /** registerRead(reg_name): one reply byte, read big endian; None (the
        Python None) when the register number is not a byte. */
    method RegisterRead(reg: int, reply: seq<Byte>) returns (r: Option<int>)
      requires Valid()
      modifies this
      ensures SentApi(Sent(RegisterReadFrame(reg)))
      ensures r.Some? <==> IsByte(reg)
      ensures r.Some? ==> r.value == if |reply| >= 1 then reply[0] else 0
    {
      var f := RegisterReadFrame(reg);
      if f.Ok? {
        SendAPICmd(f.value);
        OneByteRead(reply);
        r := Some(FromBytesBig(Read(reply, 1)));
      } else {
        SendNothing();
        r := None;
      }
    }

    /** readADC(): two reply bytes, read little endian. */
    method ReadADC(reply: seq<Byte>) returns (x: int)
      requires Valid()
      modifies this
      ensures SentApi(ReadAdcFrame(regs))
      ensures 0 <= x < 0x1_0000
      ensures |reply| >= 2 ==> x == reply[0] as int + 256 * reply[1] as int
      ensures |reply| == 1 ==> x == reply[0]
      ensures reply == [] ==> x == 0
    {
      SendAPICmd(ReadAdcFrame(regs));
      x := FromBytesLittle(Read(reply, 2));
      ShortReplyRead(reply);
    }

    /** waitUntilBitIsSet(bit_num, *reg_name) */
    method WaitUntilBitIsSet(bitNum: int, regArgs: seq<int>) returns (raised: Option<PyError>)
      requires Valid()
      modifies this
      ensures SentApi(Sent(WaitFrame(true, regs, bitNum, regArgs)))
      ensures raised == Raised(WaitFrame(true, regs, bitNum, regArgs))
    {
      raised := SendWait(true, bitNum, regArgs);
    }

    /** waitUntilBitIsCleared(bit_num, *reg_name) */
    method WaitUntilBitIsCleared(bitNum: int, regArgs: seq<int>) returns (raised: Option<PyError>)
      requires Valid()
      modifies this
      ensures SentApi(Sent(WaitFrame(false, regs, bitNum, regArgs)))
      ensures raised == Raised(WaitFrame(false, regs, bitNum, regArgs))
    {
      raised := SendWait(false, bitNum, regArgs);
    }

    /** The body the two wait methods share: the frame is built before the
        try block, so a bad argument raises and nothing is sent. */
    method SendWait(untilSet: bool, bitNum: int, regArgs: seq<int>) returns (raised: Option<PyError>)
      requires Valid()
      modifies this
      ensures SentApi(Sent(WaitFrame(untilSet, regs, bitNum, regArgs)))
      ensures raised == Raised(WaitFrame(untilSet, regs, bitNum, regArgs))
    {
      var f := WaitFrame(untilSet, regs, bitNum, regArgs);
      if f.Ok? {
        SendAPICmd(f.value);
        raised := None;
      } else {
        SendNothing();
        raised := Some(f.error);
      }
    }

    /** pinMode(pin, val): an unknown pin raises IndexError before anything is sent. */
    method PinMode(pin: int, mode: PyValue) returns (raised: Option<PyError>)
      requires Valid()
      modifies this
      ensures SentApi(Sent(PinModeFrame(regs, pin, mode)))
      ensures raised == Raised(PinModeFrame(regs, pin, mode))
    {
      var f := PinModeFrame(regs, pin, mode);
      if f.Ok? {
        SendAPICmd(f.value);
        raised := None;
      } else {
        SendNothing();
        raised := Some(f.error);
      }
    }

    /** digitalWrite(pin, val) */
    method DigitalWrite(pin: int, val: PyValue) returns (raised: Option<PyError>)
      requires Valid()
      modifies this
      ensures SentApi(Sent(DigitalWriteFrame(regs, pin, val)))
      ensures raised == Raised(DigitalWriteFrame(regs, pin, val))
    {
      var f := DigitalWriteFrame(regs, pin, val);
      if f.Ok? {
        SendAPICmd(f.value);
        raised := None;
      } else {
        SendNothing();
        raised := Some(f.error);
      }
    }

    /** digitalRead(pin): one reply byte, read big endian. */
    method DigitalRead(pin: int, reply: seq<Byte>) returns (r: Result<int, PyError>)
      requires Valid()
      modifies this
      ensures SentApi(Sent(DigitalReadFrame(regs, pin)))
      ensures r.Err? <==> Resolve(regs, pin).None?
      ensures r.Err? ==> r.error == IndexError
      ensures r.Ok? ==> r.value == if |reply| >= 1 then reply[0] else 0
    {
      var f := DigitalReadFrame(regs, pin);
      if f.Ok? {
        SendAPICmd(f.value);
        OneByteRead(reply);
        r := Ok(FromBytesBig(Read(reply, 1)));
      } else {
        SendNothing();
        r := Err(f.error);
      }
    }

    /** analogRead(pin): two reply bytes, read little endian. A pin that
        makes 0x40 + pin leave the byte range raises ValueError. */
    method AnalogRead(pin: int, reply: seq<Byte>) returns (r: Result<int, PyError>)
      requires Valid()
      modifies this
      ensures SentApi(Sent(AnalogReadFrame(regs, pin)))
      ensures r.Err? <==> !IsByte(ADMUX_AVCC + pin)
      ensures r.Err? ==> r.error == ValueError
      ensures r.Ok? ==> 0 <= r.value < 0x1_0000
      ensures r.Ok? && |reply| >= 2 ==> r.value == reply[0] as int + 256 * reply[1] as int
      ensures r.Ok? && |reply| == 1 ==> r.value == reply[0]
      ensures r.Ok? && reply == [] ==> r.value == 0
    {
      var f := AnalogReadFrame(regs, pin);
      if f.Ok? {
        SendAPICmd(f.value);
        ShortReplyRead(reply);
        r := Ok(FromBytesLittle(Read(reply, 2)));
      } else {
        SendNothing();
        r := Err(f.error);
      }
    }

    /** analogWrite(pin, val) as written: the command string itself is
        handed to sr.write, which refuses a str; the bare except swallows
        the TypeError and nothing is sent. */
    method AnalogWriteAsWritten(pin: int, val: int)
      requires Valid()
      modifies this
      ensures Valid() && wire == old(wire) && counted == old(counted) && mark == old(mark)
      ensures cmdBufferNum == old(cmdBufferNum) && cmdDoBufferNum == old(cmdDoBufferNum)
      ensures cmdLoopBufferNum == old(cmdLoopBufferNum)
    {
      var written := PortWrite(Text(AnalogWriteCommand(pin, val)));
      wire := wire + Sent(written);
      assert Sent(written) == [];
    }

    /** analogWrite(pin, val) with the command encoded to ASCII bytes: the
        text command goes straight to the port, so the counter does not move. */
    method AnalogWrite(pin: int, val: int)
      requires Valid()
      modifies this
      ensures Valid()
      ensures wire == old(wire) + AsciiBytes(AnalogWriteCommand(pin, val))
      ensures counted == old(counted) && mark == old(mark)
      ensures cmdBufferNum == old(cmdBufferNum) && cmdDoBufferNum == old(cmdDoBufferNum)
      ensures cmdLoopBufferNum == old(cmdLoopBufferNum)
    {
      var written := PortWrite(Data(AsciiBytes(AnalogWriteCommand(pin, val))));
      wire := wire + Sent(written);
    }
  }

  /** DoLoopExample from the repository's examples: pin 13 as output, then
      a loop body of two digitalWrite frames; the loop repeats those 4 bytes. */
  method DoLoopExample(regs: Registers) returns (loopFrame: seq<Byte>)
    requires ValidRegisters(regs)
    ensures loopFrame == [REPEAT_CMD_BUFFER, 4]
  {
    var board := new Arduino(regs);
    var raised := board.PinMode(13, Str("OUTPUT"));
    board.CmdDo();
    raised := board.DigitalWrite(13, Str("HIGH"));
    raised := board.DigitalWrite(13, Str("LOW"));
    var before := |board.wire|;
    board.CmdLoop();
    loopFrame := board.wire[before..];
  }

  /** analogRead(0) when the device answers 0x00, 0x02 reads 512. */
  method AnalogReadExample(regs: Registers) returns (value: Result<int, PyError>, sent: seq<Byte>)
    requires ValidRegisters(regs)
    ensures value == Ok(512)
    ensures |sent| == 12 && sent[..2] == [SET_DATA, 0x40]
  {
    var board := new Arduino(regs);
    value := board.AnalogRead(0, [0x00, 0x02]);
    sent := board.wire;
  }

  /** analogWrite(pin, val) on a fresh board: as written nothing reaches
      the port; encoded, the whole "aw" command does, and it reads back as
      the pin and the clamped duty value. */
  method AnalogWriteExample(regs: Registers, pin: int, val: int) returns (sentAsWritten: seq<Byte>, sent: seq<Byte>)
    requires ValidRegisters(regs)
    ensures sentAsWritten == []
    ensures sent == AsciiBytes(AnalogWriteCommand(pin, val)) && |sent| >= 9
  {
    var board := new Arduino(regs);
    board.AnalogWriteAsWritten(pin, val);
    sentAsWritten := board.wire;
    var fixed := new Arduino(regs);
    fixed.AnalogWrite(pin, val);
    sent := fixed.wire;
  }
}
