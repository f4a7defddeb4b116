/** The firmware's "process commands": every instruction is an opcode byte
    and an operand byte. The opcode sits in the high nibble; the bit
    oriented opcodes carry their bit index in the low nibble. A frame is
    instructions back to back, with no delimiter or length prefix. */
module Protocol {
  import opened Wrappers
  import opened Bytes

  const PROCES_RESET: Byte := 0x00
  const READ_REGISTER: Byte := 0x10
  const SET_REGISTER: Byte := 0x20
  const SET_REGISTER_BIT: Byte := 0x30
  const CLR_REGISTER_BIT: Byte := 0x40
  const READ_REGISTER_BIT: Byte := 0x50
  const WAIT_UNTIL_BIT_IS_SET: Byte := 0x60
  const WAIT_UNTIL_BIT_IS_CLEARED: Byte := 0x70
  const READ_16_BIT_REGISTER_INCR_ADDR: Byte := 0x80
  const READ_16_BIT_REGISTER_DECR_ADDR: Byte := 0x90
  const REPEAT_CMD_BUFFER: Byte := 0xA0
  const SET_DATA: Byte := 0xB0

  datatype Instr =
    | ProcesReset(arg: Byte)
    | ReadRegister(reg: Byte)
    | SetRegister(reg: Byte)
    | SetRegisterBit(bit: int, reg: Byte)
    | ClrRegisterBit(bit: int, reg: Byte)
    | ReadRegisterBit(bit: int, reg: Byte)
    | WaitUntilBitIsSet(bit: int, reg: Byte)
    | WaitUntilBitIsCleared(bit: int, reg: Byte)
    | Read16BitIncrAddr(reg: Byte)
    | Read16BitDecrAddr(reg: Byte)
    | RepeatCmdBuffer(count: Byte)
    | SetData(value: Byte)
  {
    predicate IsBitOp() {
      SetRegisterBit? || ClrRegisterBit? || ReadRegisterBit? ||
      WaitUntilBitIsSet? || WaitUntilBitIsCleared?
    }

    /** A bit index addresses one of the eight bits of a register. */
    predicate WellFormed() {
      IsBitOp() ==> 0 <= bit < 8
    }

    function Opcode(): Byte {
      match this
      case ProcesReset(_) => PROCES_RESET
      case ReadRegister(_) => READ_REGISTER
      case SetRegister(_) => SET_REGISTER
      case SetRegisterBit(_, _) => SET_REGISTER_BIT
      case ClrRegisterBit(_, _) => CLR_REGISTER_BIT
      case ReadRegisterBit(_, _) => READ_REGISTER_BIT
      case WaitUntilBitIsSet(_, _) => WAIT_UNTIL_BIT_IS_SET
      case WaitUntilBitIsCleared(_, _) => WAIT_UNTIL_BIT_IS_CLEARED
      case Read16BitIncrAddr(_) => READ_16_BIT_REGISTER_INCR_ADDR
      case Read16BitDecrAddr(_) => READ_16_BIT_REGISTER_DECR_ADDR
      case RepeatCmdBuffer(_) => REPEAT_CMD_BUFFER
      case SetData(_) => SET_DATA
    }

    function Operand(): Byte {
      match this
      case ProcesReset(a) => a
      case RepeatCmdBuffer(n) => n
      case SetData(v) => v
      case _ => reg
    }
  }

  /** The two bytes of one instruction: opcode plus inline bit, then the operand. */
  function Encode(i: Instr): (r: seq<Byte>)
    requires i.WellFormed()
    ensures |r| == 2 && r[0] / 16 == i.Opcode() / 16 && r[1] == i.Operand()
    ensures r[0] % 16 == if i.IsBitOp() then i.bit else 0
  {
    [i.Opcode() + (if i.IsBitOp() then i.bit else 0), i.Operand()]
  }

  predicate AllWellFormed(ins: seq<Instr>) {
    forall k :: 0 <= k < |ins| ==> ins[k].WellFormed()
  }

  function EncodeAll(ins: seq<Instr>): (r: seq<Byte>)
    requires AllWellFormed(ins)
    ensures |r| == 2 * |ins|
  {
    if ins == [] then [] else Encode(ins[0]) + EncodeAll(ins[1..])
  }

  /** How the firmware reads one opcode byte and its operand; None for a
      byte it has no instruction for. */
  function Decode(op: Byte, arg: Byte): Option<Instr> {
    var nibble := op / 16;
    var low := op % 16;
    if 3 <= nibble <= 7 then
      if low >= 8 then None
      else if nibble == 3 then Some(SetRegisterBit(low, arg))
      else if nibble == 4 then Some(ClrRegisterBit(low, arg))
      else if nibble == 5 then Some(ReadRegisterBit(low, arg))
      else if nibble == 6 then Some(WaitUntilBitIsSet(low, arg))
      else Some(WaitUntilBitIsCleared(low, arg))
    else if low != 0 then None
    else if nibble == 0 then Some(ProcesReset(arg))
    else if nibble == 1 then Some(ReadRegister(arg))
    else if nibble == 2 then Some(SetRegister(arg))
    else if nibble == 8 then Some(Read16BitIncrAddr(arg))
    else if nibble == 9 then Some(Read16BitDecrAddr(arg))
    else if nibble == 10 then Some(RepeatCmdBuffer(arg))
    else if nibble == 11 then Some(SetData(arg))
    else None
  }

  /** A whole frame, two bytes at a time; a dangling odd byte is not an
      instruction. */
  function DecodeFrame(f: seq<Byte>): Option<seq<Instr>>
    decreases |f|
  {
    if |f| == 0 then Some([])
    else if |f| == 1 then None
    else
      var head := Decode(f[0], f[1]);
      var tail := DecodeFrame(f[2..]);
      if head.Some? && tail.Some? then Some([head.value] + tail.value) else None
  }

  lemma DecodeEncode(i: Instr)
    requires i.WellFormed()
    ensures Decode(Encode(i)[0], Encode(i)[1]) == Some(i)
  {
  }

  /** Decoding is one-to-one: a decoded pair is exactly the encoding of
      what it decodes to. */
  lemma EncodeDecode(op: Byte, arg: Byte)
    requires Decode(op, arg).Some?
    ensures Decode(op, arg).value.WellFormed()
    ensures Encode(Decode(op, arg).value) == [op, arg]
  {
    assert op == op / 16 * 16 + op % 16;
  }

  lemma {:induction false} EncodeAllAppend(a: seq<Instr>, b: seq<Instr>)
    requires AllWellFormed(a) && AllWellFormed(b)
    ensures AllWellFormed(a + b)
    ensures EncodeAll(a + b) == EncodeAll(a) + EncodeAll(b)
  {
    if a != [] {
      assert (a + b)[1..] == a[1..] + b;
      EncodeAllAppend(a[1..], b);
    } else {
      assert a + b == b;
    }
  }

  /** Instruction j of a frame occupies bytes 2j and 2j+1. */
  lemma {:induction false} EncodeAllAt(ins: seq<Instr>, j: nat)
    requires AllWellFormed(ins) && j < |ins|
    ensures EncodeAll(ins)[2 * j] == Encode(ins[j])[0]
    ensures EncodeAll(ins)[2 * j + 1] == Encode(ins[j])[1]
  {
    if j > 0 {
      EncodeAllAt(ins[1..], j - 1);
    }
  }

  /** Every sequence of well-formed instructions survives encoding. */
  lemma {:induction false} FrameRoundTrip(ins: seq<Instr>)
    requires AllWellFormed(ins)
    ensures DecodeFrame(EncodeAll(ins)) == Some(ins)
  {
    if ins != [] {
      var f := EncodeAll(ins);
      assert f[..2] == Encode(ins[0]) && f[2..] == EncodeAll(ins[1..]);
      DecodeEncode(ins[0]);
      FrameRoundTrip(ins[1..]);
      assert [ins[0]] + ins[1..] == ins;
    }
  }

  /** Every frame the firmware accepts is the encoding of what it reads. */
  lemma {:induction false} FrameCanonical(f: seq<Byte>)
    requires DecodeFrame(f).Some?
    ensures AllWellFormed(DecodeFrame(f).value)
    ensures EncodeAll(DecodeFrame(f).value) == f
  {
    if |f| >= 2 {
      var ins := DecodeFrame(f).value;
      EncodeDecode(f[0], f[1]);
      FrameCanonical(f[2..]);
      assert ins[1..] == DecodeFrame(f[2..]).value;
      assert f == [f[0], f[1]] + f[2..];
    }
  }

  /** Two frames sent one after the other read as their instructions in order. */
  lemma FramesConcatenate(a: seq<Instr>, b: seq<Instr>)
    requires AllWellFormed(a) && AllWellFormed(b)
    ensures DecodeFrame(EncodeAll(a) + EncodeAll(b)) == Some(a + b)
  {
    EncodeAllAppend(a, b);
    FrameRoundTrip(a + b);
  }

  /** Two accepted frames sent back to back read as the first's
      instructions followed by the second's. */
  lemma DecodeConcat(f: seq<Byte>, g: seq<Byte>)
    requires DecodeFrame(f).Some? && DecodeFrame(g).Some?
    ensures DecodeFrame(f + g) == Some(DecodeFrame(f).value + DecodeFrame(g).value)
  {
    FrameCanonical(f);
    FrameCanonical(g);
    FramesConcatenate(DecodeFrame(f).value, DecodeFrame(g).value);
  }

  /** The version probe is a lone reset byte, not a whole instruction. */
  lemma ProbeIsIncomplete()
    ensures DecodeFrame([PROCES_RESET]) == None
  {
  }
}
