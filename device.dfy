/** A reference meaning for the register instructions of the opcode table,
    as the host relies on it: SET_DATA loads a data byte, SET_REGISTER
    stores it, SET/CLR_REGISTER_BIT change one bit, READ_REGISTER and
    READ_16_BIT_REGISTER_INCR_ADDR reply with register contents, and
    READ_REGISTER_BIT replies 1 or 0 for one bit. It is the
    yardstick the frames are measured against, not a model of the firmware
    (whose source is not part of this model); the waits, the resets, the
    decrementing read and the buffer repeat are outside it. */
module Device {
  import opened Wrappers
  import opened Bytes
  import opened Board
  import opened Protocol
  import opened Commands

  /** The loaded data byte and the register file. */
  datatype State = State(data: Byte, mem: map<Byte, Byte>)

  function Get(s: State, a: Byte): Byte {
    if a in s.mem then s.mem[a] else 0
  }

  function Put(s: State, a: Byte, v: Byte): (t: State)
    ensures Get(t, a) == v
    ensures forall b :: b != a ==> Get(t, b) == Get(s, b)
  {
    s.(mem := s.mem[a := v])
  }

  function Pow2(n: nat): (r: nat)
    ensures r > 0
  {
    if n == 0 then 1 else 2 * Pow2(n - 1)
  }

  /** The low n bits of v, least significant first. */
  function Bits(v: nat, n: nat): (bs: seq<bool>)
    ensures |bs| == n
  {
    if n == 0 then [] else [v % 2 == 1] + Bits(v / 2, n - 1)
  }

  /** The number whose bits, least significant first, are bs. */
  function FromBits(bs: seq<bool>): (v: nat)
    ensures v < Pow2(|bs|)
  {
    if bs == [] then 0 else (if bs[0] then 1 else 0) + 2 * FromBits(bs[1..])
  }

  lemma {:induction false} BitsCanonical(bs: seq<bool>)
    ensures Bits(FromBits(bs), |bs|) == bs
  {
    if bs != [] {
      var v := FromBits(bs);
      assert v % 2 == 1 <==> bs[0];
      assert v / 2 == FromBits(bs[1..]);
      BitsCanonical(bs[1..]);
    }
  }

  /** Bit b of a register value. */
  predicate BitOf(v: Byte, b: nat)
    requires b < 8
  {
    Bits(v, 8)[b]
  }

  /** v with bit b switched on or off and the other seven bits kept. */
  function WithBit(v: Byte, b: nat, on: bool): (r: Byte)
    requires b < 8
    ensures BitOf(r, b) == on
    ensures forall c :: 0 <= c < 8 && c != b ==> BitOf(r, c) == BitOf(v, c)
  {
    var bs := Bits(v, 8)[b := on];
    BitsCanonical(bs);
    assert Pow2(8) == 256;
    FromBits(bs)
  }

  /** One instruction: the new state and the reply bytes; None outside
      this reference meaning. */
  function Exec(s: State, i: Instr): Option<(State, seq<Byte>)>
    requires i.WellFormed()
  {
    match i
    case SetData(v) => Some((s.(data := v), []))
    case SetRegister(a) => Some((Put(s, a, s.data), []))
    case SetRegisterBit(b, a) => Some((Put(s, a, WithBit(Get(s, a), b, true)), []))
    case ClrRegisterBit(b, a) => Some((Put(s, a, WithBit(Get(s, a), b, false)), []))
    case ReadRegister(a) => Some((s, [Get(s, a)]))
    case ReadRegisterBit(b, a) => Some((s, [if BitOf(Get(s, a), b) then 1 else 0]))
    case Read16BitIncrAddr(a) => if a < 255 then Some((s, [Get(s, a), Get(s, a + 1)])) else None
    case _ => None
  }

  /** A frame's instructions in order, replies concatenated. */
  function Run(s: State, ins: seq<Instr>): Option<(State, seq<Byte>)>
    requires AllWellFormed(ins)
    decreases |ins|
  {
    if ins == [] then Some((s, []))
    else
      var step := Exec(s, ins[0]);
      if step.None? then None
      else
        var rest := Run(step.value.0, ins[1..]);
        if rest.None? then None else Some((rest.value.0, step.value.1 + rest.value.1))
  }

  /** Running an instruction and then the rest of a frame. */
  lemma RunStep(s: State, i: Instr, rest: seq<Instr>)
    requires i.WellFormed() && AllWellFormed(rest)
    requires Exec(s, i).Some? && Run(Exec(s, i).value.0, rest).Some?
    ensures AllWellFormed([i] + rest)
    ensures Run(s, [i] + rest) ==
      Some((Run(Exec(s, i).value.0, rest).value.0, Exec(s, i).value.1 + Run(Exec(s, i).value.0, rest).value.1))
  {
    assert ([i] + rest)[1..] == rest;
  }

  lemma RunOne(s: State, i: Instr)
    requires i.WellFormed() && Exec(s, i).Some?
    ensures Run(s, [i]) == Exec(s, i)
  {
    assert [i][1..] == [];
    assert Exec(s, i).value.1 + [] == Exec(s, i).value.1;
  }

  /** SET_DATA v, SET_REGISTER reg, READ_REGISTER reg: v is stored and read back. */
  lemma RunWriteRead(s: State, reg: Byte, v: Byte)
    ensures AllWellFormed([SetData(v), SetRegister(reg), ReadRegister(reg)])
    ensures Run(s, [SetData(v), SetRegister(reg), ReadRegister(reg)]) ==
      Some((Put(s.(data := v), reg, v), [v]))
  {
    var s1 := s.(data := v);
    var s2 := Put(s1, reg, v);
    var reply: seq<Byte> := [v];
    assert Get(s2, reg) == v;
    RunOne(s2, ReadRegister(reg));
    assert Run(s2, [ReadRegister(reg)]) == Some((s2, reply));
    assert Exec(s1, SetRegister(reg)) == Some((s2, []));
    RunStep(s1, SetRegister(reg), [ReadRegister(reg)]);
    assert [] + reply == reply;
    assert [SetRegister(reg)] + [ReadRegister(reg)] == [SetRegister(reg), ReadRegister(reg)];
    assert Exec(s, SetData(v)) == Some((s1, []));
    RunStep(s, SetData(v), [SetRegister(reg), ReadRegister(reg)]);
    assert [SetData(v)] + [SetRegister(reg), ReadRegister(reg)] == [SetData(v), SetRegister(reg), ReadRegister(reg)];
  }

  /** registerWrite(reg, v) followed by registerRead(reg) replies v, which
      decodes to v, and no other register changes. */
  lemma WriteThenRead(s: State, reg: Byte, v: Byte)
    ensures var f := RegisterWriteFrame(reg, v).value + RegisterReadFrame(reg).value;
      DecodeFrame(f).Some? && AllWellFormed(DecodeFrame(f).value) && Run(s, DecodeFrame(f).value).Some? &&
      var (t, reply) := Run(s, DecodeFrame(f).value).value;
      reply == [v] && FromBytesBig(reply) == v && Get(t, reg) == v &&
      forall a :: a != reg ==> Get(t, a) == Get(s, a)
  {
    RegisterWriteMeaning(reg, v);
    RegisterReadMeaning(reg);
    DecodeConcat(RegisterWriteFrame(reg, v).value, RegisterReadFrame(reg).value);
    assert [SetData(v), SetRegister(reg)] + [ReadRegister(reg)] == [SetData(v), SetRegister(reg), ReadRegister(reg)];
    RunWriteRead(s, reg, v);
    OneByte(v);
  }

  /** pinMode(pin, mode): the pin's DDR bit ends up set exactly for
      "OUTPUT"; "INPUT_PULLUP" also sets its PORT bit; nothing else in
      the register file changes. */
  lemma PinModeEffect(s: State, r: Registers, pin: int, mode: PyValue)
    requires ValidRegisters(r) && Resolve(r, pin).Some?
    ensures var a := Resolve(r, pin).value;
      var ddr := DirectionRegister(a.port);
      var f := DecodeFrame(PinModeFrame(r, pin, mode).value);
      f.Some? && AllWellFormed(f.value) && Run(s, f.value).Some? &&
      var ins := f.value;
      var (t, reply) := Run(s, ins).value;
      reply == [] &&
      BitOf(Get(t, ddr), a.bit) == (mode == Str("OUTPUT")) &&
      (forall c :: 0 <= c < 8 && c != a.bit ==> BitOf(Get(t, ddr), c) == BitOf(Get(s, ddr), c)) &&
      (mode == Str("INPUT_PULLUP") ==> Get(t, a.port) == WithBit(Get(s, a.port), a.bit, true)) &&
      (forall b :: b != ddr && (b != a.port || mode != Str("INPUT_PULLUP")) ==> Get(t, b) == Get(s, b))
  {
    var a := Resolve(r, pin).value;
    PinModeMeaning(r, pin, mode);
    RunPinMode(s, a, mode);
  }

  /** The register file after pinMode's instructions for pin address a. */
  function PinModeAfter(s: State, a: PinAddress, mode: PyValue): State
    requires 0 <= a.bit < 8 && 2 <= a.port < 256
  {
    var ddr := DirectionRegister(a.port);
    var s1 := Put(s, ddr, WithBit(Get(s, ddr), a.bit, mode == Str("OUTPUT")));
    if mode == Str("INPUT_PULLUP") then Put(s1, a.port, WithBit(Get(s1, a.port), a.bit, true)) else s1
  }

  lemma RunPinMode(s: State, a: PinAddress, mode: PyValue)
    requires 0 <= a.bit < 8 && 2 <= a.port < 256
    ensures AllWellFormed(PinModeInstrs(a, mode))
    ensures Run(s, PinModeInstrs(a, mode)) == Some((PinModeAfter(s, a, mode), []))
  {
    var ddr := DirectionRegister(a.port);
    var ins := PinModeInstrs(a, mode);
    var s1 := Put(s, ddr, WithBit(Get(s, ddr), a.bit, mode == Str("OUTPUT")));
    RunOne(s, ins[0]);
    if mode == Str("INPUT_PULLUP") {
      RunOne(s1, ins[1]);
      RunStep(s, ins[0], [ins[1]]);
      assert ins == [ins[0]] + [ins[1]];
    } else {
      assert ins == [ins[0]];
    }
  }

  /** digitalWrite(pin, val): the pin's PORT bit ends up clear exactly for
      "LOW" or 0; nothing else changes. */
  lemma DigitalWriteEffect(s: State, r: Registers, pin: int, val: PyValue)
    requires ValidRegisters(r) && Resolve(r, pin).Some?
    ensures var a := Resolve(r, pin).value;
      var f := DecodeFrame(DigitalWriteFrame(r, pin, val).value);
      f.Some? && AllWellFormed(f.value) && Run(s, f.value).Some? &&
      var ins := f.value;
      var (t, reply) := Run(s, ins).value;
      reply == [] &&
      BitOf(Get(t, a.port), a.bit) == !IsLow(val) &&
      (forall c :: 0 <= c < 8 && c != a.bit ==> BitOf(Get(t, a.port), c) == BitOf(Get(s, a.port), c)) &&
      (forall b :: b != a.port ==> Get(t, b) == Get(s, b))
  {
    var a := Resolve(r, pin).value;
    DigitalWriteMeaning(r, pin, val);
    var ins := DecodeFrame(DigitalWriteFrame(r, pin, val).value).value;
    var t := Put(s, a.port, WithBit(Get(s, a.port), a.bit, !IsLow(val)));
    RunOne(s, ins[0]);
    assert ins == [ins[0]];
    assert Run(s, ins) == Some((t, []));
  }

  /** digitalRead(pin): one reply byte, which reads as 1 exactly when the
      pin's bit of its PIN register is set and as 0 otherwise; no register
      changes. */
  lemma DigitalReadEffect(s: State, r: Registers, pin: int)
    requires ValidRegisters(r) && Resolve(r, pin).Some?
    ensures var a := Resolve(r, pin).value;
      var f := DecodeFrame(DigitalReadFrame(r, pin).value);
      f.Some? && AllWellFormed(f.value) && Run(s, f.value).Some? &&
      var (t, reply) := Run(s, f.value).value;
      t == s && |reply| == 1 &&
      (FromBytesBig(reply) == 1 <==> BitOf(Get(s, InputRegister(a.port)), a.bit)) &&
      (FromBytesBig(reply) == 0 <==> !BitOf(Get(s, InputRegister(a.port)), a.bit))
  {
    var a := Resolve(r, pin).value;
    DigitalReadMeaning(r, pin);
    var ins := DecodeFrame(DigitalReadFrame(r, pin).value).value;
    var x: Byte := if BitOf(Get(s, InputRegister(a.port)), a.bit) then 1 else 0;
    RunOne(s, ins[0]);
    assert ins == [ins[0]];
    assert Run(s, ins) == Some((s, [x]));
    OneByte(x);
  }

  /** A 16-bit read with incrementing address replies low byte then high
      byte, so the little-endian decoding is the register pair's value. */
  lemma Read16Value(s: State, a: Byte)
    requires a < 255
    ensures Run(s, [Read16BitIncrAddr(a)]).Some?
    ensures FromBytesLittle(Run(s, [Read16BitIncrAddr(a)]).value.1) == Get(s, a) + 256 * Get(s, a + 1)
  {
    var ins := [Read16BitIncrAddr(a)];
    RunOne(s, ins[0]);
    var reply: seq<Byte> := [Get(s, a), Get(s, a + 1)];
    assert Run(s, ins) == Some((s, reply));
    assert reply[1..][1..] == [];
  }
}
