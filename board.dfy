/** The Arduino UNO pinout: logical pins 0..19 to (bit, port output
    register) on the ATmega328, and the registers next to each port. */
module Board {
  import opened Wrappers
  import opened Bytes

  /** The ATmega328 register addresses the library takes from m328; the
      m328 module is not part of this model, so the addresses are
      parameters. */
  datatype Registers = Registers(portB: int, portC: int, portD: int, admux: int, adcsra: int, adcl: int)

  /** Every address is a byte, and each port sits at least two above zero
      so that its direction and input registers are bytes too. */
  predicate ValidRegisters(r: Registers) {
    2 <= r.portB < 256 && 2 <= r.portC < 256 && 2 <= r.portD < 256 &&
    IsByte(r.admux) && IsByte(r.adcsra) && IsByte(r.adcl)
  }

  predicate DistinctPorts(r: Registers) {
    r.portB != r.portC && r.portC != r.portD && r.portB != r.portD
  }

  const PinCount: nat := 20

  /** pin_name: the bit of each pin within its port. */
  const PinName: seq<int> := [0, 1, 2, 3, 4, 5, 6, 7,  // PORTD
                              0, 1, 2, 3, 4, 5,        // PORTB
                              0, 1, 2, 3, 4, 5]        // PORTC

  /** pin_port: the output register of each pin's port. */
  function PinPort(r: Registers): (ports: seq<int>)
    ensures |ports| == PinCount
    ensures forall k :: 0 <= k < |ports| ==> ports[k] in {r.portB, r.portC, r.portD}
  {
    [r.portD, r.portD, r.portD, r.portD, r.portD, r.portD, r.portD, r.portD,
     r.portB, r.portB, r.portB, r.portB, r.portB, r.portB,
     r.portC, r.portC, r.portC, r.portC, r.portC, r.portC]
  }

  /** Python's xs[i] on a list of length n: -n <= i < n is accepted and a
      negative i counts from the end; anything else raises IndexError. */
  function ListIndex(i: int, n: nat): (k: Option<nat>)
    ensures k.Some? <==> -(n as int) <= i < n
    ensures k.Some? ==> k.value < n && k.value == if i >= 0 then i else i + n
  {
    if 0 <= i < n then Some(i) else if -(n as int) <= i < 0 then Some(i + n) else None
  }

  /** DDRx sits one below PORTx. */
  function DirectionRegister(port: int): int {
    port - 1
  }

  /** PINx sits two below PORTx. */
  function InputRegister(port: int): int {
    port - 2
  }

  datatype PinAddress = PinAddress(bit: int, port: int)

  /** (pin_name[pin], pin_port[pin]) */
  function Resolve(r: Registers, pin: int): (a: Option<PinAddress>)
    ensures a.Some? <==> -(PinCount as int) <= pin < PinCount
    ensures a.Some? ==> 0 <= a.value.bit < 8 && a.value.port in {r.portB, r.portC, r.portD}
  {
    match ListIndex(pin, PinCount)
    case None => None
    case Some(k) => Some(PinAddress(PinName[k], PinPort(r)[k]))
  }

  /** Pins 0-7 are PORTD bits 0-7, pins 8-13 PORTB bits 0-5 and pins
      14-19 PORTC bits 0-5. */
  lemma ResolveLayout(r: Registers, pin: int)
    requires 0 <= pin < PinCount
    ensures Resolve(r, pin) == Some(
      if pin < 8 then PinAddress(pin, r.portD)
      else if pin < 14 then PinAddress(pin - 8, r.portB)
      else PinAddress(pin - 14, r.portC))
  {
    assert PinName[pin] == if pin < 8 then pin else if pin < 14 then pin - 8 else pin - 14;
  }

  /** A negative pin addresses the pin 20 above it, as Python's indexing does. */
  lemma ResolveNegative(r: Registers, pin: int)
    requires -(PinCount as int) <= pin < 0
    ensures Resolve(r, pin) == Resolve(r, pin + PinCount)
  {
  }

  /** The output, direction and input registers of a resolved pin are
      three distinct bytes, at the fixed -1/-2 offsets. */
  lemma ResolvedRegistersAreBytes(r: Registers, pin: int)
    requires ValidRegisters(r) && Resolve(r, pin).Some?
    ensures var p := Resolve(r, pin).value.port;
      IsByte(p) && IsByte(DirectionRegister(p)) && IsByte(InputRegister(p)) &&
      DirectionRegister(p) == p - 1 && InputRegister(p) == p - 2
  {
  }

  /** With distinct ports, two different pins in 0..19 never share a
      (bit, port) pair. */
  lemma ResolveInjective(r: Registers, p: int, q: int)
    requires DistinctPorts(r)
    requires 0 <= p < PinCount && 0 <= q < PinCount && p != q
    ensures Resolve(r, p) != Resolve(r, q)
  {
    ResolveLayout(r, p);
    ResolveLayout(r, q);
  }
}
