/** Bytes as the host library handles them: the Python ints a bytearray
    accepts, int.from_bytes, and what the serial port hands back for
    read(n) and readline(n). */
module Bytes {

  /** An int that bytearray.append accepts without raising ValueError. */
  type Byte = x: int | 0 <= x < 256

  /** The line feed that readline stops at. */
  const LF: Byte := 0x0A

  predicate IsByte(x: int) {
    0 <= x < 256
  }

  function Pow256(n: nat): (r: nat)
    ensures r >= 1
  {
    if n == 0 then 1 else 256 * Pow256(n - 1)
  }

  /** int.from_bytes(bs, byteorder='big', signed=False); no bytes give 0. */
  function FromBytesBig(bs: seq<Byte>): (r: nat)
    ensures r < Pow256(|bs|)
  {
    if bs == [] then 0
    else
      var hi := FromBytesBig(bs[..|bs| - 1]);
      assert hi <= Pow256(|bs| - 1) - 1;
      hi * 256 + bs[|bs| - 1]
  }

  /** int.from_bytes(bs, byteorder='little', signed=False); no bytes give 0. */
  function FromBytesLittle(bs: seq<Byte>): (r: nat)
    ensures r < Pow256(|bs|)
  {
    if bs == [] then 0
    else
      var hi := FromBytesLittle(bs[1..]);
      assert hi <= Pow256(|bs| - 1) - 1;
      bs[0] + 256 * hi
  }

  /** The n bytes of v, low byte first: how the device sends a 16-bit
      register that it reads low byte, then high byte. */
  function ToBytesLittle(v: nat, n: nat): (r: seq<Byte>)
    ensures |r| == n
  {
    if n == 0 then [] else [v % 256] + ToBytesLittle(v / 256, n - 1)
  }

  lemma {:induction false} LittleRoundTrip(v: nat, n: nat)
    requires v < Pow256(n)
    ensures FromBytesLittle(ToBytesLittle(v, n)) == v
  {
    if n > 0 {
      var bs := ToBytesLittle(v, n);
      assert bs[1..] == ToBytesLittle(v / 256, n - 1);
      LittleRoundTrip(v / 256, n - 1);
    }
  }

  lemma {:induction false} LittleCanonical(bs: seq<Byte>)
    ensures ToBytesLittle(FromBytesLittle(bs), |bs|) == bs
  {
    if bs != [] {
      var v := FromBytesLittle(bs);
      assert v % 256 == bs[0] && v / 256 == FromBytesLittle(bs[1..]);
      LittleCanonical(bs[1..]);
    }
  }

  /** A single reply byte decodes to itself in either byte order. */
  lemma OneByte(b: Byte)
    ensures FromBytesBig([b]) == b && FromBytesLittle([b]) == b
  {
  }

  /** What read(n) returns once the device has sent `reply` within the
      timeout: the first n bytes, or fewer when the timeout expires. */
  function Read(reply: seq<Byte>, n: nat): (r: seq<Byte>)
    ensures r <= reply
    ensures |r| == if |reply| < n then |reply| else n
  {
    if |reply| < n then reply else reply[..n]
  }

  /** Two bytes read from a reply, little endian: low byte first. */
  lemma TwoBytesRead(reply: seq<Byte>)
    requires |reply| >= 2
    ensures FromBytesLittle(Read(reply, 2)) == reply[0] as int + 256 * reply[1] as int
  {
    var r := Read(reply, 2);
    assert r[1..][1..] == [];
  }

  /** What readline(n) returns: bytes up to and including the first line
      feed, and never more than n of them. */
  function ReadLine(reply: seq<Byte>, n: nat): (r: seq<Byte>)
    ensures r <= reply && |r| <= n
    ensures forall i :: 0 <= i < |r| - 1 ==> r[i] != LF
    ensures |r| < n && |r| < |reply| ==> |r| > 0 && r[|r| - 1] == LF
  {
    if n == 0 || reply == [] then []
    else if reply[0] == LF then [LF]
    else [reply[0]] + ReadLine(reply[1..], n - 1)
  }

  /** A 16-bit value sent low byte first survives read(2). */
  lemma ReadTwoBytes(v: nat)
    requires v < 0x1_0000
    ensures FromBytesLittle(Read(ToBytesLittle(v, 2), 2)) == v
  {
    LittleRoundTrip(v, 2);
  }

  /** readline(2) keeps a 16-bit value exactly when its low byte is not a
      line feed or its high byte is zero. */
  lemma ReadLineTwoBytes(v: nat)
    requires v < 0x1_0000
    ensures FromBytesLittle(ReadLine(ToBytesLittle(v, 2), 2)) == v
            <==> v % 256 != LF || v < 256
  {
    var bs := ToBytesLittle(v, 2);
    LittleRoundTrip(v, 2);
    if bs[0] == LF {
      assert ReadLine(bs, 2) == [LF];
    } else {
      assert bs[1..][1..] == [];
      assert ReadLine(bs, 2) == bs;
    }
  }

  /** The ADC result 522 (0x020A) reaches the host as 10 through readline(2). */
  lemma ReadLineLosesHighByte()
    ensures ToBytesLittle(522, 2) == [0x0A, 0x02]
    ensures FromBytesLittle(ReadLine(ToBytesLittle(522, 2), 2)) == 10
  {
    ReadLineTwoBytes(522);
  }
}
