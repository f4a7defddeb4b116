/** The command-byte counter: cmd_buffer_num counts the bytes sent through
    sendAPICmd modulo 256, like the firmware's 8-bit buffer position, and
    cmdLoop turns the distance from the cmdDo mark into a repeat count. */
module Counter {

  /** sendAPICmd's update as written: add the frame length, then take 256
      off once if the sum passed 255. */
  function CounterAfterSendAsWritten(c: int, n: nat): (r: int)
    ensures r % 256 == (c + n) % 256
    ensures 0 <= c && c + n < 512 ==> 0 <= r < 256
  {
    var sum := c + n;
    if sum > 255 then sum - 256 else sum
  }

  /** The update the single subtraction stands for. */
  function CounterAfterSend(c: int, n: nat): (r: int)
    ensures 0 <= r < 256
  {
    (c + n) % 256
  }

  /** The counter is the number of bytes sent so far, modulo 256. */
  lemma CounterTracksTotal(total: nat, n: nat)
    ensures CounterAfterSend(total % 256, n) == (total + n) % 256
  {
    var q := total / 256;
    assert total % 256 + n == total + n - 256 * q;
  }

  /** For every frame the library builds (at most 256 bytes) the code as
      written computes the same counter. */
  lemma AsWrittenAgreesOnShortFrames(c: int, n: nat)
    requires 0 <= c < 256 && n <= 256
    ensures CounterAfterSendAsWritten(c, n) == CounterAfterSend(c, n)
  {
    if c + n > 255 {
      assert (c + n) % 256 == c + n - 256;
    }
  }

  /** A longer frame from a high counter leaves 0..255 as written: from
      255, a 300-byte frame gives 299 rather than 43. */
  lemma AsWrittenLeavesByteRange()
    ensures CounterAfterSendAsWritten(255, 300) == 299
    ensures CounterAfterSend(255, 300) == 43
  {
  }

  /** cmdLoop's repeat count: the distance from the mark forward to the
      current counter, wrapping past 255. */
  function ReplayCount(mark: int, current: int): (count: int)
    requires 0 <= mark < 256 && 0 <= current < 256
    ensures 0 <= count < 256
    ensures (mark + count) % 256 == current
  {
    if mark <= current then current - mark else current + (256 - mark)
  }

  /** When fewer than 256 bytes went out since cmdDo, the repeat count is
      exactly the number of bytes sent since then. */
  lemma ReplayCountSinceMark(marked: nat, total: nat)
    requires marked <= total < marked + 256
    ensures ReplayCount(marked % 256, total % 256) == total - marked
  {
    var count := ReplayCount(marked % 256, total % 256);
    var d := total - marked;
    assert (marked % 256 + d) % 256 == total % 256 by {
      CounterTracksTotal(marked, d);
    }
    ReplayCountUnique(marked % 256, total % 256, d);
  }

  /** The count is the only value in 0..255 that carries the mark to the
      current counter. */
  lemma ReplayCountUnique(mark: int, current: int, d: int)
    requires 0 <= mark < 256 && 0 <= current < 256 && 0 <= d < 256
    requires (mark + d) % 256 == current
    ensures ReplayCount(mark, current) == d
  {
    var count := ReplayCount(mark, current);
    if mark + d >= 256 {
      assert current == mark + d - 256;
    } else {
      assert current == mark + d;
    }
  }

  /** The mark 250 and the counter 4 after wrapping give a count of 10. */
  lemma ReplayCountWraps()
    ensures ReplayCount(250, 4) == 10
  {
  }
}
