// The clock frequencies of student-distrib/rtc.c and the chip's rate codes for them.
module Frequencies {
  /** The rate code the clock chip takes for a frequency; -1 for a frequency it has no code for. */
  function FreqToRate(freq: int): int {
    match freq
    case 2 => 15
    case 4 => 14
    case 8 => 13
    case 16 => 12
    case 32 => 11
    case 64 => 10
    case 128 => 9
    case 256 => 8
    case 512 => 7
    case 1024 => 6
    case _ => -1
  }

  function Power2(k: nat): nat {
    if k == 0 then 1 else 2 * Power2(k - 1)
  }

  lemma {:induction false} Power2Grows(k: nat)
    ensures Power2(k) > 0
    ensures k >= 11 ==> Power2(k) > 1024
  {
    if k > 0 {
      Power2Grows(k - 1);
      assert k == 11 ==> Power2(11) == 2048;
    }
  }

  /** The ten powers of two from 2 to 1024. */
  lemma Powers()
    ensures Power2(1) == 2 && Power2(2) == 4 && Power2(3) == 8 && Power2(4) == 16 && Power2(5) == 32
    ensures Power2(6) == 64 && Power2(7) == 128 && Power2(8) == 256 && Power2(9) == 512 && Power2(10) == 1024
    ensures Power2(11) == 2048 && Power2(12) == 4096 && Power2(13) == 8192 && Power2(14) == 16384
  {
    assert Power2(5) == 32;
    assert Power2(10) == 1024;
  }

  /** The codes are for the powers of two from 2 to 1024, and code r stands for 32768 halved r - 1 times. */
  lemma RateCodes(freq: int)
    ensures FreqToRate(freq) != -1 <==> exists k: nat :: 1 <= k <= 10 && freq == Power2(k)
    ensures FreqToRate(freq) != -1 ==>
              && 3 <= FreqToRate(freq) <= 15 && freq * Power2(FreqToRate(freq) - 1) == 32768
              && freq * (1024 / freq) == 1024
  {
    Powers();
    hide Power2;
    var rate := FreqToRate(freq);
    if rate != -1 {
      assert freq == Power2(16 - rate);
    }
    if exists k: nat :: 1 <= k <= 10 && freq == Power2(k) {
      var k: nat :| 1 <= k <= 10 && freq == Power2(k);
      assert k == 1 || k == 2 || k == 3 || k == 4 || k == 5 || k == 6 || k == 7 || k == 8 || k == 9 || k == 10;
    }
  }

  /** The interrupts per read at a frequency the clock can be set to. */
  function TicksPerRead(freq: int): (d: nat)
    requires FreqToRate(freq) != -1
    ensures d > 0
  {
    RateCodes(freq);
    1024 / freq
  }
}
