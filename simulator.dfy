/** The sample-number step of the simulator closure randomSample returns:
    the previous sample number, wrapped after 255. */
module Simulator {
  import opened Int32

  /** `previousSampleNumber == 255 ? 0 : previousSampleNumber + 1`. */
  function NextSampleNumber(previousSampleNumber: int): (n: int)
    ensures 0 <= previousSampleNumber <= 255 ==> 0 <= n <= 255 && n == (previousSampleNumber + 1) % 256
    ensures previousSampleNumber != 255 ==> n == previousSampleNumber + 1
  {
    if previousSampleNumber == 255 then 0 else previousSampleNumber + 1
  }

  /** The sample number after t simulated samples starting from `start`. */
  function SampleNumberAfter(start: int, t: nat): int
  {
    if t == 0 then start else NextSampleNumber(SampleNumberAfter(start, t - 1))
  }

  /** From a byte-sized start the simulator counts modulo 256. */
  lemma {:induction false} SampleNumberModulo(start: int, t: nat)
    requires 0 <= start <= 255
    ensures SampleNumberAfter(start, t) == (start + t) % 256
  {
    if t > 0 {
      SampleNumberModulo(start, t - 1);
      var q, r := (start + t - 1) / 256, (start + t - 1) % 256;
      if r == 255 {
        DivUnique(start + t, 256, q + 1, 0);
      } else {
        DivUnique(start + t, 256, q, r + 1);
      }
    }
  }

  /** Every 256 samples the sample number comes back to what it was. */
  lemma {:induction false} SampleNumberPeriod(start: int, t: nat)
    requires 0 <= start <= 255
    ensures SampleNumberAfter(start, t + 256) == SampleNumberAfter(start, t)
  {
    SampleNumberModulo(start, t);
    SampleNumberModulo(start, t + 256);
    DivUnique(start + t + 256, 256, (start + t) / 256 + 1, (start + t) % 256);
  }
}
