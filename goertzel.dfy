/** The Goertzel impedance estimator of openBCISample.js. A Goertzel object
    keeps two registers per channel and a block counter; every sample drives
    the resonator of each channel, and once the counter passes the block size
    the magnitudes become impedances and the object starts a new block.

    GOERTZEL_COEFF_250 is `2 cos(2 pi K / N)` for the bin K nearest the
    lead-off frequency; the cosine is not modelled, so the coefficient is a
    parameter, and `Math.sqrt` is a function parameter too. */
module Goertzel {
  import opened Common
  import opened Impedance
  import opened Int32

  /** GOERTZEL_BLOCK_SIZE, the N of the algorithm. */
  const GoertzelBlockSize: nat := 62

  /** GOERTZEL_K_250: `Math.floor(0.5 + N * f / rate)`, the bin whose centre is
      the lead-off frequency f rounded to the nearest bin; a half-way value
      rounds up. */
  function GoertzelK(leadOffFrequencyHz: real, sampleRate: real): (k: int)
    requires sampleRate > 0.0
    ensures var x := (GoertzelBlockSize as real * leadOffFrequencyHz) / sampleRate;
      x - 0.5 < k as real <= x + 0.5
  {
    (0.5 + (GoertzelBlockSize as real * leadOffFrequencyHz) / sampleRate).Floor
  }

  /** `GOERTZEL_COEFF_250 * q1 - q2 + x`, the resonator's new value. */
  function Q0(coeff: real, q1: real, q2: real, x: real): real
  {
    coeff * q1 - q2 + x
  }

  /** `q1*q1 + q2*q2 - q1*q2*GOERTZEL_COEFF_250`, the squared magnitude of the bin. */
  function MagnitudeSquared(q1: real, q2: real, coeff: real): real
  {
    (q1 * q1) + (q2 * q2) - q1 * q2 * coeff
  }

  function Zeros(n: nat): (z: seq<real>)
    ensures |z| == n && forall i :: 0 <= i < n ==> z[i] == 0.0
  {
    seq(n, _ => 0.0)
  }

  /** The q1 registers after one sample: each channel's Q0. */
  function Resonated(q1: seq<real>, q2: seq<real>, x: seq<real>, coeff: real): (r: seq<real>)
    requires |q2| == |q1| <= |x|
    ensures |r| == |q1|
  {
    seq(|q1|, i requires 0 <= i < |q1| => Q0(coeff, q1[i], q2[i], x[i]))
  }

  /** The impedances of a finished block: `Math.sqrt(magnitude^2) / OBCILeadOffDriveInAmps`, per channel. */
  function BlockImpedances(q1: seq<real>, q2: seq<real>, coeff: real, driveAmps: DriveAmps, sqrt: real -> real): (r: seq<real>)
    requires |q2| == |q1|
    ensures |r| == |q1|
  {
    seq(|q1|, j requires 0 <= j < |q1| => sqrt(MagnitudeSquared(q1[j], q2[j], coeff)) / driveAmps)
  }

  /** The counter after one call: incremented, and back to 0 once it passes the block size. */
  function NextIndex(index: int): int
  {
    if index + 1 > GoertzelBlockSize then 0 else index + 1
  }

  /** The counter of a fresh object after t calls. */
  function IndexAfter(t: nat): int
  {
    if t == 0 then 0 else NextIndex(IndexAfter(t - 1))
  }

  /** The object goertzelNewObject returns. */
  class GoertzelObject {
    var q1: array<real>
    var q2: array<real>
    var index: int
    var numberOfChannels: int

    /** How many channels the loops visit: none for a count below 1. */
    function Channels(): nat
      reads this
    {
      if numberOfChannels > 0 then numberOfChannels else 0
    }

    /** q1 and q2 are two arrays with one register per channel. */
    predicate Registers()
      reads this
    {
      q1.Length == Channels() && q2.Length == Channels() && q1 != q2
    }

    /** The registers, and the counter within a block. */
    predicate Valid()
      reads this
    {
      Registers() && 0 <= index <= GoertzelBlockSize
    }

    /** goertzelNewObject: zero registers for every channel and a zero
        counter; a count below 1 gives empty registers. */
    constructor (numberOfChannels: int)
      ensures Valid() && this.numberOfChannels == numberOfChannels && index == 0
      ensures fresh(q1) && fresh(q2)
      ensures Channels() == if numberOfChannels > 0 then numberOfChannels else 0
      ensures q1[..] == Zeros(Channels()) && q2[..] == Zeros(Channels())
    {
      this.numberOfChannels := numberOfChannels;
      var n: nat := if numberOfChannels > 0 then numberOfChannels else 0;
      q1 := new real[n](_ => 0.0);
      q2 := new real[n](_ => 0.0);
      index := 0;
    }

    /** The resonator loop of goertzelProcessSample: each channel's q1 takes
        its Q0 and q2 takes the old q1. */
    method Resonate(channelData: seq<real>, coeff: real)
      requires Registers() && Channels() <= |channelData|
      modifies q1, q2
      ensures q1[..] == Resonated(old(q1[..]), old(q2[..]), channelData, coeff)
      ensures q2[..] == old(q1[..])
    {
      for i := 0 to Channels()
        invariant forall k :: 0 <= k < i ==>
          q1[k] == Q0(coeff, old(q1[k]), old(q2[k]), channelData[k]) && q2[k] == old(q1[k])
        invariant forall k :: i <= k < Channels() ==> q1[k] == old(q1[k]) && q2[k] == old(q2[k])
      {
        var q0 := Q0(coeff, q1[i], q2[i], channelData[i]);
        q2[i] := q1[i];
        q1[i] := q0;
      }
    }

    /** The block-end loop of goertzelProcessSample: one impedance per channel
        from its two registers, which are then cleared. */
    method CloseBlock(coeff: real, driveAmps: DriveAmps, sqrt: real -> real) returns (impedanceArray: seq<real>)
      requires Registers()
      modifies q1, q2
      ensures impedanceArray == BlockImpedances(old(q1[..]), old(q2[..]), coeff, driveAmps, sqrt)
      ensures q1[..] == Zeros(Channels()) && q2[..] == Zeros(Channels())
    {
      impedanceArray := [];
      for j := 0 to Channels()
        invariant |impedanceArray| == j
        invariant forall k :: 0 <= k < j ==>
          impedanceArray[k] == sqrt(MagnitudeSquared(old(q1[k]), old(q2[k]), coeff)) / driveAmps
          && q1[k] == 0.0 && q2[k] == 0.0
        invariant forall k :: j <= k < Channels() ==> q1[k] == old(q1[k]) && q2[k] == old(q2[k])
      {
        var voltage := sqrt(MagnitudeSquared(q1[j], q2[j], coeff));
        var impedance := voltage / driveAmps;
        impedanceArray := impedanceArray + [impedance];
        q1[j] := 0.0;
        q2[j] := 0.0;
      }
    }

    /** goertzelProcessSample: every channel's registers advance by one sample,
        the counter goes up by one, and when it passes the block size the
        block's impedances are returned and registers and counter are reset;
        otherwise nothing is returned. */
    method ProcessSample(channelData: seq<real>, coeff: real, driveAmps: DriveAmps, sqrt: real -> real)
      returns (impedances: Option<seq<real>>)
      requires Valid() && Channels() <= |channelData|
      modifies this, q1, q2
      ensures Valid() && q1 == old(q1) && q2 == old(q2) && numberOfChannels == old(numberOfChannels)
      ensures index == NextIndex(old(index))
      ensures impedances.Some? <==> old(index) + 1 > GoertzelBlockSize
      ensures var advanced := Resonated(old(q1[..]), old(q2[..]), channelData, coeff);
        if old(index) + 1 > GoertzelBlockSize then
          impedances == Some(BlockImpedances(advanced, old(q1[..]), coeff, driveAmps, sqrt))
          && q1[..] == Zeros(Channels()) && q2[..] == Zeros(Channels())
        else q1[..] == advanced && q2[..] == old(q1[..])
    {
      Resonate(channelData, coeff);
      index := index + 1;
      if index > GoertzelBlockSize {
        var impedanceArray := CloseBlock(coeff, driveAmps, sqrt);
        index := 0;
        impedances := Some(impedanceArray);
      } else {
        impedances := None;
      }
    }
  }

  // ---------------------------------------------------------------------------
  // What the estimator promises

  /** From a fresh object the counter runs 0, 1, ..., 62, 0, ...: after t calls it is t mod 63. */
  lemma {:induction false} IndexSchedule(t: nat)
    ensures IndexAfter(t) == t % (GoertzelBlockSize + 1)
  {
    if t > 0 {
      IndexSchedule(t - 1);
      var q, r := (t - 1) / 63, (t - 1) % 63;
      if r == 62 {
        DivUnique(t, 63, q + 1, 0);
      } else {
        DivUnique(t, 63, q, r + 1);
      }
    }
  }

  /** From a fresh object, the call numbered t + 1 returns impedances exactly
      when t + 1 is a multiple of 63: one emission per 63 samples. */
  lemma {:induction false} EmissionSchedule(t: nat)
    ensures IndexAfter(t) + 1 > GoertzelBlockSize <==> (t + 1) % (GoertzelBlockSize + 1) == 0
  {
    IndexSchedule(t);
    var q, r := t / 63, t % 63;
    if r == 62 {
      DivUnique(t + 1, 63, q + 1, 0);
    } else {
      DivUnique(t + 1, 63, q, r + 1);
    }
  }

  lemma SquareNonNegative(d: real)
    ensures d * d >= 0.0
  {
    if d < 0.0 {
      assert d * d == (-d) * (-d);
    }
  }

  /** With a coefficient of the form 2 cos w, the squared magnitude is never
      negative: it is (q1 - q2)^2 + (2 - coeff) q1 q2, or the same with
      q1 + q2 for a negative product. */
  lemma MagnitudeSquaredNonNegative(q1: real, q2: real, coeff: real)
    requires -2.0 <= coeff <= 2.0
    ensures MagnitudeSquared(q1, q2, coeff) >= 0.0
  {
    var p := q1 * q2;
    assert MagnitudeSquared(q1, q2, coeff) == q1 * q1 + q2 * q2 - p * coeff;
    if p >= 0.0 {
      var d := q1 - q2;
      assert d * d == q1 * q1 + q2 * q2 - 2.0 * p;
      SquareNonNegative(d);
      assert p * coeff <= p * 2.0 by {
        ProductNonNegative(p, 2.0 - coeff);
        assert p * (2.0 - coeff) == p * 2.0 - p * coeff;
      }
    } else {
      var s := q1 + q2;
      assert s * s == q1 * q1 + q2 * q2 + 2.0 * p;
      SquareNonNegative(s);
      assert p * coeff <= -2.0 * p by {
        ProductNonNegative(-p, coeff + 2.0);
        assert (-p) * (coeff + 2.0) == -(p * coeff) - 2.0 * p;
      }
    }
  }

  lemma ProductNonNegative(a: real, b: real)
    requires a >= 0.0 && b >= 0.0
    ensures a * b >= 0.0
  {
  }

  /** With a square root that is non-negative on non-negative arguments, every
      impedance of a block is non-negative. */
  lemma BlockImpedancesNonNegative(q1: seq<real>, q2: seq<real>, coeff: real, driveAmps: DriveAmps, sqrt: real -> real)
    requires |q2| == |q1|
    requires -2.0 <= coeff <= 2.0
    requires forall x :: x >= 0.0 ==> sqrt(x) >= 0.0
    ensures forall j :: 0 <= j < |q1| ==> BlockImpedances(q1, q2, coeff, driveAmps, sqrt)[j] >= 0.0
  {
    forall j | 0 <= j < |q1|
      ensures BlockImpedances(q1, q2, coeff, driveAmps, sqrt)[j] >= 0.0
    {
      MagnitudeSquaredNonNegative(q1[j], q2[j], coeff);
      var v := sqrt(MagnitudeSquared(q1[j], q2[j], coeff));
      assert v >= 0.0;
      assert v / driveAmps >= 0.0;
    }
  }
  /** With zero input, zero registers stay zero. */
  lemma ZeroInputResonated(n: nat, x: seq<real>, coeff: real)
    requires n <= |x| && forall i :: 0 <= i < n ==> x[i] == 0.0
    ensures Resonated(Zeros(n), Zeros(n), x, coeff) == Zeros(n)
  {
    forall i | 0 <= i < n
      ensures Resonated(Zeros(n), Zeros(n), x, coeff)[i] == 0.0
    {
      assert Q0(coeff, 0.0, 0.0, 0.0) == 0.0;
    }
  }

  /** A block whose registers are all zero measures impedance 0 on every
      channel, for a square root with sqrt(0) = 0. */
  lemma ZeroBlockImpedances(n: nat, coeff: real, driveAmps: DriveAmps, sqrt: real -> real)
    requires sqrt(0.0) == 0.0
    ensures BlockImpedances(Zeros(n), Zeros(n), coeff, driveAmps, sqrt) == Zeros(n)
  {
    forall j | 0 <= j < n
      ensures BlockImpedances(Zeros(n), Zeros(n), coeff, driveAmps, sqrt)[j] == 0.0
    {
      assert MagnitudeSquared(0.0, 0.0, coeff) == 0.0;
    }
  }

  /** A block of zero input from zero registers: the last sample of the block
      leaves the registers at zero and every impedance returned is 0. */
  lemma ZeroInputBlock(n: nat, x: seq<real>, coeff: real, driveAmps: DriveAmps, sqrt: real -> real)
    requires n <= |x| && forall i :: 0 <= i < n ==> x[i] == 0.0
    requires sqrt(0.0) == 0.0
    ensures BlockImpedances(Resonated(Zeros(n), Zeros(n), x, coeff), Zeros(n), coeff, driveAmps, sqrt) == Zeros(n)
  {
    ZeroInputResonated(n, x, coeff);
    ZeroBlockImpedances(n, coeff, driveAmps, sqrt);
  }
}
