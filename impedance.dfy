/** The instantaneous impedance of openBCISample.js: the sample's channel
    voltages are made non-negative in place, and each impedance is
    `sqrt2 * v / OBCILeadOffDriveInAmps`. The lead-off drive current comes
    from the constants module and is a parameter here. */
module Impedance {
  import opened Common
  import Packet

  /** `Math.sqrt(2)` as a double. */
  const Sqrt2: real := 1.4142135623730951

  /** OBCILeadOffDriveInAmps: a drive current, positive. */
  type DriveAmps = a: real | a > 0.0 witness 1.0

  datatype ImpedanceError = SampleObjectMissing | ChannelDataMissing | InvalidChannelNumber

  /** How impedanceCalculationForChannel settles: with a number, with NaN
      (a valid channel number past the end of channelData), or rejected. */
  datatype ChannelImpedance = Impedance(ohms: real) | NotANumber | Rejected(reason: ImpedanceError)

  /** The sample object the impedance functions update: its channelData array
      (possibly null) and the impedances the all-channel version stores. */
  class SampleObject {
    var channelData: array?<real>
    var impedances: Option<seq<real>>

    constructor (channelData: array?<real>)
      ensures this.channelData == channelData && impedances == None
    {
      this.channelData := channelData;
      impedances := None;
    }
  }

  function Abs(v: real): (r: real)
    ensures r >= 0.0 && (r == v || r == -v)
  {
    if v < 0.0 then -v else v
  }

  /** `(sqrt2 * v) / OBCILeadOffDriveInAmps`, the source's expression. */
  function Ohms(v: real, driveAmps: DriveAmps): real
  {
    (Sqrt2 * v) / driveAmps
  }

  /** The impedance of one voltage once its sign has been flipped. */
  function InstantaneousImpedance(v: real, driveAmps: DriveAmps): real
  {
    Ohms(Abs(v), driveAmps)
  }

  /** channelData after the single-channel flip: entry `index` made
      non-negative when it exists, every other entry as it was. */
  function AbsAt(s: seq<real>, index: int): (r: seq<real>)
    ensures |r| == |s|
    ensures forall k :: 0 <= k < |s| ==> r[k] == if k == index then Abs(s[k]) else s[k]
  {
    if 0 <= index < |s| && s[index] < 0.0 then s[index := s[index] * -1.0] else s
  }

  /** channelData after the all-channel flip. */
  function AbsAll(s: seq<real>): (r: seq<real>)
    ensures |r| == |s|
  {
    seq(|s|, i requires 0 <= i < |s| => Abs(s[i]))
  }

  /** One impedance per channel voltage, in order. */
  function Impedances(s: seq<real>, driveAmps: DriveAmps): (r: seq<real>)
    ensures |r| == |s|
  {
    seq(|s|, i requires 0 <= i < |s| => InstantaneousImpedance(s[i], driveAmps))
  }

  /** How impedanceCalculationForChannel settles for channel data s. The
      channel-number check rejects first; a valid number past the end reads
      `undefined` and gives NaN. */
  function ChannelOutcome(s: seq<real>, channelNumber: int, driveAmps: DriveAmps): ChannelImpedance
  {
    if channelNumber < 1 || channelNumber > Packet.NumberOfChannelsDefault then Rejected(InvalidChannelNumber)
    else if channelNumber - 1 < |s| then Impedance(InstantaneousImpedance(s[channelNumber - 1], driveAmps))
    else NotANumber
  }

  /** impedanceCalculationForChannel. A rejection does not stop the body: with
      an out-of-range channel number that still indexes channelData, the entry
      is flipped all the same. */
  method ImpedanceCalculationForChannel(sampleObject: SampleObject?, channelNumber: int, driveAmps: DriveAmps)
    returns (r: ChannelImpedance)
    modifies if sampleObject != null && sampleObject.channelData != null then {sampleObject.channelData} else {}
    ensures sampleObject == null ==> r == Rejected(SampleObjectMissing)
    ensures sampleObject != null && sampleObject.channelData == null ==> r == Rejected(ChannelDataMissing)
    ensures sampleObject != null && sampleObject.channelData != null ==>
      sampleObject.channelData[..] == AbsAt(old(sampleObject.channelData[..]), channelNumber - 1)
      && r == ChannelOutcome(old(sampleObject.channelData[..]), channelNumber, driveAmps)
  {
    if sampleObject == null {
      return Rejected(SampleObjectMissing);
    }
    var channelData := sampleObject.channelData;
    if channelData == null {
      return Rejected(ChannelDataMissing);
    }
    var index := channelNumber - 1;
    if 0 <= index < channelData.Length && channelData[index] < 0.0 {
      channelData[index] := channelData[index] * -1.0;
    }
    if channelNumber < 1 || channelNumber > Packet.NumberOfChannelsDefault {
      r := Rejected(InvalidChannelNumber);
    } else if index < channelData.Length {
      r := Impedance(Ohms(channelData[index], driveAmps));
    } else {
      r := NotANumber;
    }
  }

  /** impedanceCalculationForAllChannels: every entry of channelData is flipped
      to its absolute value in place, and sampleObject.impedances holds one
      impedance per entry. */
  method ImpedanceCalculationForAllChannels(sampleObject: SampleObject?, driveAmps: DriveAmps)
    returns (r: Packet.Settled<SampleObject, ImpedanceError>)
    modifies if sampleObject != null && sampleObject.channelData != null
      then {sampleObject, sampleObject.channelData} else {}
    ensures sampleObject == null ==> r == Packet.Rejected(SampleObjectMissing)
    ensures sampleObject != null && old(sampleObject.channelData) == null ==> r == Packet.Rejected(ChannelDataMissing)
    ensures sampleObject != null && old(sampleObject.channelData) != null ==>
      sampleObject.channelData == old(sampleObject.channelData)
      && sampleObject.channelData[..] == AbsAll(old(sampleObject.channelData[..]))
      && sampleObject.impedances == Some(Impedances(old(sampleObject.channelData[..]), driveAmps))
      && r.Resolved? && r.value == sampleObject
  {
    if sampleObject == null {
      return Packet.Rejected(SampleObjectMissing);
    }
    var channelData := sampleObject.channelData;
    if channelData == null {
      return Packet.Rejected(ChannelDataMissing);
    }
    var sampleImpedances: seq<real> := [];
    var numChannels := channelData.Length;
    for index := 0 to numChannels
      invariant sampleObject.channelData == channelData
      invariant channelData[..index] == AbsAll(old(channelData[..]))[..index]
      invariant channelData[index..] == old(channelData[..])[index..]
      invariant sampleImpedances == Impedances(old(channelData[..]), driveAmps)[..index]
    {
      assert channelData[index] == old(channelData[..])[index];
      if channelData[index] < 0.0 {
        channelData[index] := channelData[index] * -1.0;
      }
      var impedance := Ohms(channelData[index], driveAmps);
      sampleImpedances := sampleImpedances + [impedance];
      assert channelData[..index + 1] == channelData[..index] + [channelData[index]];
    }
    assert channelData[..] == channelData[..numChannels];
    assert sampleImpedances == Impedances(old(channelData[..]), driveAmps);
    sampleObject.impedances := Some(sampleImpedances);
    r := Packet.Resolved(sampleObject);
  }

  // ---------------------------------------------------------------------------
  // What the impedance functions promise

  /** An impedance is never negative, and does not depend on the voltage's sign. */
  lemma InstantaneousImpedanceSign(v: real, driveAmps: DriveAmps)
    ensures InstantaneousImpedance(v, driveAmps) >= 0.0
    ensures InstantaneousImpedance(-v, driveAmps) == InstantaneousImpedance(v, driveAmps)
  {
    assert Abs(-v) == Abs(v);
    assert Sqrt2 * Abs(v) >= 0.0;
  }

  /** After the all-channel update every entry is non-negative, every impedance
      is non-negative, and recomputing the impedances from the updated entries
      gives the same values. */
  lemma AllChannelsSpec(s: seq<real>, driveAmps: DriveAmps)
    ensures forall i :: 0 <= i < |s| ==> AbsAll(s)[i] >= 0.0
    ensures forall i :: 0 <= i < |s| ==> Impedances(s, driveAmps)[i] >= 0.0
    ensures Impedances(AbsAll(s), driveAmps) == Impedances(s, driveAmps)
  {
    forall i | 0 <= i < |s|
      ensures Impedances(s, driveAmps)[i] >= 0.0
    {
      InstantaneousImpedanceSign(s[i], driveAmps);
    }
    assert forall i :: 0 <= i < |s| ==> Abs(Abs(s[i])) == Abs(s[i]);
  }

  /** The single-channel outcome: a number exactly for a channel number in
      1..8 that indexes channelData, NaN for one in 1..8 past its end, a
      rejection otherwise; the number is the entry's impedance as the
      all-channel version computes it, and the flip touches no other entry
      and is idempotent. */
  lemma ChannelOutcomeSpec(s: seq<real>, channelNumber: int, driveAmps: DriveAmps)
    ensures ChannelOutcome(s, channelNumber, driveAmps).Rejected? <==>
      channelNumber < 1 || channelNumber > Packet.NumberOfChannelsDefault
    ensures ChannelOutcome(s, channelNumber, driveAmps).NotANumber? <==>
      1 <= channelNumber <= Packet.NumberOfChannelsDefault && |s| < channelNumber
    ensures ChannelOutcome(s, channelNumber, driveAmps).Impedance? <==>
      1 <= channelNumber <= Packet.NumberOfChannelsDefault && channelNumber <= |s|
    ensures ChannelOutcome(s, channelNumber, driveAmps).Impedance? ==>
      ChannelOutcome(s, channelNumber, driveAmps).ohms == Impedances(s, driveAmps)[channelNumber - 1]
      && ChannelOutcome(s, channelNumber, driveAmps).ohms >= 0.0
      && ChannelOutcome(s, channelNumber, driveAmps).ohms
         == Ohms(AbsAt(s, channelNumber - 1)[channelNumber - 1], driveAmps)
    ensures AbsAt(AbsAt(s, channelNumber - 1), channelNumber - 1) == AbsAt(s, channelNumber - 1)
  {
    if 1 <= channelNumber <= Packet.NumberOfChannelsDefault && channelNumber <= |s| {
      InstantaneousImpedanceSign(s[channelNumber - 1], driveAmps);
    }
  }
}
