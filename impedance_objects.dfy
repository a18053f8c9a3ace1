/** The per-channel impedance records of openBCISample.js: each channel has a
    P and an N input, each with a raw impedance and a text that
    impedanceSummarize fills in. OBCIImpedanceTextInit, the thresholds, the
    texts and getTextForRawImpedance come from the constants module and are
    parameters here. */
module ImpedanceObjects {
  /** One input (P or N) of a channel: its raw impedance and its text. */
  class ImpedanceInput {
    var raw: real
    var text: string

    /** `{raw: -1, text: OBCIImpedanceTextInit}`. */
    constructor (textInit: string)
      ensures raw == -1.0 && text == textInit
    {
      raw := -1.0;
      text := textInit;
    }
  }

  /** The object newImpedanceObject returns for one channel. */
  class ImpedanceObject {
    var channel: int
    var P: ImpedanceInput
    var N: ImpedanceInput

    /** newImpedanceObject: the channel number and two fresh inputs with raw
        -1 and the initial text. */
    constructor (channelNumber: int, textInit: string)
      ensures channel == channelNumber
      ensures fresh(P) && fresh(N) && P != N
      ensures P.raw == -1.0 && P.text == textInit && N.raw == -1.0 && N.text == textInit
    {
      channel := channelNumber;
      P := new ImpedanceInput(textInit);
      N := new ImpedanceInput(textInit);
    }
  }

  /** impedanceArray: one fresh impedance object per channel, numbered from 1,
      none sharing an input with another. */
  method ImpedanceArray(numberOfChannels: int, textInit: string) returns (impedanceArray: seq<ImpedanceObject>)
    ensures |impedanceArray| == if numberOfChannels > 0 then numberOfChannels else 0
    ensures forall i :: 0 <= i < |impedanceArray| ==>
      fresh(impedanceArray[i]) && fresh(impedanceArray[i].P) && fresh(impedanceArray[i].N)
      && impedanceArray[i].channel == i + 1
      && impedanceArray[i].P.raw == -1.0 && impedanceArray[i].P.text == textInit
      && impedanceArray[i].N.raw == -1.0 && impedanceArray[i].N.text == textInit
    ensures forall i :: 0 <= i < |impedanceArray| ==> impedanceArray[i].P != impedanceArray[i].N
    ensures forall i, j :: 0 <= i < j < |impedanceArray| ==>
      impedanceArray[i] != impedanceArray[j]
      && {impedanceArray[i].P, impedanceArray[i].N} !! {impedanceArray[j].P, impedanceArray[j].N}
  {
    impedanceArray := [];
    var i := 0;
    while i < numberOfChannels
      invariant 0 <= i <= (if numberOfChannels > 0 then numberOfChannels else 0) && |impedanceArray| == i
      invariant forall k :: 0 <= k < i ==>
        fresh(impedanceArray[k]) && fresh(impedanceArray[k].P) && fresh(impedanceArray[k].N)
        && impedanceArray[k].channel == k + 1
        && impedanceArray[k].P.raw == -1.0 && impedanceArray[k].P.text == textInit
        && impedanceArray[k].N.raw == -1.0 && impedanceArray[k].N.text == textInit
      invariant forall k :: 0 <= k < i ==> impedanceArray[k].P != impedanceArray[k].N
      invariant forall k, l :: 0 <= k < l < i ==>
        impedanceArray[k] != impedanceArray[l]
        && {impedanceArray[k].P, impedanceArray[k].N} !! {impedanceArray[l].P, impedanceArray[l].N}
    {
      var impedanceObject := new ImpedanceObject(i + 1, textInit);
      impedanceArray := impedanceArray + [impedanceObject];
      i := i + 1;
    }
  }

  /** The text impedanceSummarize gives a raw impedance: "no load" above the
      bad threshold, otherwise the text of the constants' lookup. */
  function SummaryText(raw: real, thresholdBadMax: real, textNone: string, textForRaw: real -> string): (t: string)
    ensures raw > thresholdBadMax ==> t == textNone
    ensures raw <= thresholdBadMax ==> t == textForRaw(raw)
  {
    if raw > thresholdBadMax then textNone else textForRaw(raw)
  }

  /** impedanceSummarize: sets the input's text from its raw impedance and
      changes nothing else. */
  method ImpedanceSummarize(singleInputObject: ImpedanceInput, thresholdBadMax: real, textNone: string, textForRaw: real -> string)
    modifies singleInputObject
    ensures singleInputObject.raw == old(singleInputObject.raw)
    ensures singleInputObject.text == SummaryText(singleInputObject.raw, thresholdBadMax, textNone, textForRaw)
  {
    if singleInputObject.raw > thresholdBadMax {
      singleInputObject.text := textNone;
    } else {
      singleInputObject.text := textForRaw(singleInputObject.raw);
    }
  }
}
