/** The OpenBCI V3 sample packet of openBCISample.js: 33 bytes laid out as
      0: start byte | 1: sample number | 2..25: eight channels of 3 bytes |
      26..31: three accelerometer axes of 2 bytes | 32: stop byte,
    whose stop byte's low nibble gives the packet type. parseRawPacket and
    parsePacketStandard decode it into a sample record; convertSampleToPacket
    builds it from one. The promises of the source become the ParseResult
    values below: the first call of `reject` or `resolve` decides the outcome,
    and a promise that never settles is NoResult. */
module Packet {
  import opened Common
  import opened Int32
  import opened Codec

  /** OBCIPacketSize and the packet positions. */
  const PacketSize: nat := 33
  const PositionSampleNumber: nat := 1
  const PositionChannelDataStart: nat := 2
  const PositionChannelDataStop: nat := 25
  const PositionStartAux: nat := 26
  const PositionStopAux: nat := 31
  const PositionStopByte: nat := 32
  /** OBCINumberOfChannelsDefault: the eight channels of the packet layout. */
  const NumberOfChannelsDefault: nat := 8
  /** ACCEL_NUMBER_AXIS: X, Y and Z. */
  const AccelNumberAxis: nat := 3

  /** A channel gain as the decoder divides by it. */
  type Gain = g: real | g != 0.0 witness 24.0

  /** The `gain` property of one channel-settings object: absent, present but
      not a number, or a number. */
  datatype GainField = NoGain | NotANumber | Number(value: Gain)

  datatype ChannelSettings = ChannelSettings(gain: GainField)

  /** The channelSettingsArray argument: a falsy value (undefined, null, ...),
      a truthy value that is not an array, or an array of settings objects. */
  datatype SettingsArgument = Falsy | NotAnArray | Settings(items: seq<ChannelSettings>)

  /** The values parseRawPacket reads from the constants module. */
  datatype Protocol = Protocol(
    byteStart: byte,
    byteStop: byte,
    packetTypeUserDefined: int,
    packetTypeTimeSynced: int,
    defaultChannelSettings: seq<ChannelSettings>)

  /** A sample object: framing bytes, sample number, channel voltages and aux values. */
  datatype Sample = Sample(startByte: int, sampleNumber: int, channelData: seq<real>, auxData: seq<real>, stopByte: int)

  /** Why getChannelDataArray rejects. The index is the position of the
      settings object at fault; the source's message names it for a missing
      gain only. */
  datatype SettingsError = SettingsNotAnArray | MissingGain(index: nat) | GainNotANumber(index: nat)

  /** How a promise of the source settles. */
  datatype Settled<T, E> = Resolved(value: T) | Rejected(reason: E)

  datatype PacketError =
    | BufferUndefined
      /** `dataBuf[0].toString(16)` on an empty buffer throws a TypeError. */
    | StartByteUnreadable
    | InvalidStartByte(found: byte)
    | WrongPacketSize(length: nat)

  datatype ParseResult =
    | Ok(sample: Sample)
      /** A user-defined packet resolves with nothing. */
    | UserDefinedEmpty
      /** The promise never settles: a time-synced packet, or a settings error
          swallowed by parsePacketStandard's `.catch`. */
    | NoResult
    | Err(error: PacketError)

  /** newSample: the empty sample the simulator fills in. */
  function NewSample(protocol: Protocol): (s: Sample)
    ensures s.channelData == [] && s.auxData == [] && s.sampleNumber == 0
    ensures s.startByte == protocol.byteStart && s.stopByte == protocol.byteStop
  {
    Sample(protocol.byteStart, 0, [], [], protocol.byteStop)
  }

  /** getRawPacketType: `stopByte & 0xF`, the low nibble of the stop byte. */
  function GetRawPacketType(stopByte: byte): (t: int)
    ensures t == stopByte % 16
    ensures 0 <= t < 16
  {
    Pow2Values();
    assert Pow2(4) == 16;
    MaskLow(stopByte, 4);
    BitAnd(stopByte, 0xF)
  }

  // ---------------------------------------------------------------------------
  // Decoding

  /** The voltage of a channel code: the scale factor
      `ADS1299_VREF / gain / (2^23 - 1)` times the code. */
  function Volts(gain: Gain, code: int): real
  {
    Ads1299Vref / gain / FullScale24 * code as real
  }

  /** The full-scale code 2^23 - 1 reads as VREF / gain: 0.1875 V at gain 24. */
  lemma FullScaleVolts(gain: Gain)
    ensures Volts(gain, 0x7F_FFFF) == Ads1299Vref / gain
    ensures Volts(24.0, 0x7F_FFFF) == 0.1875
  {
  }

  /** An accelerometer value: the code times SCALE_FACTOR_ACCEL. */
  function AccelValue(code: int): real
  {
    code as real * ScaleFactorAccel
  }

  /** The signed 24-bit code of channel `index` in the channel bytes. */
  function ChannelCode(data: seq<byte>, index: nat): int
  {
    Interpret24bitAsInt32(Slice(data, index * 3, index * 3 + 3))
  }

  /** The signed 16-bit code of axis `index` in the aux bytes. */
  function AccelCode(data: seq<byte>, index: nat): int
  {
    Interpret16bitAsInt32(Slice(data, index * 2, index * 2 + 2))
  }

  /** The first settings object, from `from` on, whose gain the forEach of
      getChannelDataArray rejects. */
  function FirstInvalidGain(items: seq<ChannelSettings>, from: nat): Option<SettingsError>
    decreases |items| - from
  {
    if from >= |items| then None
    else match items[from].gain
      case NoGain => Some(MissingGain(from))
      case NotANumber => Some(GainNotANumber(from))
      case Number(_) => FirstInvalidGain(items, from + 1)
  }

  /** The settings a standard packet can be decoded with. */
  predicate ValidSettings(settings: SettingsArgument)
  {
    settings.Settings? && forall i :: 0 <= i < |settings.items| ==> settings.items[i].gain.Number?
  }

  /** The voltage getChannelDataArray pushes for one settings object: the
      scale of its numeric gain times the code of its three bytes, and 0.0
      for an object whose gain is rejected. */
  function ChannelVoltage(data: seq<byte>, settings: ChannelSettings, index: nat): real
  {
    if settings.gain.Number? then Volts(settings.gain.value, ChannelCode(data, index)) else 0.0
  }

  /** How getChannelDataArray settles. */
  function ChannelDataArray(data: seq<byte>, settings: SettingsArgument): Settled<seq<real>, SettingsError>
  {
    if !settings.Settings? then Rejected(SettingsNotAnArray)
    else
      var items := settings.items;
      match FirstInvalidGain(items, 0)
      case Some(e) => Rejected(e)
      case None => Resolved(ChannelVoltages(data, items))
  }

  /** One voltage per settings object, in order. */
  function ChannelVoltages(data: seq<byte>, items: seq<ChannelSettings>): (v: seq<real>)
    ensures |v| == |items|
  {
    seq(|items|, i requires 0 <= i < |items| => ChannelVoltage(data, items[i], i))
  }

  /** What getAccelDataArray resolves with. */
  function AccelDataArray(data: seq<byte>): seq<real>
  {
    seq(AccelNumberAxis, i requires 0 <= i < AccelNumberAxis => AccelValue(AccelCode(data, i)))
  }

  /** How parsePacketStandard settles. */
  function ParsePacketStandard(buf: seq<byte>, settings: SettingsArgument): ParseResult
  {
    if |buf| != PacketSize then Err(WrongPacketSize(|buf|))
    else
      var aux := AccelDataArray(Slice(buf, PositionStartAux, PositionStopAux + 1));
      match ChannelDataArray(Slice(buf, PositionChannelDataStart, PositionChannelDataStop + 1), settings)
      case Rejected(_) => NoResult
      case Resolved(channelData) =>
        Ok(Sample(buf[0], buf[PositionSampleNumber], channelData, aux, buf[PositionStopByte]))
  }

  /** The settings parseRawPacket passes on: `channelSettingsArray || defaultChannelSettingsArray`. */
  function EffectiveSettings(settings: SettingsArgument, protocol: Protocol): SettingsArgument
  {
    if settings.Falsy? then Settings(protocol.defaultChannelSettings) else settings
  }

  /** The packet type parseRawPacket dispatches on; a buffer without a byte 32
      gives `undefined & 0xF`, which is 0. */
  function PacketType(buf: seq<byte>): int
  {
    GetRawPacketType(ByteAt(buf, PositionStopByte))
  }

  /** How parseRawPacket settles. */
  function ParseRawPacket(dataBuf: Option<seq<byte>>, settings: SettingsArgument, protocol: Protocol): ParseResult
  {
    if dataBuf.None? then Err(BufferUndefined)
    else
      var buf := dataBuf.value;
      if |buf| == 0 then Err(StartByteUnreadable)
      else if buf[0] != protocol.byteStart then Err(InvalidStartByte(buf[0]))
      else
        var packetType := PacketType(buf);
        if packetType == protocol.packetTypeUserDefined then UserDefinedEmpty
        else if packetType == protocol.packetTypeTimeSynced then NoResult
        else ParsePacketStandard(buf, EffectiveSettings(settings, protocol))
  }

  /** getChannelDataArray: the forEach over the settings objects, pushing one
      voltage per object. A rejection does not stop the loop; its first reason
      is the outcome. A rejected object pushes some value in the source (NaN
      for a missing gain); the model pushes 0.0, and no pushed value is
      observed once the promise has rejected. */
  method GetChannelDataArray(data: seq<byte>, settings: SettingsArgument) returns (r: Settled<seq<real>, SettingsError>)
    ensures r == ChannelDataArray(data, settings)
  {
    if !settings.Settings? {
      return Rejected(SettingsNotAnArray);
    }
    var items := settings.items;
    var rejection: Option<SettingsError> := None;
    var channelData: seq<real> := [];
    for index := 0 to |items|
      invariant |channelData| == index
      invariant rejection.None? ==> FirstInvalidGain(items, 0) == FirstInvalidGain(items, index)
      invariant rejection.Some? ==> rejection == FirstInvalidGain(items, 0)
      invariant channelData == ChannelVoltages(data, items)[..index]
    {
      var gain := items[index].gain;
      assert FirstInvalidGain(items, index) == match gain
        case NoGain => Some(MissingGain(index))
        case NotANumber => Some(GainNotANumber(index))
        case Number(_) => FirstInvalidGain(items, index + 1);
      if gain.NoGain? && rejection.None? {
        rejection := Some(MissingGain(index));
      }
      if gain.NotANumber? && rejection.None? {
        rejection := Some(GainNotANumber(index));
      }
      var voltage := ChannelVoltage(data, items[index], index);
      assert channelData + [voltage] == ChannelVoltages(data, items)[..index + 1] by {
        assert voltage == ChannelVoltages(data, items)[index];
        assert ChannelVoltages(data, items)[..index + 1]
          == ChannelVoltages(data, items)[..index] + [ChannelVoltages(data, items)[index]];
      }
      channelData := channelData + [voltage];
    }
    if rejection.Some? {
      r := Rejected(rejection.value);
    } else {
      assert channelData == ChannelVoltages(data, items);
      r := Resolved(channelData);
    }
  }

  /** getAccelDataArray: one value per axis, pushed in order. */
  method GetAccelDataArray(data: seq<byte>) returns (accelData: seq<real>)
    ensures accelData == AccelDataArray(data)
  {
    accelData := [];
    for i := 0 to AccelNumberAxis
      invariant accelData == AccelDataArray(data)[..i]
    {
      var index := i * 2;
      accelData := accelData + [AccelValue(Interpret16bitAsInt32(Slice(data, index, index + 2)))];
    }
  }

  // ---------------------------------------------------------------------------
  // What the decoder promises

  /** The forEach rejects exactly when some gain is absent or not a number, and
      then for the first such object. */
  lemma {:induction false} FirstInvalidGainSpec(items: seq<ChannelSettings>, from: nat)
    requires from <= |items|
    ensures FirstInvalidGain(items, from).None? <==> forall i :: from <= i < |items| ==> items[i].gain.Number?
    ensures FirstInvalidGain(items, from).Some? ==>
      var k := match FirstInvalidGain(items, from).value
        case MissingGain(k) => k case GainNotANumber(k) => k case SettingsNotAnArray => from;
      from <= k < |items| && !items[k].gain.Number?
      && (forall i :: from <= i < k ==> items[i].gain.Number?)
      && FirstInvalidGain(items, from).value == (if items[k].gain.NoGain? then MissingGain(k) else GainNotANumber(k))
    decreases |items| - from
  {
    if from < |items| && items[from].gain.Number? {
      FirstInvalidGainSpec(items, from + 1);
    }
  }

  /** getChannelDataArray resolves exactly for an array of numeric gains, with
      one voltage per settings object: that object's scale times the signed
      24-bit code at bytes 3i..3i+2 (code 0 where the bytes run out). */
  lemma ChannelDataArraySpec(data: seq<byte>, settings: SettingsArgument)
    ensures ChannelDataArray(data, settings).Resolved? <==> ValidSettings(settings)
    ensures ChannelDataArray(data, settings).Resolved? ==>
      var v := ChannelDataArray(data, settings).value;
      |v| == |settings.items|
      && forall i :: 0 <= i < |v| ==>
           v[i] == Volts(settings.items[i].gain.value, ChannelCode(data, i))
  {
    if settings.Settings? {
      FirstInvalidGainSpec(settings.items, 0);
    }
  }

  /** A slice of a slice is a slice of the original. */
  lemma SliceOfSlice(buf: seq<byte>, a: nat, b: nat, c: nat, d: nat)
    requires a <= b <= |buf| && c <= d <= b - a
    ensures Slice(Slice(buf, a, b), c, d) == buf[a + c..a + d]
  {
  }

  /** The signed 24-bit code of channel i as the packet layout places it:
      bytes 2+3i..4+3i for the eight channels, and 0 for a settings object
      beyond them (its slice of the channel bytes is empty). */
  function PacketChannelCode(buf: seq<byte>, i: nat): int
    requires |buf| == PacketSize
  {
    if i < NumberOfChannelsDefault then Interpret24bitAsInt32(buf[2 + 3 * i..5 + 3 * i]) else 0
  }

  /** The signed 16-bit code of axis j at bytes 26+2j..27+2j. */
  function PacketAccelCode(buf: seq<byte>, j: nat): int
    requires |buf| == PacketSize && j < AccelNumberAxis
  {
    Interpret16bitAsInt32(buf[26 + 2 * j..28 + 2 * j])
  }

  lemma ChannelCodeInPacket(buf: seq<byte>, i: nat)
    requires |buf| == PacketSize
    ensures ChannelCode(Slice(buf, PositionChannelDataStart, PositionChannelDataStop + 1), i) == PacketChannelCode(buf, i)
  {
    var channels := Slice(buf, 2, 26);
    if i < NumberOfChannelsDefault {
      assert Slice(channels, i * 3, i * 3 + 3) == buf[2 + 3 * i..5 + 3 * i] by {
        SliceOfSlice(buf, 2, 26, 3 * i, 3 * i + 3);
      }
    } else {
      assert Slice(channels, i * 3, i * 3 + 3) == [];
    }
  }

  lemma AccelCodeInPacket(buf: seq<byte>, j: nat)
    requires |buf| == PacketSize && j < AccelNumberAxis
    ensures AccelCode(Slice(buf, PositionStartAux, PositionStopAux + 1), j) == PacketAccelCode(buf, j)
  {
    SliceOfSlice(buf, 26, 32, 2 * j, 2 * j + 2);
  }

  lemma ChannelVoltageInPacket(buf: seq<byte>, items: seq<ChannelSettings>, i: nat)
    requires |buf| == PacketSize && i < |items| && items[i].gain.Number?
    ensures ChannelVoltages(Slice(buf, PositionChannelDataStart, PositionChannelDataStop + 1), items)[i]
            == Volts(items[i].gain.value, PacketChannelCode(buf, i))
  {
    ChannelCodeInPacket(buf, i);
  }

  /** parsePacketStandard: a buffer that is not 33 bytes long is rejected, a
      33-byte buffer with settings it cannot use never settles, and every other
      call resolves with a sample. */
  lemma ParsePacketStandardOutcome(buf: seq<byte>, settings: SettingsArgument)
    ensures ParsePacketStandard(buf, settings).Err? <==> |buf| != PacketSize
    ensures ParsePacketStandard(buf, settings).Err? ==> ParsePacketStandard(buf, settings).error == WrongPacketSize(|buf|)
    ensures ParsePacketStandard(buf, settings).NoResult? <==> |buf| == PacketSize && !ValidSettings(settings)
    ensures ParsePacketStandard(buf, settings).Ok? <==> |buf| == PacketSize && ValidSettings(settings)
  {
    ChannelDataArraySpec(Slice(buf, 2, 26), settings);
  }

  /** The sample parsePacketStandard resolves with follows the packet layout:
      framing bytes and sample number from their positions, one voltage per
      settings object from that channel's three bytes and gain, and three
      accelerometer values from the six aux bytes. */
  lemma ParsePacketStandardLayout(buf: seq<byte>, settings: SettingsArgument)
    requires |buf| == PacketSize && ValidSettings(settings)
    ensures ParsePacketStandard(buf, settings).Ok?
    ensures var s := ParsePacketStandard(buf, settings).sample;
      s.startByte == buf[0] && s.sampleNumber == buf[1] && s.stopByte == buf[32]
      && |s.channelData| == |settings.items|
      && (forall i :: 0 <= i < |s.channelData| ==>
            s.channelData[i] == Volts(settings.items[i].gain.value, PacketChannelCode(buf, i)))
      && |s.auxData| == AccelNumberAxis
      && (forall j :: 0 <= j < AccelNumberAxis ==> s.auxData[j] == AccelValue(PacketAccelCode(buf, j)))
  {
    ParsePacketStandardOutcome(buf, settings);
    var items := settings.items;
    var s := ParsePacketStandard(buf, settings).sample;
    assert s.channelData == ChannelVoltages(Slice(buf, 2, 26), items);
    forall i | 0 <= i < |items|
      ensures s.channelData[i] == Volts(items[i].gain.value, PacketChannelCode(buf, i))
    {
      ChannelVoltageInPacket(buf, items, i);
    }
    forall j | 0 <= j < AccelNumberAxis
      ensures s.auxData[j] == AccelValue(PacketAccelCode(buf, j))
    {
      AccelCodeInPacket(buf, j);
    }
  }

  /** The start byte is intact and the buffer exists: the only inputs parseRawPacket dispatches on its type. */
  predicate StartOk(dataBuf: Option<seq<byte>>, protocol: Protocol)
  {
    dataBuf.Some? && |dataBuf.value| > 0 && dataBuf.value[0] == protocol.byteStart
  }

  /** parseRawPacket's outcomes, class by class: a missing buffer or a wrong
      start byte is an error; a well-framed packet of the user-defined type
      resolves empty, one of the time-synced type never settles, and every
      other type is decoded as a standard packet; the defaults replace falsy settings. */
  lemma ParseRawPacketSpec(dataBuf: Option<seq<byte>>, settings: SettingsArgument, protocol: Protocol)
    ensures var r := ParseRawPacket(dataBuf, settings, protocol);
      var t := if dataBuf.Some? then PacketType(dataBuf.value) else 0;
      var standard := StartOk(dataBuf, protocol) && t != protocol.packetTypeUserDefined && t != protocol.packetTypeTimeSynced;
      (r.Err? <==> !StartOk(dataBuf, protocol) || (standard && |dataBuf.value| != PacketSize))
      && (r.UserDefinedEmpty? <==> StartOk(dataBuf, protocol) && t == protocol.packetTypeUserDefined)
      && (r.NoResult? <==>
            (StartOk(dataBuf, protocol) && t != protocol.packetTypeUserDefined && t == protocol.packetTypeTimeSynced)
            || (standard && |dataBuf.value| == PacketSize && !ValidSettings(EffectiveSettings(settings, protocol))))
      && (r.Ok? <==> standard && |dataBuf.value| == PacketSize && ValidSettings(EffectiveSettings(settings, protocol)))
      && (r.Ok? ==> r == ParsePacketStandard(dataBuf.value, EffectiveSettings(settings, protocol)))
      && (dataBuf.Some? && |dataBuf.value| > 0 && dataBuf.value[0] != protocol.byteStart ==>
            r == Err(InvalidStartByte(dataBuf.value[0])))
  {
    if StartOk(dataBuf, protocol) {
      ParsePacketStandardOutcome(dataBuf.value, EffectiveSettings(settings, protocol));
    }
  }

  /** The packet type is the low nibble of byte 32, or 0 for a buffer without
      one, always in 0..15. */
  lemma PacketTypeRange(buf: seq<byte>)
    ensures PacketType(buf) == ByteAt(buf, PositionStopByte) % 16
    ensures |buf| > PositionStopByte ==> PacketType(buf) == buf[PositionStopByte] % 16
    ensures |buf| <= PositionStopByte ==> PacketType(buf) == 0
    ensures 0 <= PacketType(buf) < 16
  {
  }
}
