/** convertSampleToPacket of openBCISample.js: the simulator's encoder, which
    writes a sample record into a fresh 33-byte OpenBCI V3 packet. The packet
    is a Node buffer, modelled as an array of bytes; `Buffer.copy` is CopyInto.

    As written, the aux loop copies every accelerometer value to
    `(33 - 1 - 6) + i * 2` with the channel loop's finished counter `i` (8)
    instead of its own `j`: offset 42 lies past the end of the packet, Node's
    copy writes nothing there, and the aux bytes stay 0. ConvertSampleToPacket
    models that code; ConvertSampleToPacketCorrected copies axis j to
    `26 + j * 2`, and is the encoder the round-trip lemma is about. */
module Encoder {
  import opened Common
  import opened Codec
  import opened Packet

  /** The count floatTo3ByteBuffer encodes for channel i. A channel the sample
      does not have reads `undefined`, whose NaN count masks to 0. */
  function ChannelCount(channelData: seq<real>, i: nat): int
  {
    if i < |channelData| then Counts24(channelData[i]) else 0
  }

  /** The count floatTo2ByteBuffer encodes for axis j, 0 for a missing axis. */
  function AuxCount(auxData: seq<real>, j: nat): int
  {
    if j < |auxData| then Counts16(auxData[j]) else 0
  }

  /** The three-byte encodings of the first n channels, in order. */
  function ChannelBytes(channelData: seq<real>, n: nat): (r: seq<byte>)
    ensures |r| == 3 * n
  {
    if n == 0 then [] else ChannelBytes(channelData, n - 1) + FloatTo3ByteBuffer(ChannelCount(channelData, n - 1))
  }

  /** The two-byte encodings of the first n accelerometer axes, in order. */
  function AuxBytes(auxData: seq<real>, n: nat): (r: seq<byte>)
    ensures |r| == 2 * n
  {
    if n == 0 then [] else AuxBytes(auxData, n - 1) + FloatTo2ByteBuffer(AuxCount(auxData, n - 1))
  }

  /** Channel i's three bytes sit at 3i..3i+2 of ChannelBytes. */
  lemma {:induction false} ChannelBytesLayout(channelData: seq<real>, n: nat, i: nat)
    requires i < n
    ensures ChannelBytes(channelData, n)[3 * i..3 * i + 3] == FloatTo3ByteBuffer(ChannelCount(channelData, i))
  {
    var chunk := FloatTo3ByteBuffer(ChannelCount(channelData, i));
    if i < n - 1 {
      var earlier := ChannelBytes(channelData, n - 1);
      assert earlier[3 * i..3 * i + 3] == chunk by {
        ChannelBytesLayout(channelData, n - 1, i);
      }
      ChannelBytesGrow(channelData, n, i);
    } else {
      ChannelBytesLast(channelData, n);
    }
  }

  /** Appending a channel keeps the bytes of the earlier ones. */
  lemma ChannelBytesGrow(channelData: seq<real>, n: nat, i: nat)
    requires i + 1 < n
    ensures ChannelBytes(channelData, n)[3 * i..3 * i + 3] == ChannelBytes(channelData, n - 1)[3 * i..3 * i + 3]
  {
    SliceAppendLeft(ChannelBytes(channelData, n - 1), FloatTo3ByteBuffer(ChannelCount(channelData, n - 1)), 3 * i, 3 * i + 3);
  }

  /** The last channel's bytes end ChannelBytes. */
  lemma ChannelBytesLast(channelData: seq<real>, n: nat)
    requires n > 0
    ensures ChannelBytes(channelData, n)[3 * (n - 1)..3 * n] == FloatTo3ByteBuffer(ChannelCount(channelData, n - 1))
  {
    SliceAppendRight(ChannelBytes(channelData, n - 1), FloatTo3ByteBuffer(ChannelCount(channelData, n - 1)));
  }

  /** Axis j's two bytes sit at 2j..2j+1 of AuxBytes. */
  lemma {:induction false} AuxBytesLayout(auxData: seq<real>, n: nat, j: nat)
    requires j < n
    ensures AuxBytes(auxData, n)[2 * j..2 * j + 2] == FloatTo2ByteBuffer(AuxCount(auxData, j))
  {
    var chunk := FloatTo2ByteBuffer(AuxCount(auxData, j));
    if j < n - 1 {
      var earlier := AuxBytes(auxData, n - 1);
      assert earlier[2 * j..2 * j + 2] == chunk by {
        AuxBytesLayout(auxData, n - 1, j);
      }
      AuxBytesGrow(auxData, n, j);
    } else {
      AuxBytesLast(auxData, n);
    }
  }

  /** Appending an axis keeps the bytes of the earlier ones. */
  lemma AuxBytesGrow(auxData: seq<real>, n: nat, j: nat)
    requires j + 1 < n
    ensures AuxBytes(auxData, n)[2 * j..2 * j + 2] == AuxBytes(auxData, n - 1)[2 * j..2 * j + 2]
  {
    SliceAppendLeft(AuxBytes(auxData, n - 1), FloatTo2ByteBuffer(AuxCount(auxData, n - 1)), 2 * j, 2 * j + 2);
  }

  /** The last axis's bytes end AuxBytes. */
  lemma AuxBytesLast(auxData: seq<real>, n: nat)
    requires n > 0
    ensures AuxBytes(auxData, n)[2 * (n - 1)..2 * n] == FloatTo2ByteBuffer(AuxCount(auxData, n - 1))
  {
    SliceAppendRight(AuxBytes(auxData, n - 1), FloatTo2ByteBuffer(AuxCount(auxData, n - 1)));
  }

  /** The packet convertSampleToPacket returns, as written: start byte, sample
      number (a buffer stores a number modulo 256), the eight channels, six
      aux bytes left 0 by the fill, and the stop byte. */
  function EncodedPacket(sample: Sample, protocol: Protocol): (p: seq<byte>)
    ensures |p| == PacketSize
  {
    [protocol.byteStart, sample.sampleNumber % 256] + ChannelBytes(sample.channelData, NumberOfChannelsDefault)
      + [0, 0, 0, 0, 0, 0] + [protocol.byteStop]
  }

  /** The packet the encoder is meant to return: the same, with the three
      accelerometer axes in the aux bytes. */
  function IntendedPacket(sample: Sample, protocol: Protocol): (p: seq<byte>)
    ensures |p| == PacketSize
  {
    [protocol.byteStart, sample.sampleNumber % 256] + ChannelBytes(sample.channelData, NumberOfChannelsDefault)
      + AuxBytes(sample.auxData, AccelNumberAxis) + [protocol.byteStop]
  }

  /** Node's `source.copy(target, targetStart)`: as many bytes as fit are
      copied to targetStart onwards, and nothing when targetStart is at or
      past the end of the target. */
  function Copied(target: seq<byte>, source: seq<byte>, targetStart: nat): (r: seq<byte>)
    ensures |r| == |target|
    ensures forall k :: 0 <= k < |r| ==>
      r[k] == if targetStart <= k < targetStart + |source| then source[k - targetStart] else target[k]
    ensures |target| <= targetStart ==> r == target
  {
    if |target| <= targetStart then target
    else
      var n := Min(|source|, |target| - targetStart);
      target[..targetStart] + source[..n] + target[targetStart + n..]
  }

  /** `source.copy(target, targetStart)` on a packet buffer. */
  method CopyInto(source: seq<byte>, target: array<byte>, targetStart: nat)
    modifies target
    ensures target[..] == Copied(old(target[..]), source, targetStart)
  {
    if target.Length <= targetStart {
      return;
    }
    var n := Min(|source|, target.Length - targetStart);
    forall k | targetStart <= k < targetStart + n {
      target[k] := source[k - targetStart];
    }
  }

  /** n bytes of the zero fill. */
  function ZeroBytes(n: nat): (z: seq<byte>)
    ensures |z| == n && forall k :: 0 <= k < n ==> z[k] == 0
  {
    seq(n, _ => 0)
  }

  /** Copying a source to the end of a prefix overwrites the start of what follows. */
  lemma CopiedAppend(prefix: seq<byte>, source: seq<byte>, rest: seq<byte>)
    requires |source| <= |rest|
    ensures Copied(prefix + rest, source, |prefix|) == prefix + source + rest[|source|..]
  {
  }

  /** One step of a copy loop: the chunk lands right after the bytes written so
      far, in the zero fill. */
  lemma CopyStep(head: seq<byte>, written: seq<byte>, chunk: seq<byte>, n: nat)
    requires |chunk| <= n
    ensures Copied(head + written + ZeroBytes(n), chunk, |head| + |written|)
            == head + (written + chunk) + ZeroBytes(n - |chunk|)
  {
    CopiedAppend(head + written, chunk, ZeroBytes(n));
    assert ZeroBytes(n)[|chunk|..] == ZeroBytes(n - |chunk|);
    assert head + written + chunk == head + (written + chunk);
  }

  /** The channel loop of convertSampleToPacket, shared by both encoders:
      channel i's three bytes are copied to 2 + 3i of the zero-filled packet. */
  method CopyChannels(sample: Sample, packet: array<byte>)
    requires packet.Length == PacketSize && packet[2..] == ZeroBytes(31)
    modifies packet
    ensures packet[..] == old(packet[..2]) + ChannelBytes(sample.channelData, NumberOfChannelsDefault) + ZeroBytes(7)
  {
    ghost var head := packet[..2];
    assert packet[..] == head + ChannelBytes(sample.channelData, 0) + ZeroBytes(31);
    for i := 0 to NumberOfChannelsDefault
      invariant packet[..] == head + ChannelBytes(sample.channelData, i) + ZeroBytes(31 - 3 * i)
    {
      var threeByteBuffer := FloatTo3ByteBuffer(ChannelCount(sample.channelData, i));
      CopyStep(head, ChannelBytes(sample.channelData, i), threeByteBuffer, 31 - 3 * i);
      CopyInto(threeByteBuffer, packet, 2 + (i * 3));
    }
  }

  /** convertSampleToPacket as written. */
  method ConvertSampleToPacket(sample: Sample, protocol: Protocol) returns (packet: array<byte>)
    ensures fresh(packet)
    ensures packet[..] == EncodedPacket(sample, protocol)
  {
    packet := new byte[PacketSize](_ => 0);
    packet[0] := protocol.byteStart;
    packet[1] := sample.sampleNumber % 256;
    assert packet[2..] == ZeroBytes(31);
    CopyChannels(sample, packet);
    ghost var front := [protocol.byteStart, sample.sampleNumber % 256] + ChannelBytes(sample.channelData, NumberOfChannelsDefault);
    assert packet[..] == front + ZeroBytes(7);
    ghost var filled := packet[..];
    var i := NumberOfChannelsDefault;
    for j := 0 to 3
      invariant packet[..] == filled
    {
      var twoByteBuffer := FloatTo2ByteBuffer(AuxCount(sample.auxData, j));
      CopyInto(twoByteBuffer, packet, (PacketSize - 1 - 6) + (i * 2));
    }
    packet[PacketSize - 1] := protocol.byteStop;
    assert packet[..] == filled[..32] + [protocol.byteStop];
    StopAfterZeros(front, protocol.byteStop);
  }

  /** A 26-byte front and seven zeros, with the stop byte written last. */
  lemma StopAfterZeros(front: seq<byte>, stop: byte)
    requires |front| == 26
    ensures (front + ZeroBytes(7))[..32] + [stop] == front + [0, 0, 0, 0, 0, 0] + [stop]
  {
    assert (front + ZeroBytes(7))[..32] == front + [0, 0, 0, 0, 0, 0];
  }

  /** The corrected aux loop: axis j's two bytes are copied to 26 + 2j. */
  method CopyAux(sample: Sample, packet: array<byte>)
    requires packet.Length == PacketSize && packet[26..] == ZeroBytes(7)
    modifies packet
    ensures packet[..] == old(packet[..26]) + AuxBytes(sample.auxData, AccelNumberAxis) + ZeroBytes(1)
  {
    ghost var head := packet[..26];
    assert packet[..] == head + AuxBytes(sample.auxData, 0) + ZeroBytes(7);
    for j := 0 to AccelNumberAxis
      invariant packet[..] == head + AuxBytes(sample.auxData, j) + ZeroBytes(7 - 2 * j)
    {
      var twoByteBuffer := FloatTo2ByteBuffer(AuxCount(sample.auxData, j));
      CopyStep(head, AuxBytes(sample.auxData, j), twoByteBuffer, 7 - 2 * j);
      CopyInto(twoByteBuffer, packet, (PacketSize - 1 - 6) + (j * 2));
    }
  }

  /** convertSampleToPacket with the aux loop copying axis j to 26 + 2j. */
  method ConvertSampleToPacketCorrected(sample: Sample, protocol: Protocol) returns (packet: array<byte>)
    ensures fresh(packet)
    ensures packet[..] == IntendedPacket(sample, protocol)
  {
    packet := new byte[PacketSize](_ => 0);
    packet[0] := protocol.byteStart;
    packet[1] := sample.sampleNumber % 256;
    assert packet[2..] == ZeroBytes(31);
    CopyChannels(sample, packet);
    ghost var channels := [protocol.byteStart, sample.sampleNumber % 256] + ChannelBytes(sample.channelData, NumberOfChannelsDefault);
    assert packet[..26] == channels && packet[26..] == ZeroBytes(7);
    CopyAux(sample, packet);
    ghost var filled := packet[..];
    packet[PacketSize - 1] := protocol.byteStop;
    assert packet[..] == filled[..32] + [protocol.byteStop];
  }

  // ---------------------------------------------------------------------------
  // What the encoders promise

  /** The as-written packet, position by position. */
  lemma EncodedPacketLayout(sample: Sample, protocol: Protocol)
    ensures var p := EncodedPacket(sample, protocol);
      p[0] == protocol.byteStart && p[1] == sample.sampleNumber % 256 && p[32] == protocol.byteStop
      && (forall i :: 0 <= i < NumberOfChannelsDefault ==>
            p[2 + 3 * i..5 + 3 * i] == FloatTo3ByteBuffer(ChannelCount(sample.channelData, i)))
      && p[26..32] == [0, 0, 0, 0, 0, 0]
  {
    var p := EncodedPacket(sample, protocol);
    var channels := ChannelBytes(sample.channelData, NumberOfChannelsDefault);
    forall i | 0 <= i < NumberOfChannelsDefault
      ensures p[2 + 3 * i..5 + 3 * i] == FloatTo3ByteBuffer(ChannelCount(sample.channelData, i))
    {
      ChannelBytesLayout(sample.channelData, NumberOfChannelsDefault, i);
      assert p[2 + 3 * i..5 + 3 * i] == channels[3 * i..3 * i + 3];
    }
  }

  /** The intended packet, position by position: the aux bytes hold axis j at 26 + 2j. */
  lemma IntendedPacketLayout(sample: Sample, protocol: Protocol)
    ensures var p := IntendedPacket(sample, protocol);
      p[0] == protocol.byteStart && p[1] == sample.sampleNumber % 256 && p[32] == protocol.byteStop
      && (forall i :: 0 <= i < NumberOfChannelsDefault ==>
            p[2 + 3 * i..5 + 3 * i] == FloatTo3ByteBuffer(ChannelCount(sample.channelData, i)))
      && (forall j :: 0 <= j < AccelNumberAxis ==>
            p[26 + 2 * j..28 + 2 * j] == FloatTo2ByteBuffer(AuxCount(sample.auxData, j)))
  {
    var p := IntendedPacket(sample, protocol);
    var channels := ChannelBytes(sample.channelData, NumberOfChannelsDefault);
    var aux := AuxBytes(sample.auxData, AccelNumberAxis);
    forall i | 0 <= i < NumberOfChannelsDefault
      ensures p[2 + 3 * i..5 + 3 * i] == FloatTo3ByteBuffer(ChannelCount(sample.channelData, i))
    {
      ChannelBytesLayout(sample.channelData, NumberOfChannelsDefault, i);
      assert p[2 + 3 * i..5 + 3 * i] == channels[3 * i..3 * i + 3];
    }
    forall j | 0 <= j < AccelNumberAxis
      ensures p[26 + 2 * j..28 + 2 * j] == FloatTo2ByteBuffer(AuxCount(sample.auxData, j))
    {
      AuxBytesLayout(sample.auxData, AccelNumberAxis, j);
      assert p[26 + 2 * j..28 + 2 * j] == aux[2 * j..2 * j + 2];
    }
  }

  /** Whatever the sample, the decoder reads back from the intended packet each
      channel's count and each axis's count wrapped into the signed 24-bit and
      16-bit ranges. */
  lemma IntendedPacketCodes(sample: Sample, protocol: Protocol)
    ensures var p := IntendedPacket(sample, protocol);
      (forall i :: 0 <= i < NumberOfChannelsDefault ==>
         var c := ChannelCount(sample.channelData, i);
         PacketChannelCode(p, i) == c - 0x100_0000 * ((c + 0x80_0000) / 0x100_0000))
      && (forall j :: 0 <= j < AccelNumberAxis ==>
         var c := AuxCount(sample.auxData, j);
         PacketAccelCode(p, j) == c - 0x1_0000 * ((c + 0x8000) / 0x1_0000))
  {
    IntendedPacketLayout(sample, protocol);
    forall i | 0 <= i < NumberOfChannelsDefault {
      Int24Wrap(ChannelCount(sample.channelData, i));
    }
    forall j | 0 <= j < AccelNumberAxis {
      Int16Wrap(AuxCount(sample.auxData, j));
    }
  }

  /** The settings floatTo3ByteBuffer encodes for: eight channels at gain 24. */
  predicate Gain24Settings(settings: SettingsArgument)
  {
    settings.Settings? && |settings.items| == NumberOfChannelsDefault
    && forall i :: 0 <= i < |settings.items| ==> settings.items[i].gain == Number(24.0)
  }

  /** Zero aux bytes hold zero accelerometer values. */
  lemma ZeroAccelValue(p: seq<byte>, j: nat)
    requires |p| == PacketSize && p[26..32] == [0, 0, 0, 0, 0, 0] && j < AccelNumberAxis
    ensures AccelValue(PacketAccelCode(p, j)) == 0.0
  {
    assert p[26 + 2 * j] == p[26..32][2 * j] == 0;
    assert p[27 + 2 * j] == p[26..32][2 * j + 1] == 0;
    assert p[26 + 2 * j..28 + 2 * j] == [0, 0];
  }

  /** A standard packet whose aux bytes are all 0 decodes to three zero aux values. */
  lemma ZeroAuxDecodes(p: seq<byte>, settings: SettingsArgument)
    requires |p| == PacketSize && p[26..32] == [0, 0, 0, 0, 0, 0]
    requires ValidSettings(settings)
    ensures ParsePacketStandard(p, settings).Ok?
    ensures ParsePacketStandard(p, settings).sample.auxData == [0.0, 0.0, 0.0]
  {
    ParsePacketStandardLayout(p, settings);
    ZeroAccelValue(p, 0);
    ZeroAccelValue(p, 1);
    ZeroAccelValue(p, 2);
  }

  /** The findings' as-written half: whatever the sample's accelerometer values,
      the packet convertSampleToPacket builds decodes to three zero aux values. */
  lemma EncoderDropsAux(sample: Sample, protocol: Protocol, settings: SettingsArgument)
    requires ValidSettings(settings)
    ensures ParsePacketStandard(EncodedPacket(sample, protocol), settings).Ok?
    ensures ParsePacketStandard(EncodedPacket(sample, protocol), settings).sample.auxData == [0.0, 0.0, 0.0]
  {
    EncodedPacketLayout(sample, protocol);
    ZeroAuxDecodes(EncodedPacket(sample, protocol), settings);
  }

  /** A concrete sample the as-written encoder does not round-trip: its first
      accelerometer value, one count, comes back as 0. */
  lemma EncoderDropsAuxExample(protocol: Protocol, settings: SettingsArgument)
    requires ValidSettings(settings)
    ensures var sample := Sample(protocol.byteStart, 0, [], [ScaleFactorAccel, 0.0, 0.0], protocol.byteStop);
      var r := ParsePacketStandard(EncodedPacket(sample, protocol), settings);
      r.Ok? && r.sample.auxData != sample.auxData
  {
    var sample := Sample(protocol.byteStart, 0, [], [ScaleFactorAccel, 0.0, 0.0], protocol.byteStop);
    EncoderDropsAux(sample, protocol, settings);
  }

  /** At gain 24 the decoder's scale is the encoder's. */
  lemma Gain24Volts(c: int)
    ensures Volts(24.0, c) == c as real * EncodeScale24
  {
  }

  /** Three bytes encoding a signed 24-bit count decode to that count. */
  lemma ChannelCodeOfBytes(p: seq<byte>, c: int, i: nat)
    requires |p| == PacketSize && i < NumberOfChannelsDefault
    requires p[2 + 3 * i..5 + 3 * i] == FloatTo3ByteBuffer(c) && -0x80_0000 <= c < 0x80_0000
    ensures PacketChannelCode(p, i) == c
  {
    Int24RoundTrip(c);
  }

  /** A count at gain 24 is what floatTo3ByteBuffer counts for its voltage. */
  lemma Counts24OfVolts(c: int)
    ensures Counts24(Volts(24.0, c)) == c
  {
    Gain24Volts(c);
    Counts24OfCode(c);
  }

  /** An accelerometer count is what floatTo2ByteBuffer counts for its value. */
  lemma Counts16OfAccelValue(c: int)
    ensures Counts16(AccelValue(c)) == c
  {
    Counts16OfCode(c);
  }

  /** A channel whose voltage is a signed 24-bit count c at gain 24 is read
      back as c from its three bytes. */
  lemma ChannelCodeRoundTrip(p: seq<byte>, channelData: seq<real>, c: int, i: nat)
    requires |p| == PacketSize && i < NumberOfChannelsDefault && i < |channelData|
    requires -0x80_0000 <= c < 0x80_0000 && channelData[i] == Volts(24.0, c)
    requires p[2 + 3 * i..5 + 3 * i] == FloatTo3ByteBuffer(ChannelCount(channelData, i))
    ensures PacketChannelCode(p, i) == c
  {
    assert ChannelCount(channelData, i) == Counts24(Volts(24.0, c));
    Counts24OfVolts(c);
    ChannelCodeOfBytes(p, c, i);
  }

  /** An axis whose value is a signed 16-bit count c is read back as c from its two bytes. */
  lemma AccelCodeRoundTrip(p: seq<byte>, auxData: seq<real>, c: int, j: nat)
    requires |p| == PacketSize && j < AccelNumberAxis && j < |auxData|
    requires -0x8000 <= c < 0x8000 && auxData[j] == AccelValue(c)
    requires p[26 + 2 * j..28 + 2 * j] == FloatTo2ByteBuffer(AuxCount(auxData, j))
    ensures PacketAccelCode(p, j) == c
  {
    assert AuxCount(auxData, j) == Counts16(AccelValue(c));
    Counts16OfAccelValue(c);
    Int16RoundTrip(c);
  }

  /** parsePacketStandard at gain 24: the layout read with one scale for all channels. */
  lemma Gain24Decode(p: seq<byte>, settings: SettingsArgument)
    requires |p| == PacketSize && Gain24Settings(settings)
    ensures ParsePacketStandard(p, settings).Ok?
    ensures var s := ParsePacketStandard(p, settings).sample;
      s.startByte == p[0] && s.sampleNumber == p[1] && s.stopByte == p[32]
      && |s.channelData| == NumberOfChannelsDefault && |s.auxData| == AccelNumberAxis
      && (forall i :: 0 <= i < NumberOfChannelsDefault ==> s.channelData[i] == Volts(24.0, PacketChannelCode(p, i)))
      && (forall j :: 0 <= j < AccelNumberAxis ==> s.auxData[j] == AccelValue(PacketAccelCode(p, j)))
  {
    ParsePacketStandardLayout(p, settings);
  }

  /** Each channel voltage and axis value of a sample made of counts is read
      back from a packet that holds their encodings where the layout puts them. */
  lemma PacketValues(p: seq<byte>, sample: Sample, codes: seq<int>, accel: seq<int>)
    requires |p| == PacketSize
    requires |sample.channelData| == NumberOfChannelsDefault == |codes|
    requires |sample.auxData| == AccelNumberAxis == |accel|
    requires forall i :: 0 <= i < |codes| ==> -0x80_0000 <= codes[i] < 0x80_0000 && sample.channelData[i] == Volts(24.0, codes[i])
    requires forall j :: 0 <= j < |accel| ==> -0x8000 <= accel[j] < 0x8000 && sample.auxData[j] == AccelValue(accel[j])
    requires forall i :: 0 <= i < NumberOfChannelsDefault ==>
      p[2 + 3 * i..5 + 3 * i] == FloatTo3ByteBuffer(ChannelCount(sample.channelData, i))
    requires forall j :: 0 <= j < AccelNumberAxis ==>
      p[26 + 2 * j..28 + 2 * j] == FloatTo2ByteBuffer(AuxCount(sample.auxData, j))
    ensures forall i :: 0 <= i < NumberOfChannelsDefault ==> Volts(24.0, PacketChannelCode(p, i)) == sample.channelData[i]
    ensures forall j :: 0 <= j < AccelNumberAxis ==> AccelValue(PacketAccelCode(p, j)) == sample.auxData[j]
  {
    forall i | 0 <= i < NumberOfChannelsDefault
      ensures Volts(24.0, PacketChannelCode(p, i)) == sample.channelData[i]
    {
      ChannelCodeRoundTrip(p, sample.channelData, codes[i], i);
    }
    forall j | 0 <= j < AccelNumberAxis
      ensures AccelValue(PacketAccelCode(p, j)) == sample.auxData[j]
    {
      AccelCodeRoundTrip(p, sample.auxData, accel[j], j);
    }
  }

  /** A packet holding the encodings of a count-valued sample where the layout
      puts them decodes at gain 24 to that sample's voltages and aux values,
      framed by the packet's own start byte, sample number and stop byte. */
  lemma SlotsDecode(p: seq<byte>, start: int, sampleNumber: int, stop: int, sample: Sample, settings: SettingsArgument, codes: seq<int>, accel: seq<int>)
    requires |p| == PacketSize && p[0] == start && p[1] == sampleNumber && p[32] == stop
    requires |sample.channelData| == NumberOfChannelsDefault == |codes|
    requires |sample.auxData| == AccelNumberAxis == |accel|
    requires forall i :: 0 <= i < |codes| ==> -0x80_0000 <= codes[i] < 0x80_0000 && sample.channelData[i] == Volts(24.0, codes[i])
    requires forall j :: 0 <= j < |accel| ==> -0x8000 <= accel[j] < 0x8000 && sample.auxData[j] == AccelValue(accel[j])
    requires forall i :: 0 <= i < NumberOfChannelsDefault ==>
      p[2 + 3 * i..5 + 3 * i] == FloatTo3ByteBuffer(ChannelCount(sample.channelData, i))
    requires forall j :: 0 <= j < AccelNumberAxis ==>
      p[26 + 2 * j..28 + 2 * j] == FloatTo2ByteBuffer(AuxCount(sample.auxData, j))
    requires Gain24Settings(settings)
    ensures ParsePacketStandard(p, settings) == Ok(Sample(start, sampleNumber, sample.channelData, sample.auxData, stop))
  {
    Gain24Decode(p, settings);
    PacketValues(p, sample, codes, accel);
    var s := ParsePacketStandard(p, settings).sample;
    assert s.channelData == sample.channelData;
    assert s.auxData == sample.auxData;
  }

  /** The findings' corrected half: a sample whose eight channel voltages are
      signed 24-bit counts at gain 24 and whose three accelerometer values are
      signed 16-bit counts, with a sample number that fits a byte, comes back
      unchanged from parsePacketStandard at gain 24. */
  lemma IntendedPacketRoundTrip(sample: Sample, protocol: Protocol, settings: SettingsArgument, codes: seq<int>, accel: seq<int>)
    requires |sample.channelData| == NumberOfChannelsDefault == |codes|
    requires |sample.auxData| == AccelNumberAxis == |accel|
    requires forall i :: 0 <= i < |codes| ==> -0x80_0000 <= codes[i] < 0x80_0000 && sample.channelData[i] == Volts(24.0, codes[i])
    requires forall j :: 0 <= j < |accel| ==> -0x8000 <= accel[j] < 0x8000 && sample.auxData[j] == AccelValue(accel[j])
    requires 0 <= sample.sampleNumber < 256
    requires Gain24Settings(settings)
    ensures ParsePacketStandard(IntendedPacket(sample, protocol), settings)
      == Ok(Sample(protocol.byteStart, sample.sampleNumber, sample.channelData, sample.auxData, protocol.byteStop))
  {
    IntendedPacketLayout(sample, protocol);
    SlotsDecode(IntendedPacket(sample, protocol), protocol.byteStart, sample.sampleNumber, protocol.byteStop,
      sample, settings, codes, accel);
  }

  /** The same round trip through parseRawPacket, for a protocol whose stop byte
      marks a standard packet. */
  lemma IntendedPacketRawRoundTrip(sample: Sample, protocol: Protocol, settings: SettingsArgument, codes: seq<int>, accel: seq<int>)
    requires |sample.channelData| == NumberOfChannelsDefault == |codes|
    requires |sample.auxData| == AccelNumberAxis == |accel|
    requires forall i :: 0 <= i < |codes| ==> -0x80_0000 <= codes[i] < 0x80_0000 && sample.channelData[i] == Volts(24.0, codes[i])
    requires forall j :: 0 <= j < |accel| ==> -0x8000 <= accel[j] < 0x8000 && sample.auxData[j] == AccelValue(accel[j])
    requires 0 <= sample.sampleNumber < 256
    requires Gain24Settings(settings)
    requires protocol.byteStop % 16 != protocol.packetTypeUserDefined
    requires protocol.byteStop % 16 != protocol.packetTypeTimeSynced
    ensures ParseRawPacket(Some(IntendedPacket(sample, protocol)), settings, protocol)
      == Ok(Sample(protocol.byteStart, sample.sampleNumber, sample.channelData, sample.auxData, protocol.byteStop))
  {
    IntendedPacketLayout(sample, protocol);
    PacketTypeRange(IntendedPacket(sample, protocol));
    IntendedPacketRoundTrip(sample, protocol, settings, codes, accel);
  }
  /** A channel voltage comes back from its gain-24 count at or below itself,
      less than one count's voltage below it. */
  lemma ChannelWithinStep(v: real)
    ensures Volts(24.0, Counts24(v)) <= v < Volts(24.0, Counts24(v)) + EncodeScale24
  {
    Gain24Volts(Counts24(v));
    Counts24Step(v);
  }

  /** An accelerometer value comes back from its count less than one
      SCALE_FACTOR_ACCEL below itself. */
  lemma AccelWithinStep(v: real)
    ensures AccelValue(Counts16(v)) <= v < AccelValue(Counts16(v)) + ScaleFactorAccel
  {
    Counts16Step(v);
  }

  /** The sample with every channel voltage and axis value rounded down to a
      whole count, as the encoder's `Math.floor` does. */
  function Quantized(sample: Sample): Sample
  {
    sample.(channelData := seq(|sample.channelData|, i requires 0 <= i < |sample.channelData| =>
                                 Volts(24.0, Counts24(sample.channelData[i]))),
            auxData := seq(|sample.auxData|, j requires 0 <= j < |sample.auxData| =>
                             AccelValue(Counts16(sample.auxData[j]))))
  }

  /** Channel data with the same counts gives the same channel bytes. */
  lemma {:induction false} ChannelBytesOfCounts(a: seq<real>, b: seq<real>, n: nat)
    requires forall i :: 0 <= i < n ==> ChannelCount(a, i) == ChannelCount(b, i)
    ensures ChannelBytes(a, n) == ChannelBytes(b, n)
  {
    if n > 0 {
      ChannelBytesOfCounts(a, b, n - 1);
      assert ChannelCount(a, n - 1) == ChannelCount(b, n - 1);
    }
  }

  /** Aux data with the same counts gives the same aux bytes. */
  lemma {:induction false} AuxBytesOfCounts(a: seq<real>, b: seq<real>, n: nat)
    requires forall j :: 0 <= j < n ==> AuxCount(a, j) == AuxCount(b, j)
    ensures AuxBytes(a, n) == AuxBytes(b, n)
  {
    if n > 0 {
      AuxBytesOfCounts(a, b, n - 1);
      assert AuxCount(a, n - 1) == AuxCount(b, n - 1);
    }
  }

  /** Rounding the sample to whole counts does not change its packet. */
  lemma QuantizedPacket(sample: Sample, protocol: Protocol)
    ensures IntendedPacket(Quantized(sample), protocol) == IntendedPacket(sample, protocol)
  {
    var q := Quantized(sample);
    forall i | 0 <= i < NumberOfChannelsDefault
      ensures ChannelCount(q.channelData, i) == ChannelCount(sample.channelData, i)
    {
      if i < |sample.channelData| {
        Counts24OfVolts(Counts24(sample.channelData[i]));
      }
    }
    forall j | 0 <= j < AccelNumberAxis
      ensures AuxCount(q.auxData, j) == AuxCount(sample.auxData, j)
    {
      if j < |sample.auxData| {
        Counts16OfAccelValue(Counts16(sample.auxData[j]));
      }
    }
    ChannelBytesOfCounts(q.channelData, sample.channelData, NumberOfChannelsDefault);
    AuxBytesOfCounts(q.auxData, sample.auxData, AccelNumberAxis);
  }

  /** The round trip of any sample whose counts fit their fields: the decoded
      sample has the framing bytes and sample number, and each channel voltage
      and axis value at or below the original and less than one count below it. */
  lemma IntendedPacketWithinStep(sample: Sample, protocol: Protocol, settings: SettingsArgument)
    requires |sample.channelData| == NumberOfChannelsDefault && |sample.auxData| == AccelNumberAxis
    requires forall i :: 0 <= i < NumberOfChannelsDefault ==> -0x80_0000 <= Counts24(sample.channelData[i]) < 0x80_0000
    requires forall j :: 0 <= j < AccelNumberAxis ==> -0x8000 <= Counts16(sample.auxData[j]) < 0x8000
    requires 0 <= sample.sampleNumber < 256
    requires Gain24Settings(settings)
    ensures var r := ParsePacketStandard(IntendedPacket(sample, protocol), settings);
      r.Ok? && r.sample.startByte == protocol.byteStart && r.sample.sampleNumber == sample.sampleNumber
      && r.sample.stopByte == protocol.byteStop
      && |r.sample.channelData| == NumberOfChannelsDefault && |r.sample.auxData| == AccelNumberAxis
      && (forall i :: 0 <= i < NumberOfChannelsDefault ==>
            r.sample.channelData[i] <= sample.channelData[i] < r.sample.channelData[i] + EncodeScale24)
      && (forall j :: 0 <= j < AccelNumberAxis ==>
            r.sample.auxData[j] <= sample.auxData[j] < r.sample.auxData[j] + ScaleFactorAccel)
  {
    var q := Quantized(sample);
    var codes := seq(NumberOfChannelsDefault, i requires 0 <= i < NumberOfChannelsDefault => Counts24(sample.channelData[i]));
    var accel := seq(AccelNumberAxis, j requires 0 <= j < AccelNumberAxis => Counts16(sample.auxData[j]));
    QuantizedPacket(sample, protocol);
    IntendedPacketRoundTrip(q, protocol, settings, codes, accel);
    forall i | 0 <= i < NumberOfChannelsDefault
      ensures q.channelData[i] <= sample.channelData[i] < q.channelData[i] + EncodeScale24
    {
      ChannelWithinStep(sample.channelData[i]);
    }
    forall j | 0 <= j < AccelNumberAxis
      ensures q.auxData[j] <= sample.auxData[j] < q.auxData[j] + ScaleFactorAccel
    {
      AccelWithinStep(sample.auxData[j]);
    }
  }
}
