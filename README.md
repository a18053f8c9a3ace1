# OpenBCI V3 sample packets, in Dafny

This project models `openBCISample.js`, the sample module of the OpenBCI
Node.js driver. It covers the packet logic of the OpenBCI V3 board and the
impedance arithmetic built on it.

A sample travels in a 33-byte packet laid out as follows:

| bytes | content |
|---|---|
| 0 | start byte |
| 1 | sample number |
| 2..25 | 8 channels × 3 bytes, big-endian two's complement |
| 26..31 | 3 accelerometer axes × 2 bytes |
| 32 | stop byte; its low nibble is the packet type |

The modules follow the structure of the JavaScript:

- `Common`: bytes, `Option`, and the way a Buffer answers a read past its end (`undefined`, read as 0) or a clamped `slice`.
- `Int32`: the ECMAScript operators the codec uses (`ToInt32`, `ToUint32`, `<<`, `>>`, `|`, `&`), on 32-bit patterns.
- `Codec`:
  - `interpret24bitAsInt32` and `interpret16bitAsInt32`.
  - The integer half of `floatTo3ByteBuffer` and `floatTo2ByteBuffer`.
  - The scale factors, with round-trip lemmas in both directions.
- `Packet`:
  - `parseRawPacket`, `getRawPacketType`, `parsePacketStandard`, `getChannelDataArray`, `getAccelDataArray` and `newSample`.
  - A promise's outcome is a value:
    - `Ok(sample)`;
    - `UserDefinedEmpty`: resolved with nothing;
    - `NoResult`: never settles;
    - `Err`.
  - The first `reject`/`resolve` call decides the outcome, because `reject` does not stop the code after it.
- `Encoder`:
  - `convertSampleToPacket` as written, writing into a byte array.
  - A corrected encoder, and the round trip through the decoder.
- `Impedance`: `impedanceCalculationForChannel` and `impedanceCalculationForAllChannels`, which update a sample object's `channelData` array in place.
- `Goertzel`: `goertzelNewObject` and `goertzelProcessSample`, modelled as a class whose `q1`/`q2` arrays and block counter change in place.
- `ImpedanceObjects`: `newImpedanceObject`, `impedanceArray` and `impedanceSummarize`.
- `Simulator`: the sample-number step of `randomSample`.

Values the constants module supplies are parameters: a `Protocol` record and `DriveAmps` arguments.
- Packet size, positions and channel count are constants. They are taken from the layout comment at `openBCISample.js:458`.
- `Math.cos` enters only as the Goertzel coefficient, which is a parameter.
- `Math.sqrt` is a function parameter.
- Doubles are modelled as exact reals.

Three notes on what the code does:

- A packet with a bad channel configuration never settles (`NoResult`): `parsePacketStandard`'s `.catch` (lines 490-493) only logs the rejection.
- The number of channel-settings objects is never checked, although the doc comment at lines 459-461 asks for an array of `{gain: NUMBER}` objects shaped like the one `channelSettingsArrayInit()` builds. The code decodes one voltage per settings object, and objects past the eighth read an empty slice, whose code is 0.
- Any number passes `isNumber`, so a negative gain decodes like any other, with the sign of its channel's voltage reversed.

## Model

| member | source | states |
|---|---|---|
| Common.ByteAt | openBCISample.js:248-255 | an index inside the buffer reads its byte; any index at or past the end reads as 0, as `undefined` does in `> 127` and in bitwise operators |
| Common.Slice | openBCISample.js:475-477 | `buf.slice(from, to)` clamps both ends: its length is `min(to, len) - from` or 0, and each element is the buffer's byte at `from + k` |
| Codec.Fields24 | openBCISample.js:254-254 | the or of `prefix << 24`, `b0 << 16`, `b1 << 8` and `b2` equals the four bytes side by side |
| Codec.Fields16 | openBCISample.js:244-244 | the or of `prefix << 16`, `b0 << 8` and `b1` equals the three parts side by side |
| Codec.Interpret24bitAsInt32 | openBCISample.js:246-256 | the result is `65536*b0 + 256*b1 + b2`, minus 2^24 when b0 > 127, and lies in [-2^23, 2^23-1] |
| Codec.Interpret16bitAsInt32 | openBCISample.js:236-245 | the result is `256*b0 + b1`, minus 2^16 when b0 > 127, and lies in [-2^15, 2^15-1] |
| Codec.ByteLanes | openBCISample.js:156-158 | `temp & 255`, `temp & (255 << 8)` and `temp & (255 << 16)` keep the low, middle and high byte of the count, each in its own lane |
| Codec.FloatTo3ByteBuffer | openBCISample.js:156-158 | the three bytes are those of the count modulo 2^24, most significant first |
| Codec.FloatTo2ByteBuffer | openBCISample.js:178-179 | the two bytes are those of the count modulo 2^16, most significant first |
| Codec.Int24Wrap | openBCISample.js:143-160 | encoding any count in three bytes and reading them back gives the count wrapped into the signed 24-bit range |
| Codec.Int24RoundTrip | openBCISample.js:143-160 | on the signed 24-bit range, interpret24bitAsInt32 undoes floatTo3ByteBuffer, as the doc comment calls them opposites |
| Codec.Bytes24RoundTrip | openBCISample.js:246-256 | every three-byte buffer is the encoding of the value read from it |
| Codec.Int16Wrap | openBCISample.js:162-182 | the 16-bit encoding read back gives the count wrapped into the signed 16-bit range |
| Codec.Int16RoundTrip | openBCISample.js:162-182 | on the signed 16-bit range, interpret16bitAsInt32 undoes floatTo2ByteBuffer |
| Codec.Bytes16RoundTrip | openBCISample.js:236-245 | every two-byte buffer is the encoding of the value read from it |
| Codec.SignExtension24Examples | openBCISample.js:246-256 | FF FF FF reads -1, 7F FF FF reads 8388607, 80 00 00 reads -8388608 |
| Codec.SignExtension16Examples | openBCISample.js:236-245 | FF FF reads -1, 7F FF reads 32767, 80 00 reads -32768 |
| Codec.Counts24OfCode | openBCISample.js:151-153 | a voltage that is a whole number of gain-24 counts is converted back to exactly that count |
| Codec.Counts16OfCode | openBCISample.js:171-173 | an accelerometer value that is a whole number of counts is converted back to exactly that count |
| Codec.Counts24 | openBCISample.js:151-153 | the encoder's count, `floor(float / (VREF/24/(2^23-1)))`; Counts24OfCode and Counts24Step state what it gives back |
| Codec.Counts16 | openBCISample.js:171-173 | the accelerometer count, `floor(float / SCALE_FACTOR_ACCEL)`; Counts16OfCode and Counts16Step state what it gives back |
| Codec.FloorStep | openBCISample.js:151-153 | for a positive scale s, `floor(v/s) * s` is at or below v and less than one step s below it |
| Codec.Counts24Step | openBCISample.js:151-153 | the gain-24 count of v, scaled back, is at or below v and within one count of it |
| Codec.Counts16Step | openBCISample.js:171-173 | the accelerometer count of v, scaled back, is at or below v and within one SCALE_FACTOR_ACCEL of it |
| Packet.NewSample | openBCISample.js:272-280 | the new sample has the start and stop bytes, sample number 0 and empty channel and aux data |
| Packet.GetRawPacketType | openBCISample.js:541-543 | `stopByte & 0xF` is the stop byte modulo 16, always in 0..15 |
| Packet.Volts | openBCISample.js:532-536 | `VREF / gain / (2^23-1)` times the code; FullScaleVolts and ChannelVoltageInPacket state its value |
| Packet.FullScaleVolts | openBCISample.js:532-532 | the full-scale code 2^23-1 reads as VREF / gain, which is 0.1875 V at gain 24 |
| Packet.AccelValue | openBCISample.js:509-509 | the code times SCALE_FACTOR_ACCEL; Counts16OfCode and AccelWithinStep state what the encoder gives back |
| Packet.ChannelCode | openBCISample.js:534-536 | the signed 24-bit code of the three bytes at 3i of the channel bytes; ChannelCodeInPacket places them in the packet |
| Packet.AccelCode | openBCISample.js:508-509 | the signed 16-bit code of the two bytes at 2j of the aux bytes; AccelCodeInPacket places them in the packet |
| Packet.FirstInvalidGain | openBCISample.js:527-531 | the first settings object whose gain is missing or not a number; FirstInvalidGainSpec characterises it |
| Packet.ChannelVoltage | openBCISample.js:530-536 | the voltage pushed for one settings object; ChannelDataArraySpec and ChannelVoltageInPacket state it for numeric gains |
| Packet.ChannelVoltages | openBCISample.js:528-537 | one voltage per settings object, in order |
| Packet.ChannelDataArray | openBCISample.js:523-540 | how getChannelDataArray settles; ChannelDataArraySpec and FirstInvalidGainSpec characterise it and GetChannelDataArray's loop computes it |
| Packet.AccelDataArray | openBCISample.js:504-513 | the three axis values; GetAccelDataArray's loop computes it and ParsePacketStandardLayout places it in the packet |
| Packet.ParsePacketStandard | openBCISample.js:469-497 | how parsePacketStandard settles; ParsePacketStandardOutcome and ParsePacketStandardLayout characterise it |
| Packet.EffectiveSettings | openBCISample.js:44-44 | `channelSettingsArray || defaultChannelSettingsArray`; ParseRawPacketSpec states its use |
| Packet.PacketType | openBCISample.js:46-46 | the type read from byte 32 through ByteAt; PacketTypeRange states its value |
| Packet.ParseRawPacket | openBCISample.js:37-64 | how parseRawPacket settles; ParseRawPacketSpec characterises every outcome |
| Packet.GetChannelDataArray | openBCISample.js:523-540 | the forEach loop settles as ChannelDataArray: rejected when the argument is not an array or with the first bad gain, otherwise resolved with one voltage per settings object |
| Packet.GetAccelDataArray | openBCISample.js:504-513 | the loop yields the three axis values `int16(bytes 2j..2j+1) * SCALE_FACTOR_ACCEL`, in order |
| Packet.FirstInvalidGainSpec | openBCISample.js:527-531 | a rejection happens exactly when some gain is missing or not a number; it names the first such object, and says missing when its gain is absent |
| Packet.ChannelDataArraySpec | openBCISample.js:523-540 | resolves exactly for an array of numeric gains; then it holds one voltage per settings object, each the object's scale times its channel code |
| Packet.ChannelCodeInPacket | openBCISample.js:458-458 | channel i's code read through the channel-bytes slice is the code at packet bytes 2+3i..4+3i, or 0 past the eighth channel |
| Packet.AccelCodeInPacket | openBCISample.js:458-458 | axis j's code read through the aux slice is the code at packet bytes 26+2j..27+2j |
| Packet.ChannelVoltageInPacket | openBCISample.js:475-478 | the voltage of settings object i is its gain's scale times the packet's channel-i code |
| Packet.ParsePacketStandardOutcome | openBCISample.js:469-497 | an error exactly when the length is not 33, and then a wrong-size error; no result exactly for 33 bytes with unusable settings; a sample exactly for 33 bytes with valid settings |
| Packet.ParsePacketStandardLayout | openBCISample.js:469-497 | the resolved sample has start byte, sample number and stop byte from bytes 0, 1 and 32, one voltage per settings object from its channel bytes and gain, and three aux values from bytes 26..31 |
| Packet.ParseRawPacketSpec | openBCISample.js:37-64 | outcome by outcome, iff: a missing buffer or a bad start byte is an error naming the byte found; user-defined resolves empty; time-synced never settles; any other type is parsed as a standard packet, with the defaults replacing falsy settings |
| Packet.PacketTypeRange | openBCISample.js:46-46 | the type of any buffer is its byte 32 modulo 16, or 0 when the buffer has no byte 32, always in 0..15 |
| Encoder.EncodedPacket | openBCISample.js:71-98 | the as-written packet is 33 bytes long |
| Encoder.IntendedPacket | openBCISample.js:71-98 | the corrected packet is 33 bytes long |
| Encoder.ChannelCount | openBCISample.js:151-153 | the count floatTo3ByteBuffer encodes for channel i, 0 for a missing channel; Counts24Step states its relation to the voltage |
| Encoder.AuxCount | openBCISample.js:171-173 | the count floatTo2ByteBuffer encodes for axis j, 0 for a missing axis |
| Encoder.ChannelBytes | openBCISample.js:82-86 | the encodings of the first n channels, 3n bytes; ChannelBytesLayout places each one |
| Encoder.AuxBytes | openBCISample.js:88-92 | the encodings of the first n axes, 2n bytes; AuxBytesLayout places each one |
| Encoder.Copied | openBCISample.js:85-85 | Node's `Buffer.copy` writes the source at targetStart onwards as far as it fits, keeps every other byte, and writes nothing when targetStart is past the end |
| Encoder.CopyInto | openBCISample.js:85-85 | the target array afterwards equals Copied of its old contents |
| Encoder.ChannelBytesLayout | openBCISample.js:82-86 | channel i's three bytes are at offset 3i of the concatenated channel encodings |
| Encoder.AuxBytesLayout | openBCISample.js:88-92 | axis j's two bytes are at offset 2j of the concatenated aux encodings |
| Encoder.CopyChannels | openBCISample.js:82-86 | the loop leaves bytes 0..1 alone, fills bytes 2..25 with the eight channel encodings, and leaves 26..32 at 0 |
| Encoder.ConvertSampleToPacket | openBCISample.js:71-98 | returns a fresh buffer equal to EncodedPacket: start byte, sample number mod 256, the channel bytes, six zero aux bytes, stop byte |
| Encoder.CopyAux | openBCISample.js:88-92 | the corrected aux loop leaves bytes 0..25 alone and fills 26..31 with the three axis encodings |
| Encoder.ConvertSampleToPacketCorrected | openBCISample.js:71-98 | returns a fresh buffer equal to IntendedPacket, with axis j at 26+2j |
| Encoder.EncodedPacketLayout | openBCISample.js:71-98 | byte 0 is the start byte, byte 1 the sample number, channel i at 2+3i..4+3i, bytes 26..31 zero, byte 32 the stop byte |
| Encoder.IntendedPacketLayout | openBCISample.js:71-98 | as EncodedPacketLayout, with axis j's encoding at 26+2j..27+2j |
| Encoder.IntendedPacketCodes | openBCISample.js:71-98 | for any sample, the decoder reads each channel's and each axis's count back wrapped into the signed 24-bit and 16-bit ranges |
| Encoder.ZeroAccelValue | openBCISample.js:508-508 | a zero aux byte pair decodes to the accelerometer value 0 |
| Encoder.ZeroAuxDecodes | openBCISample.js:469-497 | a packet with zero aux bytes decodes, under valid settings, to aux data [0, 0, 0] |
| Encoder.EncoderDropsAux | openBCISample.js:88-92 | whatever the sample's accelerometer values, the as-written packet decodes to aux data [0, 0, 0] |
| Encoder.EncoderDropsAuxExample | openBCISample.js:91-91 | the sample with aux data [SCALE_FACTOR_ACCEL, 0, 0] does not survive the as-written encoder and the decoder |
| Encoder.Gain24Volts | openBCISample.js:151-151 | at gain 24 the decoder's volts per count equal the encoder's divisor |
| Encoder.ChannelCodeOfBytes | openBCISample.js:82-86 | a channel slot holding the encoding of a signed 24-bit count decodes to that count |
| Encoder.Counts24OfVolts | openBCISample.js:151-153 | the count floatTo3ByteBuffer computes for the gain-24 voltage of code c is c |
| Encoder.Counts16OfAccelValue | openBCISample.js:171-173 | the count floatTo2ByteBuffer computes for the accelerometer value of code c is c |
| Encoder.ChannelCodeRoundTrip | openBCISample.js:82-86 | a channel voltage of c gain-24 counts is read back as code c from its slot |
| Encoder.AccelCodeRoundTrip | openBCISample.js:88-92 | an axis value of c counts is read back as code c from its slot |
| Encoder.Gain24Decode | openBCISample.js:469-497 | under eight gain-24 settings, every 33-byte packet decodes by the layout with one scale for all channels |
| Encoder.PacketValues | openBCISample.js:71-98 | a packet holding the encodings of a count-valued sample yields that sample's voltages and aux values again |
| Encoder.SlotsDecode | openBCISample.js:469-497 | a 33-byte packet whose channel and aux slots hold the encodings of a sample made of whole gain-24 and accelerometer counts decodes, under gain-24 settings, to exactly that sample with the packet's start, sample-number and stop bytes |
| Encoder.IntendedPacketRoundTrip | openBCISample.js:71-98 | a sample of eight gain-24 channel counts, three 16-bit aux counts and a byte-sized sample number comes back unchanged from parsePacketStandard |
| Encoder.IntendedPacketRawRoundTrip | openBCISample.js:37-64 | the same round trip through parseRawPacket, when the stop byte marks a standard packet |
| Encoder.ChannelWithinStep | openBCISample.js:151-153 | the voltage of a channel's gain-24 count is at or below the channel's voltage and less than one count's voltage below it |
| Encoder.AccelWithinStep | openBCISample.js:171-173 | the value of an axis's count is at or below the axis value and less than SCALE_FACTOR_ACCEL below it |
| Encoder.Quantized | openBCISample.js:151-173 | the sample with every value rounded down to a whole count; QuantizedPacket and IntendedPacketWithinStep state its use |
| Encoder.ChannelBytesOfCounts | openBCISample.js:82-86 | channel data with the same counts gives the same channel bytes |
| Encoder.AuxBytesOfCounts | openBCISample.js:88-92 | aux data with the same counts gives the same aux bytes |
| Encoder.QuantizedPacket | openBCISample.js:71-98 | rounding a sample to whole counts leaves its corrected packet unchanged |
| Encoder.IntendedPacketWithinStep | openBCISample.js:71-98 | for any sample whose counts fit 24 and 16 bits, parsePacketStandard of the corrected packet resolves with the framing bytes and sample number, and each value at or below the original and within one count of it |
| Impedance.Abs | openBCISample.js:199-201 | the flipped value is non-negative and is the value or its negation |
| Impedance.Ohms | openBCISample.js:202-202 | `(sqrt2 * v) / OBCILeadOffDriveInAmps`; InstantaneousImpedanceSign states its sign |
| Impedance.InstantaneousImpedance | openBCISample.js:199-202 | the impedance of the flipped voltage; InstantaneousImpedanceSign states it is non-negative and even in v |
| Impedance.ChannelOutcome | openBCISample.js:193-204 | how impedanceCalculationForChannel settles; ChannelOutcomeSpec characterises the three outcomes |
| Impedance.AbsAt | openBCISample.js:197-201 | the single-channel flip makes entry channelNumber-1 non-negative and keeps every other entry |
| Impedance.AbsAll | openBCISample.js:221-224 | the all-channel flip keeps the length |
| Impedance.Impedances | openBCISample.js:221-229 | one impedance per channel entry |
| Impedance.ImpedanceCalculationForChannel | openBCISample.js:190-212 | rejects a missing sample object or missing channelData; otherwise flips only entry channelNumber-1 in place, even when it then rejects the channel number, and settles as ChannelOutcome |
| Impedance.ImpedanceCalculationForAllChannels | openBCISample.js:213-235 | rejects a missing sample object or channelData; otherwise the same array holds the absolute values, `impedances` holds `sqrt2*abs(v)/driveAmps` per entry, and the promise resolves with the sample object |
| Impedance.InstantaneousImpedanceSign | openBCISample.js:199-202 | an impedance is non-negative and the same for v and -v |
| Impedance.AllChannelsSpec | openBCISample.js:221-231 | after the all-channel update every entry and every impedance is non-negative, and recomputing the impedances from the updated entries changes nothing |
| Impedance.ChannelOutcomeSpec | openBCISample.js:190-212 | iff: rejected for a channel number outside 1..8; NaN for one in 1..8 past channelData's end; a number otherwise. The number equals the all-channel impedance of that entry and is non-negative. The flip is idempotent |
| Goertzel.GoertzelK | openBCISample.js:22-22 | the bin index is the block-relative lead-off frequency rounded to the nearest integer |
| Goertzel.Q0 | openBCISample.js:376-376 | `GOERTZEL_COEFF_250 * q1 - q2 + x`; Resonate and ZeroInputResonated state its use |
| Goertzel.MagnitudeSquared | openBCISample.js:399-399 | `q1² + q2² - q1·q2·coeff`; MagnitudeSquaredNonNegative states its sign |
| Goertzel.NextIndex | openBCISample.js:385-412 | the counter after one call; IndexSchedule states the counter's sequence |
| Goertzel.IndexAfter | openBCISample.js:385-412 | the counter of a fresh object after t calls; IndexSchedule and EmissionSchedule state its values |
| Goertzel.Resonated | openBCISample.js:375-380 | one new register value per channel |
| Goertzel.BlockImpedances | openBCISample.js:390-406 | one impedance per channel |
| Goertzel.GoertzelObject.constructor | openBCISample.js:421-435 | zero registers for every channel, counter 0, and the channel count as given; a count below 1 gives empty registers |
| Goertzel.GoertzelObject.Resonate | openBCISample.js:375-381 | the resonator loop leaves each channel's q1 at its q0 (`coeff*q1 - q2 + x`) and its q2 at the old q1 |
| Goertzel.GoertzelObject.CloseBlock | openBCISample.js:390-409 | the block-end loop returns one impedance per channel, `sqrt(q1² + q2² - q1·q2·coeff) / driveAmps` from that channel's registers, and clears both registers |
| Goertzel.GoertzelObject.ProcessSample | openBCISample.js:373-420 | q1 becomes each channel's q0 and q2 the old q1; the counter goes up by one; impedances are returned iff the counter passes 62, and then registers and counter are reset to 0 |
| Goertzel.IndexSchedule | openBCISample.js:385-412 | from a fresh object the counter after t calls is t mod 63 |
| Goertzel.EmissionSchedule | openBCISample.js:385-415 | the call numbered t+1 returns impedances iff t+1 is a multiple of 63 |
| Goertzel.MagnitudeSquaredNonNegative | openBCISample.js:399-399 | with a coefficient in [-2, 2], `q1² + q2² - q1·q2·coeff` is non-negative, so the square root's argument is never negative |
| Goertzel.BlockImpedancesNonNegative | openBCISample.js:399-402 | with a square root that is non-negative on non-negative inputs, every block impedance is non-negative |
| Goertzel.ZeroInputResonated | openBCISample.js:375-381 | with zero input, zero registers stay zero |
| Goertzel.ZeroBlockImpedances | openBCISample.js:390-406 | with sqrt(0) = 0, a block of zero registers gives impedance 0 on every channel |
| Goertzel.ZeroInputBlock | openBCISample.js:373-415 | a block of zero input from zero registers returns impedance 0 on every channel |
| ImpedanceObjects.ImpedanceInput.constructor | openBCISample.js:444-447 | raw -1 and the initial text |
| ImpedanceObjects.ImpedanceObject.constructor | openBCISample.js:441-453 | the channel number and two fresh, distinct inputs, each with raw -1 and the initial text |
| ImpedanceObjects.ImpedanceArray | openBCISample.js:257-263 | one fresh object per channel, numbered from 1, each with fresh raw -1 inputs, no two sharing an input |
| ImpedanceObjects.SummaryText | openBCISample.js:265-271 | above the bad threshold the text is "no load", otherwise the lookup's text for the raw value |
| ImpedanceObjects.ImpedanceSummarize | openBCISample.js:265-271 | only the text changes, to SummaryText of the raw value |
| Simulator.NextSampleNumber | openBCISample.js:355-359 | 255 goes to 0 and any other number to its successor; a number in 0..255 stays in 0..255 and advances modulo 256 |
| Simulator.SampleNumberAfter | openBCISample.js:355-359 | the sample number after t steps; SampleNumberModulo and SampleNumberPeriod state its values |
| Simulator.SampleNumberModulo | openBCISample.js:355-359 | from a start in 0..255, the sample number after t steps is `(start + t) mod 256` |
| Simulator.SampleNumberPeriod | openBCISample.js:355-359 | the sample number repeats every 256 steps |

## Left out

- Console output and formatting: `debugPrettyPrint`, `samplePrintHeader`, `samplePrintLine`, and the `console.log` calls.
- Asynchrony: promises become outcome values, and the order in which `.then` callbacks run is not modelled.
- Randomness and trigonometry: `randomSample`'s Gaussian noise, `Math.random`, `Math.sin`, and its pink-noise and phase updates at lines 317-353. Only its sample-number step is modelled.
- Floating point: doubles are exact reals, so rounding is not modelled, and neither are NaN and Infinity.
  - The `Math.floor` of `float / scale` in the encoders is the exact floor (`Counts24`, `Counts16`).
  - `Math.sqrt(2)` is the constant 1.4142135623730951.
- Packet.Gain: a numeric gain of 0 is excluded, because the source would divide by it and produce Infinity or NaN.
- Packet.ChannelVoltage: a rejected settings object pushes some value in the source (NaN for a missing gain, another value for a gain `isNumber` refuses); the model pushes 0.0, and no pushed value is observed once the promise has rejected.
- Impedance.ImpedanceCalculationForChannel: the NaN impedance of a valid channel number past the end of channelData is the `NotANumber` outcome, not a number.
- Goertzel.GoertzelObject.ProcessSample: requires at least `numberOfChannels` channel values; with fewer, the source would add `undefined` and produce NaN registers.
- Goertzel.GoertzelObject.Resonate: the same requirement, for the resonator loop on its own.
- Constants module: these are parameters, because that module is not part of this model:
  - start and stop bytes, packet type codes, default channel settings;
  - lead-off drive current, impedance thresholds and texts, `getTextForRawImpedance`, sample rate and lead-off frequency.
  - `isNumber` becomes the `GainField` datatype, and `channelSettingsArrayInit` becomes `Protocol.defaultChannelSettings`.
- Goertzel coefficient: `GOERTZEL_W_250` and `GOERTZEL_COEFF_250` need `Math.cos` and `Math.PI`, so the coefficient is a parameter.
- Dynamic typing: every value is a well-typed model value. This excludes:
  - a non-Buffer `dataBuf` without `byteLength`;
  - non-numeric channel data;
  - a non-integer channel number;
  - sample objects with other fields.
- Buffer allocation: `new Buffer(n)` plus `fill(0)` becomes a zero-filled array; the deprecation of the `Buffer` constructor is not modelled.
- Unused code: the unused `outliers` and `scientific-statistics` requires, the `scaleFactorAux`, `k` and `GOERTZEL_BLOCK_SIZE` re-exports, and the 16-channel Daisy TODO.

## Findings

| source | as written | input that shows it | evidently intended | confidence | as-written member | corrected member |
|---|---|---|---|---|---|---|
| openBCISample.js:91 | the aux loop copies axis j to `(33 - 1 - 6) + i * 2` using the channel loop's counter `i`, which is 8 by then. The offset is 42, past the end of the buffer, so nothing is copied and bytes 26..31 stay 0 | a sample with aux data [0.000125, 0, 0] (one accelerometer count) is encoded and decodes back with aux data [0, 0, 0] | copy axis j to `26 + j * 2` with the aux loop's own counter, so that the packet decodes back to the sample | not executed | Encoder.EncoderDropsAuxExample | Encoder.IntendedPacketRoundTrip |
