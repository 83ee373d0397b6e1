/**
 Meta events (status 0xFF): one decoder per meta type, each reading a
 length, checking it against the type's fixed size and extracting typed
 fields; a table from meta type to decoder and record; the records.

 Every non-text decoder takes the way its length is framed as a parameter:
 the source reads a fixed-width big-endian prefix (four bytes, or one for
 time and key signatures), while a Standard MIDI File writes the length as
 a variable-length quantity. The source's table binds the fixed widths; a
 corrected table binds the variable-length framing.
 */
module MetaEvents {
  import opened Bits
  import opened Bytes
  import opened Results
  import opened Structure
  import opened Pitch

  // ---- Lengths ----

  datatype Framing = FixedPrefix(width: nat) | VlvPrefix

  /** The declared length of a meta event, and the cursor after it. */
  function ReadLength(s: Cursor, framing: Framing): (r: Result<(nat, Cursor)>)
    ensures r.Ok? ==> r.value.1.data == s.data && s.pos <= r.value.1.pos
    ensures framing.FixedPrefix? ==> r.Ok?
  {
    match framing
    case FixedPrefix(width) => Ok(ReadBigEndian(s, width))
    case VlvPrefix =>
      var vs :- ReadVlv(s);
      Ok((vs.0.value, vs.1))
  }

  /** The length reads as `size`. */
  predicate LengthIs(s: Cursor, framing: Framing, size: nat)
  {
    ReadLength(s, framing).Ok? && ReadLength(s, framing).value.0 == size
  }

  /** The length reads, as something other than `size`. */
  predicate LengthOtherThan(s: Cursor, framing: Framing, size: nat)
  {
    ReadLength(s, framing).Ok? && ReadLength(s, framing).value.0 != size
  }

  /** raw is what a `read(size)` right after the length returned, and s' the cursor after it. */
  predicate Consumed(s: Cursor, framing: Framing, size: nat, raw: seq<byte>, s': Cursor)
  {
    && ReadLength(s, framing).Ok?
    && var s1 := ReadLength(s, framing).value.1;
    && s'.data == s.data
    && |raw| == Min(size, Remaining(s1))
    && s'.pos == s1.pos + |raw|
    && raw == s.data[s1.pos..s'.pos]
  }

  /** Read the length, insist on `size`, then read `size` bytes (fewer if the input runs out). */
  function FixedPayload(s: Cursor, framing: Framing, size: nat): (r: Result<(seq<byte>, Cursor)>)
    ensures r.Ok? <==> LengthIs(s, framing, size)
    ensures LengthOtherThan(s, framing, size) ==> r == Err(EventLengthError(ReadLength(s, framing).value.0))
    ensures ReadLength(s, framing).Err? ==> r == Err(EndOfData)
    ensures r.Ok? ==> Consumed(s, framing, size, r.value.0, r.value.1)
  {
    if ReadLength(s, framing).Err? then
      ReadVlvFailure(s, framing);
      Err(EndOfData)
    else
      var (length, s1) := ReadLength(s, framing).value;
      if length != size then Err(EventLengthError(length))
      else
        var (raw, s2) := Read(s1, size);
        Ok((raw, s2))
  }

  lemma ReadVlvFailure(s: Cursor, framing: Framing)
    requires ReadLength(s, framing).Err?
    ensures ReadLength(s, framing).error == EndOfData
  {
  }

  // ---- Decoded payloads ----

  datatype SmpteFields = SmpteFields(hours: nat, minutes: nat, seconds: nat, fps: nat, ff: nat)

  /** What a decoder returns: the declared length, the typed fields and the payload bytes. */
  datatype Payload =
    | SequenceNumberData(length: nat, sequenceNumber: nat, raw: seq<byte>)
    | TextData(length: nat, text: string, raw: seq<byte>)
    | ChannelPrefixData(length: nat, prefix: nat, raw: seq<byte>)
    | EndOfTrackData(length: nat)
    | SetTempoData(length: nat, tpqm: nat, raw: seq<byte>)
    | SmpteOffsetData(length: nat, fields: SmpteFields, raw: seq<byte>)
    | TimeSignatureData(length: nat, numerator: byte, denominator: byte, clocks: byte, notes: byte, raw: seq<byte>)
    | KeySignatureData(length: nat, index: int, minorMajor: byte, raw: seq<byte>)

  // ---- Fixed-size decoders ----

  /** `sequence_number`: a two-byte big-endian number. */
  function SequenceNumber(s: Cursor, framing: Framing): (r: Result<(Payload, Cursor)>)
    ensures r.Ok? <==> LengthIs(s, framing, 2)
    ensures LengthOtherThan(s, framing, 2) ==> r == Err(EventLengthError(ReadLength(s, framing).value.0))
    ensures r.Ok? ==> var (p, s') := r.value;
      && p.SequenceNumberData? && p.length == 2 && Consumed(s, framing, 2, p.raw, s')
      && p.sequenceNumber == BigEndian(p.raw)
      && p.sequenceNumber < 0x10000 && ToBigEndian(p.sequenceNumber, |p.raw|) == p.raw
  {
    var payload :- FixedPayload(s, framing, 2);
    var (raw, s2) := payload;
    BigEndianBound(raw);
    EncodingOfBigEndian(raw);
    assert Pow(256, 2) == 0x10000;
    PowMono(|raw|, 2);
    Ok((SequenceNumberData(2, BigEndian(raw), raw), s2))
  }

  lemma PowMono(a: nat, b: nat)
    requires a <= b
    ensures Pow(256, a) <= Pow(256, b)
    decreases b
  {
    if a < b {
      PowMono(a, b - 1);
    }
  }

  /** `channel_prefix`: a one-byte channel number. */
  function ChannelPrefix(s: Cursor, framing: Framing): (r: Result<(Payload, Cursor)>)
    ensures r.Ok? <==> LengthIs(s, framing, 1)
    ensures LengthOtherThan(s, framing, 1) ==> r == Err(EventLengthError(ReadLength(s, framing).value.0))
    ensures r.Ok? ==> var (p, s') := r.value;
      && p.ChannelPrefixData? && p.length == 1 && Consumed(s, framing, 1, p.raw, s')
      && p.prefix == (if |p.raw| == 1 then p.raw[0] else 0)
  {
    var payload :- FixedPayload(s, framing, 1);
    var (raw, s2) := payload;
    BigEndianShort(raw);
    Ok((ChannelPrefixData(1, BigEndian(raw), raw), s2))
  }

  lemma BigEndianShort(raw: seq<byte>)
    ensures |raw| == 0 ==> BigEndian(raw) == 0
    ensures |raw| == 1 ==> BigEndian(raw) == raw[0]
  {
    if |raw| == 1 {
      assert raw[..0] == [];
    }
  }

  /** `end_of_track`: no payload at all. */
  function EndOfTrackEvent(s: Cursor, framing: Framing): (r: Result<(Payload, Cursor)>)
    ensures r.Ok? <==> LengthIs(s, framing, 0)
    ensures LengthOtherThan(s, framing, 0) ==> r == Err(EventLengthError(ReadLength(s, framing).value.0))
    ensures r.Ok? ==> r.value == (EndOfTrackData(0), ReadLength(s, framing).value.1)
  {
    var payload :- FixedPayload(s, framing, 0);
    Ok((EndOfTrackData(0), payload.1))
  }

  /** `set_tempo`: microseconds per quarter note, a three-byte big-endian number. */
  function SetTempo(s: Cursor, framing: Framing): (r: Result<(Payload, Cursor)>)
    ensures r.Ok? <==> LengthIs(s, framing, 3)
    ensures LengthOtherThan(s, framing, 3) ==> r == Err(EventLengthError(ReadLength(s, framing).value.0))
    ensures r.Ok? ==> var (p, s') := r.value;
      && p.SetTempoData? && p.length == 3 && Consumed(s, framing, 3, p.raw, s')
      && p.tpqm == BigEndian(p.raw)
      && p.tpqm < 0x1000000 && ToBigEndian(p.tpqm, |p.raw|) == p.raw
  {
    var payload :- FixedPayload(s, framing, 3);
    var (raw, s2) := payload;
    BigEndianBound(raw);
    EncodingOfBigEndian(raw);
    assert Pow(256, 3) == 0x1000000;
    PowMono(|raw|, 3);
    Ok((SetTempoData(3, BigEndian(raw), raw), s2))
  }

  /** `time_signature`: four bytes in order; indexing a short read raises. */
  function TimeSignature(s: Cursor, framing: Framing): (r: Result<(Payload, Cursor)>)
    ensures r.Ok? <==> LengthIs(s, framing, 4) && Remaining(ReadLength(s, framing).value.1) >= 4
    ensures LengthOtherThan(s, framing, 4) ==> r == Err(EventLengthError(ReadLength(s, framing).value.0))
    ensures LengthIs(s, framing, 4) && r.Err? ==> r.error == EndOfData
    ensures r.Ok? ==> var (p, s') := r.value;
      && p.TimeSignatureData? && p.length == 4 && Consumed(s, framing, 4, p.raw, s')
      && p.raw == [p.numerator, p.denominator, p.clocks, p.notes]
  {
    var payload :- FixedPayload(s, framing, 4);
    var (raw, s2) := payload;
    if |raw| < 4 then Err(EndOfData)
    else Ok((TimeSignatureData(4, raw[0], raw[1], raw[2], raw[3], raw), s2))
  }

  /** `key_signature`: the index byte, unsigned as read, and the major/minor byte. */
  function KeySignature(s: Cursor, framing: Framing): (r: Result<(Payload, Cursor)>)
    ensures r.Ok? <==> LengthIs(s, framing, 2) && Remaining(ReadLength(s, framing).value.1) >= 2
    ensures LengthOtherThan(s, framing, 2) ==> r == Err(EventLengthError(ReadLength(s, framing).value.0))
    ensures LengthIs(s, framing, 2) && r.Err? ==> r.error == EndOfData
    ensures r.Ok? ==> var (p, s') := r.value;
      && p.KeySignatureData? && p.length == 2 && Consumed(s, framing, 2, p.raw, s')
      && p.raw == [p.index, p.minorMajor] && 0 <= p.index < 256
  {
    var payload :- FixedPayload(s, framing, 2);
    var (raw, s2) := payload;
    if |raw| < 2 then Err(EndOfData)
    else Ok((KeySignatureData(2, raw[0], raw[1], raw), s2))
  }

  /** A byte read as a two's-complement signed number, as the key signature format intends. */
  function Signed(b: byte): (r: int)
    ensures -128 <= r < 128 && (r - b) % 256 == 0
  {
    if b >= 128 then b - 256 else b
  }

  /** The key signature decoder with the index byte read as signed (flats negative). */
  function KeySignatureCorrected(s: Cursor, framing: Framing): (r: Result<(Payload, Cursor)>)
    ensures r.Ok? <==> LengthIs(s, framing, 2) && Remaining(ReadLength(s, framing).value.1) >= 2
    ensures LengthOtherThan(s, framing, 2) ==> r == Err(EventLengthError(ReadLength(s, framing).value.0))
    ensures r.Ok? ==> var (p, s') := r.value;
      && p.KeySignatureData? && p.length == 2 && Consumed(s, framing, 2, p.raw, s')
      && -128 <= p.index < 128 && |p.raw| == 2 && (p.index - p.raw[0]) % 256 == 0 && p.minorMajor == p.raw[1]
  {
    var payload :- FixedPayload(s, framing, 2);
    var (raw, s2) := payload;
    if |raw| < 2 then Err(EndOfData)
    else Ok((KeySignatureData(2, Signed(raw[0]), raw[1], raw), s2))
  }

  // ---- SMPTE offset ----

  /** values[i] is the first value that is not a byte. */
  predicate FirstNonByte(values: seq<nat>, i: int)
  {
    0 <= i < |values| && values[i] >= 256 && forall j :: 0 <= j < i ==> values[j] < 256
  }

  /** `bytearray.append` of each value in turn: a ValueError at the first one that is not a byte. */
  function AppendAll(values: seq<nat>): (r: Result<seq<byte>>)
    ensures r.Ok? <==> forall i :: 0 <= i < |values| ==> values[i] < 256
    ensures r.Ok? ==> r.value == values
    ensures r.Err? ==> exists i :: FirstNonByte(values, i) && r.error == ByteOutOfRange(values[i])
  {
    if |values| == 0 then Ok([])
    else if values[0] >= 256 then Err(ByteOutOfRange(values[0]))
    else
      var rest :- AppendAll(values[1..]);
      Ok([values[0] as byte] + rest)
  }

  /**
   `smpte_offset` as written: each of the five fields is an eight-byte
   big-endian read, the fields are appended to a bytearray (which rejects
   any value above 255), and the reserved-bit accumulator is overwritten
   by the frame byte's mask before it is compared with zero.
   */
  function SmpteOffset(s: Cursor, framing: Framing): (r: Result<(Payload, Cursor)>)
    ensures LengthOtherThan(s, framing, 5) ==> r == Err(EventLengthError(ReadLength(s, framing).value.0))
    ensures r.Ok? ==> LengthIs(s, framing, 5)
    ensures r.Ok? ==> var p := r.value.0;
      && p.SmpteOffsetData? && p.length == 5 && |p.raw| == 5 && p.raw[3] < 32
      && p.fields == SmpteFields(p.raw[0] % 32, p.raw[1] % 64, p.raw[2] % 64, p.raw[3], p.raw[4])
  {
    var (hourBits, s2) :- SmpteHead(s, framing);
    var (minuteBits, s3) := ReadBigEndian(s2, 8);
    var (secondBits, s4) := ReadBigEndian(s3, 8);
    var (frameCountBits, s5) := ReadBigEndian(s4, 8);
    var (fraction, s6) := ReadBigEndian(s5, 8);
    var raw :- AppendAll([hourBits, minuteBits, secondBits, frameCountBits, fraction]);
    SmpteFinish(raw, s6)
  }

  /**
   The rest of `smpte_offset` once the five values are bytes: the field
   masks, and the reserved-bit test, which by then sees only the frame byte.
   */
  function SmpteFinish(raw: seq<byte>, s': Cursor): (r: Result<(Payload, Cursor)>)
    requires |raw| == 5
    ensures r.Ok? <==> raw[3] < 32
    ensures r.Err? ==> r.error == ReservedBitsSet
    ensures r.Ok? ==> r.value == (SmpteOffsetData(5, SmpteFields(raw[0] % 32, raw[1] % 64, raw[2] % 64, raw[3], raw[4]), raw), s')
  {
    var hourBits, minuteBits, secondBits, frameCountBits, fraction := raw[0], raw[1], raw[2], raw[3], raw[4];
    SmpteFieldMasks(hourBits, minuteBits, secondBits, frameCountBits);
    var nullBit := And(frameCountBits, 0xE0);
    if nullBit != 0 then Err(ReservedBitsSet)
    else
      Ok((SmpteOffsetData(5, SmpteFields(And(hourBits, 0x1F), And(minuteBits, 0x3F), And(secondBits, 0x3F),
        And(frameCountBits, 0x1F), fraction), raw), s'))
  }

  lemma SmpteFieldMasks(h: nat, m: nat, sec: nat, f: nat)
    requires f < 256
    ensures And(h, 0x1F) == h % 32 && And(m, 0x3F) == m % 64 && And(sec, 0x3F) == sec % 64
    ensures And(f, 0xE0) == 0 <==> f < 32
    ensures f < 32 ==> And(f, 0x1F) == f
  {
    Low5(h);
    Low6(m);
    Low6(sec);
    Low5(f);
    Top3Clear(f);
  }

  /** The length check and the hours read of `smpte_offset`. */
  function SmpteHead(s: Cursor, framing: Framing): (r: Result<(nat, Cursor)>)
    ensures r.Ok? <==> LengthIs(s, framing, 5)
    ensures LengthOtherThan(s, framing, 5) ==> r == Err(EventLengthError(ReadLength(s, framing).value.0))
  {
    var (length, s1) :- ReadLength(s, framing);
    if length != 5 then Err(EventLengthError(length))
    else Ok(ReadBigEndian(s1, 8))
  }

  /**
   The SMPTE offset decoder as the format defines it: five single bytes, and
   a failure when any reserved bit is set (the top bit of the hours byte,
   the top two of minutes and seconds, the top three of the frame byte).
   */
  function SmpteOffsetCorrected(s: Cursor, framing: Framing): (r: Result<(Payload, Cursor)>)
    ensures LengthOtherThan(s, framing, 5) ==> r == Err(EventLengthError(ReadLength(s, framing).value.0))
    ensures r.Ok? <==> (LengthIs(s, framing, 5) && Remaining(ReadLength(s, framing).value.1) >= 5
      && ReservedClear(Read(ReadLength(s, framing).value.1, 5).0))
    ensures r.Ok? ==> var (p, s') := r.value;
      && p.SmpteOffsetData? && p.length == 5 && Consumed(s, framing, 5, p.raw, s')
      && p.fields == SmpteFields(p.raw[0] % 32, p.raw[1], p.raw[2], p.raw[3], p.raw[4])
  {
    var payload :- FixedPayload(s, framing, 5);
    var (raw, s2) := payload;
    if |raw| < 5 then Err(EndOfData)
    else
      var nullBit := Or(Or(Or(And(raw[0], 0x80), And(raw[1], 0xC0)), And(raw[2], 0xC0)), And(raw[3], 0xE0));
      ReservedMasks(raw[0], raw[1], raw[2], raw[3]);
      if nullBit != 0 then Err(ReservedBitsSet)
      else
        ReservedFields(raw[0], raw[1], raw[2], raw[3]);
        Ok((SmpteOffsetData(5, SmpteFields(And(raw[0], 0x1F), And(raw[1], 0x3F), And(raw[2], 0x3F),
          And(raw[3], 0x1F), raw[4]), raw), s2))
  }

  /** No reserved SMPTE bit is set in the five payload bytes. */
  predicate ReservedClear(raw: seq<byte>)
    requires |raw| >= 4
  {
    raw[0] < 128 && raw[1] < 64 && raw[2] < 64 && raw[3] < 32
  }

  /** The or-ed reserved-bit masks are zero exactly when every field is within its range. */
  lemma ReservedMasks(h: byte, m: byte, sec: byte, f: byte)
    ensures Or(Or(Or(And(h, 0x80), And(m, 0xC0)), And(sec, 0xC0)), And(f, 0xE0)) == 0
      <==> (h < 128 && m < 64 && sec < 64 && f < 32)
  {
    Top1Clear(h);
    Top2Clear(m);
    Top2Clear(sec);
    Top3Clear(f);
    OrNone(And(h, 0x80), And(m, 0xC0), And(sec, 0xC0), And(f, 0xE0));
  }

  /** Within range, the field masks keep whole fields, except the hours' rate bits. */
  lemma ReservedFields(h: byte, m: byte, sec: byte, f: byte)
    requires h < 128 && m < 64 && sec < 64 && f < 32
    ensures And(h, 0x1F) == h % 32 && And(m, 0x3F) == m && And(sec, 0x3F) == sec && And(f, 0x1F) == f
  {
    Low5(h);
    Low6(m);
    Low6(sec);
    Low5(f);
    ModUnique(m, 64, 0, m);
    ModUnique(sec, 64, 0, sec);
    ModUnique(f, 32, 0, f);
  }

  /** Four values or-ed together are zero exactly when each is. */
  lemma OrNone(a: nat, b: nat, c: nat, d: nat)
    ensures Or(Or(Or(a, b), c), d) == 0 <==> a == 0 && b == 0 && c == 0 && d == 0
  {
    OrZero(a, b);
    OrZero(Or(a, b), c);
    OrZero(Or(Or(a, b), c), d);
  }

  // ---- Text events ----

  datatype TextKind = TextEvent | CopyrightNotice | ChunkName | InstrumentName | Lyric | Marker | CuePoint

  predicate IsAscii(raw: seq<byte>)
  {
    forall i :: 0 <= i < |raw| ==> raw[i] < 0x80
  }

  /** `decode("ASCII")` of bytes that are all below 0x80. */
  function AsciiText(raw: seq<byte>): (t: string)
    requires IsAscii(raw)
    ensures |t| == |raw| && forall i :: 0 <= i < |raw| ==> t[i] as int == raw[i]
  {
    seq(|raw|, i requires 0 <= i < |raw| => raw[i] as char)
  }

  /**
   The seven text decoders (`text_event`, `copyright_notice`, `chunk_name`,
   `instrument_name`, `lyric`, `marker`, `cue_point`) share one body: a
   variable-length length, that many bytes (fewer if the input runs out),
   and an EventTextError unless they are all ASCII.
   */
  function Text(s: Cursor): (r: Result<(Payload, Cursor)>)
    ensures ReadVlv(s).Err? ==> r == Err(EndOfData)
    ensures ReadVlv(s).Ok? ==> (r.Ok? <==> IsAscii(Read(ReadVlv(s).value.1, ReadVlv(s).value.0.value).0))
    ensures ReadVlv(s).Ok? && r.Err? ==> r.error == EventTextError
    ensures r.Ok? ==> var (p, s') := r.value;
      && p.TextData? && p.length == ReadVlv(s).value.0.value && Consumed(s, VlvPrefix, p.length, p.raw, s')
      && |p.text| == |p.raw| && forall i :: 0 <= i < |p.raw| ==> p.text[i] as int == p.raw[i]
  {
    var vs :- ReadVlv(s);
    var length := vs.0.value;
    var (raw, s2) := Read(vs.1, length);
    if !IsAscii(raw) then Err(EventTextError)
    else Ok((TextData(length, AsciiText(raw), raw), s2))
  }

  // ---- Records ----

  /** The record classes, one per meta event kind, as the decoders' results are stored. */
  datatype MetaEvent =
    | MetaText(eventInfo: seq<byte>, variantNumber: int, length: nat, text: string, rawContent: seq<byte>)
    | MetaSequenceNumber(length: nat, sequenceNumber: nat, rawContent: seq<byte>)
    | MetaKeySignature(length: nat, signatureIndex: int, signatureName: string, rawContent: seq<byte>)
    | MetaTimeSignature(length: nat, numerator: byte, denominator: byte, clocksPerTick: byte,
        tsnotesPerQnote: byte, rawContent: seq<byte>)
    | MetaSmpteOffset(length: nat, hours: nat, minutes: nat, seconds: nat, fps: nat, ff: nat, smpteRaw: SmpteFields)
    | MetaSetTempo(length: nat, tpqm: nat, rawContent: seq<byte>)
    | MetaChannelPrefix(length: nat, prefix: nat, rawContent: seq<byte>)
    | EndOfTrack(length: nat)

  /** `MetaTextEvent(event_info, variant, data)`: the event header bytes are counted and kept in front. */
  function NewMetaText(eventInfo: seq<byte>, variant: int, data: Payload): (e: MetaEvent)
    requires data.TextData?
    ensures e.MetaText? && e.variantNumber == variant && e.text == data.text
    ensures e.length - |eventInfo| == data.length && |e.rawContent| == |eventInfo| + |data.raw|
    ensures e.rawContent[..|eventInfo|] == eventInfo && e.rawContent[|eventInfo|..] == data.raw
  {
    var e := MetaText(eventInfo, variant, data.length + |eventInfo|, data.text, eventInfo + data.raw);
    assert e.rawContent[..|eventInfo|] == eventInfo && e.rawContent[|eventInfo|..] == data.raw;
    e
  }

  /** The key names of the source's table, from seven flats to seven sharps. */
  const KeyNames: seq<string> := ["Cb", "Fb", "Db", "Ab", "Eb", "Bb", "F", "C", "G", "D", "A", "E", "B", "F#", "C#"]

  /** The same table with six flats named Gb, the major key a fifth below Db. */
  const KeyNamesCorrected: seq<string> := ["Cb", "Gb", "Db", "Ab", "Eb", "Bb", "F", "C", "G", "D", "A", "E", "B", "F#", "C#"]

  /** `MetaKeySignature(data)`: an index in -7..7 (sharps positive), named from the table. */
  function NewKeySignature(data: Payload, names: seq<string>): (r: Result<MetaEvent>)
    requires data.KeySignatureData? && |names| == 15
    ensures r.Ok? <==> -7 <= data.index <= 7
    ensures r.Err? ==> r.error == KeySignatureOutOfRange(data.index)
    ensures r.Ok? ==> (r.value.MetaKeySignature? && r.value.signatureIndex == data.index
      && r.value.signatureName == names[data.index + 7]
      && r.value.length == data.length && r.value.rawContent == data.raw)
  {
    if !(-7 <= data.index < 8) then Err(KeySignatureOutOfRange(data.index))
    else Ok(MetaKeySignature(data.length, data.index, names[data.index + 7], data.raw))
  }

  /** `2 ** denominator`: the note value the time signature's denominator byte stands for. */
  function ActualDenominator(denominator: nat): nat
  {
    Pow(2, denominator)
  }

  /** Which record class a table entry builds. */
  datatype RecordType =
    | SequenceNumberRecord
    | TextRecord
    | KeySignatureRecord(names: seq<string>)
    | TimeSignatureRecord
    | SmpteOffsetRecord
    | SetTempoRecord
    | ChannelPrefixRecord
    | EndOfTrackRecord

  /** The record class accepts what the decoder returned. */
  predicate Accepts(t: RecordType, p: Payload)
  {
    match t
    case SequenceNumberRecord => p.SequenceNumberData?
    case TextRecord => p.TextData?
    case KeySignatureRecord(names) => p.KeySignatureData? && |names| == 15
    case TimeSignatureRecord => p.TimeSignatureData?
    case SmpteOffsetRecord => p.SmpteOffsetData?
    case SetTempoRecord => p.SetTempoData?
    case ChannelPrefixRecord => p.ChannelPrefixData?
    case EndOfTrackRecord => p.EndOfTrackData?
  }

  /**
   e is the record class t's constructor applied to the decoder's result p:
   each field of p lands in the field of the same meaning, a text record
   also counts and keeps the event header bytes, and a key signature is
   named from t's table.
   */
  predicate Carries(t: RecordType, eventInfo: seq<byte>, metaType: int, p: Payload, e: MetaEvent)
  {
    match p
    case SequenceNumberData(length, number, raw) => e == MetaSequenceNumber(length, number, raw)
    case TextData(length, text, raw) =>
      e == MetaText(eventInfo, metaType, length + |eventInfo|, text, eventInfo + raw)
    case ChannelPrefixData(length, prefix, raw) => e == MetaChannelPrefix(length, prefix, raw)
    case EndOfTrackData(length) => e == EndOfTrack(length)
    case SetTempoData(length, tpqm, raw) => e == MetaSetTempo(length, tpqm, raw)
    case SmpteOffsetData(length, f, _) =>
      e == MetaSmpteOffset(length, f.hours, f.minutes, f.seconds, f.fps, f.ff, f)
    case TimeSignatureData(length, numerator, denominator, clocks, notes, raw) =>
      e == MetaTimeSignature(length, numerator, denominator, clocks, notes, raw)
    case KeySignatureData(length, index, _, raw) =>
      && t.KeySignatureRecord? && |t.names| == 15 && -7 <= index <= 7
      && e == MetaKeySignature(length, index, t.names[index + 7], raw)
  }

  /** `object_type(data)`: the record built from a decoder's result. */
  function Build(t: RecordType, eventInfo: seq<byte>, metaType: int, p: Payload): (r: Result<MetaEvent>)
    requires Accepts(t, p)
    ensures r.Err? <==> t.KeySignatureRecord? && !(-7 <= p.index <= 7)
    ensures r.Err? ==> r.error == KeySignatureOutOfRange(p.index)
    ensures r.Ok? ==> Carries(t, eventInfo, metaType, p, r.value)
  {
    match t
    case SequenceNumberRecord => Ok(MetaSequenceNumber(p.length, p.sequenceNumber, p.raw))
    case TextRecord => Ok(NewMetaText(eventInfo, metaType, p))
    case KeySignatureRecord(names) => NewKeySignature(p, names)
    case TimeSignatureRecord =>
      Ok(MetaTimeSignature(p.length, p.numerator, p.denominator, p.clocks, p.notes, p.raw))
    case SmpteOffsetRecord =>
      var f := p.fields;
      Ok(MetaSmpteOffset(p.length, f.hours, f.minutes, f.seconds, f.fps, f.ff, f))
    case SetTempoRecord => Ok(MetaSetTempo(p.length, p.tpqm, p.raw))
    case ChannelPrefixRecord => Ok(MetaChannelPrefix(p.length, p.prefix, p.raw))
    case EndOfTrackRecord => Ok(EndOfTrack(p.length))
  }

  // ---- Dispatch ----

  datatype Decoder =
    | SequenceNumberDecoder(framing: Framing)
    | TextDecoder(kind: TextKind)
    | ChannelPrefixDecoder(framing: Framing)
    | EndOfTrackDecoder(framing: Framing)
    | SetTempoDecoder(framing: Framing)
    | SmpteOffsetDecoder(framing: Framing)
    | SmpteOffsetCorrectedDecoder(framing: Framing)
    | TimeSignatureDecoder(framing: Framing)
    | KeySignatureDecoder(framing: Framing)
    | KeySignatureCorrectedDecoder(framing: Framing)

  /** Run a decoder on the bytes after the meta type. */
  function Run(d: Decoder, s: Cursor): (r: Result<(Payload, Cursor)>)
    ensures r.Ok? ==> Produces(d, r.value.0)
  {
    match d
    case SequenceNumberDecoder(framing) => SequenceNumber(s, framing)
    case TextDecoder(_) => Text(s)
    case ChannelPrefixDecoder(framing) => ChannelPrefix(s, framing)
    case EndOfTrackDecoder(framing) => EndOfTrackEvent(s, framing)
    case SetTempoDecoder(framing) => SetTempo(s, framing)
    case SmpteOffsetDecoder(framing) => SmpteOffset(s, framing)
    case SmpteOffsetCorrectedDecoder(framing) => SmpteOffsetCorrected(s, framing)
    case TimeSignatureDecoder(framing) => TimeSignature(s, framing)
    case KeySignatureDecoder(framing) => KeySignature(s, framing)
    case KeySignatureCorrectedDecoder(framing) => KeySignatureCorrected(s, framing)
  }

  /** The payload kind each decoder returns. */
  predicate Produces(d: Decoder, p: Payload)
  {
    match d
    case SequenceNumberDecoder(_) => p.SequenceNumberData?
    case TextDecoder(_) => p.TextData?
    case ChannelPrefixDecoder(_) => p.ChannelPrefixData?
    case EndOfTrackDecoder(_) => p.EndOfTrackData?
    case SetTempoDecoder(_) => p.SetTempoData?
    case SmpteOffsetDecoder(_) => p.SmpteOffsetData?
    case SmpteOffsetCorrectedDecoder(_) => p.SmpteOffsetData?
    case TimeSignatureDecoder(_) => p.TimeSignatureData?
    case KeySignatureDecoder(_) => p.KeySignatureData?
    case KeySignatureCorrectedDecoder(_) => p.KeySignatureData?
  }

  datatype Entry = Entry(decoder: Decoder, objectType: RecordType)

  /** The entry's record class is the one for its decoder's kind of payload. */
  predicate Pairs(e: Entry)
  {
    match e.decoder
    case SequenceNumberDecoder(_) => e.objectType == SequenceNumberRecord
    case TextDecoder(_) => e.objectType == TextRecord
    case ChannelPrefixDecoder(_) => e.objectType == ChannelPrefixRecord
    case EndOfTrackDecoder(_) => e.objectType == EndOfTrackRecord
    case SetTempoDecoder(_) => e.objectType == SetTempoRecord
    case SmpteOffsetDecoder(_) => e.objectType == SmpteOffsetRecord
    case SmpteOffsetCorrectedDecoder(_) => e.objectType == SmpteOffsetRecord
    case TimeSignatureDecoder(_) => e.objectType == TimeSignatureRecord
    case KeySignatureDecoder(_) => e.objectType.KeySignatureRecord? && |e.objectType.names| == 15
    case KeySignatureCorrectedDecoder(_) => e.objectType.KeySignatureRecord? && |e.objectType.names| == 15
  }

  /** A paired entry's record class accepts whatever its decoder returns. */
  lemma PairsAccept(e: Entry, p: Payload)
    requires Pairs(e) && Produces(e.decoder, p)
    ensures Accepts(e.objectType, p)
  {
  }

  /** Every entry of the table is paired. */
  predicate WellPaired(table: map<int, Entry>)
  {
    forall k :: k in table ==> Pairs(table[k])
  }

  /** `meta_events`, as the source writes it. */
  const MetaTable: map<int, Entry> := map[
    0x00 := Entry(SequenceNumberDecoder(FixedPrefix(4)), SequenceNumberRecord),
    0x01 := Entry(TextDecoder(TextEvent), TextRecord),
    0x02 := Entry(TextDecoder(CopyrightNotice), TextRecord),
    0x03 := Entry(TextDecoder(ChunkName), TextRecord),
    0x04 := Entry(TextDecoder(InstrumentName), TextRecord),
    0x05 := Entry(TextDecoder(Lyric), TextRecord),
    0x06 := Entry(TextDecoder(Marker), TextRecord),
    0x07 := Entry(TextDecoder(CuePoint), TextRecord),
    0x2F := Entry(ChannelPrefixDecoder(FixedPrefix(4)), ChannelPrefixRecord),
    0x51 := Entry(SetTempoDecoder(FixedPrefix(4)), SetTempoRecord),
    0x54 := Entry(SmpteOffsetDecoder(FixedPrefix(4)), SmpteOffsetRecord),
    0x58 := Entry(TimeSignatureDecoder(FixedPrefix(1)), TimeSignatureRecord),
    0x59 := Entry(KeySignatureDecoder(FixedPrefix(1)), KeySignatureRecord(KeyNames))]

  /**
   The table with the defects removed: channel prefix under 0x20, end of
   track under 0x2F, variable-length framing throughout, and the corrected
   SMPTE and key signature decoders.
   */
  const CorrectedTable: map<int, Entry> := map[
    0x00 := Entry(SequenceNumberDecoder(VlvPrefix), SequenceNumberRecord),
    0x01 := Entry(TextDecoder(TextEvent), TextRecord),
    0x02 := Entry(TextDecoder(CopyrightNotice), TextRecord),
    0x03 := Entry(TextDecoder(ChunkName), TextRecord),
    0x04 := Entry(TextDecoder(InstrumentName), TextRecord),
    0x05 := Entry(TextDecoder(Lyric), TextRecord),
    0x06 := Entry(TextDecoder(Marker), TextRecord),
    0x07 := Entry(TextDecoder(CuePoint), TextRecord),
    0x20 := Entry(ChannelPrefixDecoder(VlvPrefix), ChannelPrefixRecord),
    0x2F := Entry(EndOfTrackDecoder(VlvPrefix), EndOfTrackRecord),
    0x51 := Entry(SetTempoDecoder(VlvPrefix), SetTempoRecord),
    0x54 := Entry(SmpteOffsetCorrectedDecoder(VlvPrefix), SmpteOffsetRecord),
    0x58 := Entry(TimeSignatureDecoder(VlvPrefix), TimeSignatureRecord),
    0x59 := Entry(KeySignatureCorrectedDecoder(VlvPrefix), KeySignatureRecord(KeyNamesCorrected))]

  /** Look the meta type up, run its decoder, build its record; a KeyError for an unlisted type. */
  function Dispatch(table: map<int, Entry>, metaType: int, eventInfo: seq<byte>, s: Cursor): (r: Result<(MetaEvent, Cursor)>)
    requires WellPaired(table)
    ensures metaType !in table ==> r == Err(UnknownMetaType(metaType))
    ensures r.Ok? ==> (metaType in table && Run(table[metaType].decoder, s).Ok?
      && r.value.1 == Run(table[metaType].decoder, s).value.1
      && Carries(table[metaType].objectType, eventInfo, metaType, Run(table[metaType].decoder, s).value.0, r.value.0))
  {
    if metaType !in table then Err(UnknownMetaType(metaType))
    else
      var entry := table[metaType];
      var decoded :- Run(entry.decoder, s);
      PairsAccept(entry, decoded.0);
      var e :- Build(entry.objectType, eventInfo, metaType, decoded.0);
      Ok((e, decoded.1))
  }
}
