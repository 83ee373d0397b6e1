/**
 Properties of the meta event decoders: each decoder inverts the layout a
 writer produces (length field, payload, anything after), the two tables
 are consistent, and the defects of the source's table and decoders are
 exhibited next to their corrected counterparts.
 */
module MetaFacts {
  import opened Bits
  import opened Bytes
  import opened Results
  import opened Structure
  import opened Pitch
  import opened MetaEvents

  // ---- Writing a length and a payload ----

  /** The length field in front of a `len`-byte payload; a VLV field takes `n` bytes. */
  function LengthField(framing: Framing, len: nat, n: nat): (r: seq<byte>)
    requires n >= 1
    ensures framing.FixedPrefix? ==> |r| == framing.width
    ensures framing.VlvPrefix? ==> |r| == n && IsVlv(r)
  {
    match framing
    case FixedPrefix(w) => ToBigEndian(len, w)
    case VlvPrefix => EncodeVlv(len, n)
  }

  /** `len` fits the field: below 256^w for a fixed width, below 128^n in n VLV bytes. */
  predicate Fits(framing: Framing, len: nat, n: nat)
  {
    n >= 1 && (match framing
      case FixedPrefix(w) => len < Pow(256, w)
      case VlvPrefix => len < Pow(128, n))
  }

  /** A meta event body as a writer lays it out: length field, payload, then whatever follows. */
  function Framed(framing: Framing, n: nat, payload: seq<byte>, rest: seq<byte>): Cursor
    requires n >= 1
  {
    Stream(LengthField(framing, |payload|, n) + payload + rest, 0)
  }

  /** The same input, positioned just after the payload. */
  function After(framing: Framing, n: nat, payload: seq<byte>, rest: seq<byte>): Cursor
    requires n >= 1
  {
    var field := LengthField(framing, |payload|, n);
    Stream(field + payload + rest, |field| + |payload|)
  }

  /** Reading a length field returns the length it was written from, and stops right after it. */
  lemma ReadLengthField(framing: Framing, len: nat, n: nat, rest: seq<byte>)
    requires Fits(framing, len, n)
    ensures var field := LengthField(framing, len, n);
      ReadLength(Stream(field + rest, 0), framing) == Ok((len, Stream(field + rest, |field|)))
  {
    var field := LengthField(framing, len, n);
    assert (field + rest)[0..|field|] == field;
    match framing
    case FixedPrefix(w) =>
      BigEndianOfEncoding(len, w);
    case VlvPrefix =>
      RoundTrip(len, n, rest);
  }

  /** Once the length reads as the decoder's size, the payload is the next `size` bytes. */
  lemma PayloadAfterLength(s: Cursor, framing: Framing, size: nat, s1: Cursor)
    requires ReadLength(s, framing) == Ok((size, s1))
    ensures FixedPayload(s, framing, size) == Ok(Read(s1, size))
  {
  }

  /** Reading `|payload|` bytes in front of `rest` yields the payload. */
  lemma ReadWritten(field: seq<byte>, payload: seq<byte>, rest: seq<byte>)
    ensures Read(Stream(field + payload + rest, |field|), |payload|)
      == (payload, Stream(field + payload + rest, |field| + |payload|))
  {
    var data := field + payload + rest;
    assert data[|field|..|field| + |payload|] == payload;
  }

  /** The payload read after a length field is the payload that was written. */
  lemma PayloadRoundTrip(framing: Framing, n: nat, payload: seq<byte>, rest: seq<byte>)
    requires Fits(framing, |payload|, n)
    ensures FixedPayload(Framed(framing, n, payload, rest), framing, |payload|)
      == Ok((payload, After(framing, n, payload, rest)))
  {
    var field := LengthField(framing, |payload|, n);
    var data := field + payload + rest;
    var s, s1, s2 := Stream(data, 0), Stream(data, |field|), Stream(data, |field| + |payload|);
    assert data == field + (payload + rest);
    ReadLengthField(framing, |payload|, n, payload + rest);
    assert ReadLength(s, framing) == Ok((|payload|, s1));
    PayloadAfterLength(s, framing, |payload|, s1);
    ReadWritten(field, payload, rest);
    assert Read(s1, |payload|) == (payload, s2);
    assert Framed(framing, n, payload, rest) == s && After(framing, n, payload, rest) == s2;
  }

  /** A length field that says something other than the decoder's size is reported with its value. */
  lemma WrongLength(framing: Framing, len: nat, n: nat, size: nat, rest: seq<byte>)
    requires Fits(framing, len, n) && len != size
    ensures FixedPayload(Stream(LengthField(framing, len, n) + rest, 0), framing, size) == Err(EventLengthError(len))
  {
    ReadLengthField(framing, len, n, rest);
  }

  /**
   A one-byte fixed field and a VLV agree on every length below 128, which
   is why the time and key signature decoders read real files correctly.
   */
  lemma OneByteFieldIsShortVlv(s: Cursor)
    requires s.pos < |s.data| && s.data[s.pos] < 128
    ensures ReadLength(s, FixedPrefix(1)) == ReadLength(s, VlvPrefix)
    ensures ReadLength(s, VlvPrefix) == Ok((s.data[s.pos], Stream(s.data, s.pos + 1)))
  {
    var b := s.data[s.pos];
    assert Min(1, Remaining(s)) == 1;
    assert s.data[s.pos..s.pos + 1] == [b];
    assert [b][..0] == [];
    assert BigEndian([b]) == b;
    DecodesPrefix(s, [b]);
  }

  // ---- Each decoder inverts the writer's layout ----

  lemma SequenceNumberRoundTrip(framing: Framing, n: nat, number: nat, rest: seq<byte>)
    requires Fits(framing, 2, n) && number < 0x10000
    ensures var payload := ToBigEndian(number, 2);
      SequenceNumber(Framed(framing, n, payload, rest), framing)
        == Ok((SequenceNumberData(2, number, payload), After(framing, n, payload, rest)))
  {
    PayloadRoundTrip(framing, n, ToBigEndian(number, 2), rest);
    assert Pow(256, 2) == 0x10000;
    BigEndianOfEncoding(number, 2);
  }

  lemma ChannelPrefixRoundTrip(framing: Framing, n: nat, channel: byte, rest: seq<byte>)
    requires Fits(framing, 1, n)
    ensures ChannelPrefix(Framed(framing, n, [channel], rest), framing)
      == Ok((ChannelPrefixData(1, channel, [channel]), After(framing, n, [channel], rest)))
  {
    PayloadRoundTrip(framing, n, [channel], rest);
    assert [channel][..0] == [];
  }

  lemma EndOfTrackRoundTrip(framing: Framing, n: nat, rest: seq<byte>)
    requires Fits(framing, 0, n)
    ensures EndOfTrackEvent(Framed(framing, n, [], rest), framing)
      == Ok((EndOfTrackData(0), After(framing, n, [], rest)))
  {
    PayloadRoundTrip(framing, n, [], rest);
  }

  lemma SetTempoRoundTrip(framing: Framing, n: nat, tpqm: nat, rest: seq<byte>)
    requires Fits(framing, 3, n) && tpqm < 0x1000000
    ensures var payload := ToBigEndian(tpqm, 3);
      SetTempo(Framed(framing, n, payload, rest), framing)
        == Ok((SetTempoData(3, tpqm, payload), After(framing, n, payload, rest)))
  {
    PayloadRoundTrip(framing, n, ToBigEndian(tpqm, 3), rest);
    assert Pow(256, 3) == 0x1000000;
    BigEndianOfEncoding(tpqm, 3);
  }

  lemma TimeSignatureRoundTrip(framing: Framing, n: nat, numerator: byte, denominator: byte,
      clocks: byte, notes: byte, rest: seq<byte>)
    requires Fits(framing, 4, n)
    ensures var payload := [numerator, denominator, clocks, notes];
      TimeSignature(Framed(framing, n, payload, rest), framing)
        == Ok((TimeSignatureData(4, numerator, denominator, clocks, notes, payload), After(framing, n, payload, rest)))
  {
    PayloadRoundTrip(framing, n, [numerator, denominator, clocks, notes], rest);
  }

  /** The corrected key signature decoder returns the signed index that was written. */
  lemma KeySignatureRoundTrip(framing: Framing, n: nat, index: int, mode: byte, rest: seq<byte>)
    requires Fits(framing, 2, n) && -128 <= index < 128
    ensures var payload := [index % 256, mode];
      KeySignatureCorrected(Framed(framing, n, payload, rest), framing)
        == Ok((KeySignatureData(2, index, mode, payload), After(framing, n, payload, rest)))
  {
    var payload := [index % 256, mode];
    SignedResidue(index);
    PayloadRoundTrip(framing, n, payload, rest);
    var s, s' := Framed(framing, n, payload, rest), After(framing, n, payload, rest);
    assert FixedPayload(s, framing, 2) == Ok((payload, s'));
    assert Signed(payload[0]) == index;
  }

  /** Reading back the byte a signed index is stored as gives the index. */
  lemma SignedResidue(index: int)
    requires -128 <= index < 128
    ensures 0 <= index % 256 < 256 && Signed(index % 256) == index
  {
    if index < 0 {
      assert index % 256 == index + 256;
    }
  }

  /** The corrected SMPTE decoder returns the fields that were written, the hours without their rate bits. */
  lemma SmpteOffsetRoundTrip(framing: Framing, n: nat, hours: byte, minutes: byte, seconds: byte,
      frames: byte, fraction: byte, rest: seq<byte>)
    requires Fits(framing, 5, n)
    requires hours < 128 && minutes < 64 && seconds < 64 && frames < 32
    ensures var payload := [hours, minutes, seconds, frames, fraction];
      SmpteOffsetCorrected(Framed(framing, n, payload, rest), framing)
        == Ok((SmpteOffsetData(5, SmpteFields(hours % 32, minutes, seconds, frames, fraction), payload),
          After(framing, n, payload, rest)))
  {
    var payload := [hours, minutes, seconds, frames, fraction];
    PayloadRoundTrip(framing, n, payload, rest);
    ReservedMasks(hours, minutes, seconds, frames);
    ReservedFields(hours, minutes, seconds, frames);
  }

  /** The corrected SMPTE decoder rejects a payload with any reserved bit set. */
  lemma SmpteReservedRejected(framing: Framing, n: nat, payload: seq<byte>, rest: seq<byte>)
    requires Fits(framing, 5, n) && |payload| == 5 && !ReservedClear(payload)
    ensures SmpteOffsetCorrected(Framed(framing, n, payload, rest), framing) == Err(ReservedBitsSet)
  {
    PayloadRoundTrip(framing, n, payload, rest);
    ReservedMasks(payload[0], payload[1], payload[2], payload[3]);
  }

  /** A text event returns the ASCII text that was written, whichever VLV width carries its length. */
  lemma TextRoundTrip(n: nat, raw: seq<byte>, rest: seq<byte>)
    requires Fits(VlvPrefix, |raw|, n) && IsAscii(raw)
    ensures Text(Framed(VlvPrefix, n, raw, rest))
      == Ok((TextData(|raw|, AsciiText(raw), raw), After(VlvPrefix, n, raw, rest)))
  {
    PayloadRoundTrip(VlvPrefix, n, raw, rest);
  }

  /** Text with a byte of 0x80 or above is refused. */
  lemma TextNotAscii(n: nat, raw: seq<byte>, rest: seq<byte>)
    requires Fits(VlvPrefix, |raw|, n) && !IsAscii(raw)
    ensures Text(Framed(VlvPrefix, n, raw, rest)) == Err(EventTextError)
  {
    PayloadRoundTrip(VlvPrefix, n, raw, rest);
  }

  // ---- The tables ----

  /** The meta types the source's table knows. */
  lemma MetaTableDomain(k: int)
    ensures k in MetaTable <==> (0 <= k <= 7 || k == 0x2F || k == 0x51 || k == 0x54 || k == 0x58 || k == 0x59)
    ensures 1 <= k <= 7 ==> MetaTable[k].objectType == TextRecord && MetaTable[k].decoder.TextDecoder?
  {
  }

  /** Both tables pair each decoder with a record class that takes its result. */
  lemma TablesWellPaired()
    ensures WellPaired(MetaTable) && WellPaired(CorrectedTable)
  {
    assert |KeyNames| == 15 && |KeyNamesCorrected| == 15;
  }

  /** A text meta type is decoded by the shared text decoder and kept with its header bytes. */
  lemma DispatchText(table: map<int, Entry>, k: int, eventInfo: seq<byte>, n: nat, raw: seq<byte>, rest: seq<byte>)
    requires table == MetaTable || table == CorrectedTable
    requires 1 <= k <= 7 && Fits(VlvPrefix, |raw|, n) && IsAscii(raw)
    ensures WellPaired(table) && Dispatch(table, k, eventInfo, Framed(VlvPrefix, n, raw, rest))
      == Ok((NewMetaText(eventInfo, k, TextData(|raw|, AsciiText(raw), raw)), After(VlvPrefix, n, raw, rest)))
  {
    TablesWellPaired();
    assert k in table && table[k].objectType == TextRecord && table[k].decoder.TextDecoder?;
    TextEntry(table, k, eventInfo, n, raw, rest);
  }

  /** Any table whose entry for k is a text entry: the event is the decoded text. */
  lemma TextEntry(table: map<int, Entry>, k: int, eventInfo: seq<byte>, n: nat, raw: seq<byte>, rest: seq<byte>)
    requires WellPaired(table) && k in table && table[k].objectType == TextRecord && table[k].decoder.TextDecoder?
    requires Fits(VlvPrefix, |raw|, n) && IsAscii(raw)
    ensures Dispatch(table, k, eventInfo, Framed(VlvPrefix, n, raw, rest))
      == Ok((NewMetaText(eventInfo, k, TextData(|raw|, AsciiText(raw), raw)), After(VlvPrefix, n, raw, rest)))
  {
    var p := TextData(|raw|, AsciiText(raw), raw);
    TextRoundTrip(n, raw, rest);
    DispatchOf(table, k, eventInfo, Framed(VlvPrefix, n, raw, rest), table[k], p, After(VlvPrefix, n, raw, rest));
  }

  /** Dispatch through a known entry: its decoder's result, built into its record. */
  lemma DispatchOf(table: map<int, Entry>, k: int, eventInfo: seq<byte>, s: Cursor, e: Entry, p: Payload, s': Cursor)
    requires WellPaired(table) && k in table && table[k] == e
    requires Run(e.decoder, s) == Ok((p, s'))
    ensures Accepts(e.objectType, p)
    ensures Dispatch(table, k, eventInfo, s) == (match Build(e.objectType, eventInfo, k, p)
      case Ok(event) => Ok((event, s'))
      case Err(error) => Err(error))
  {
  }

  // ---- The source's defects, next to the corrections ----

  /**
   The source files 0x2F, the end-of-track type, under the channel prefix
   decoder: the end of every track (length byte 0) is refused, and no
   entry of the table decodes an end of track at all.
   */
  lemma EndOfTrackMisrouted(eventInfo: seq<byte>)
    ensures WellPaired(MetaTable) && Dispatch(MetaTable, 0x2F, eventInfo, Stream([0x00], 0)) == Err(EventLengthError(0))
    ensures forall k :: k in MetaTable ==> !MetaTable[k].decoder.EndOfTrackDecoder?
  {
    TablesWellPaired();
    MisroutedBytes();
    DispatchFails(MetaTable, 0x2F, eventInfo, Stream([0x00], 0), EventLengthError(0));
    NoEndOfTrackEntry();
  }

  /**
   Inside a track the misrouting reads the next chunk's tag as length:
   after the end-of-track length byte 0 come "MTrk"'s first three bytes,
   and the four bytes 00 4D 54 72 are the length the source reports.
   */
  lemma EndOfTrackBeforeChunk(eventInfo: seq<byte>)
    ensures WellPaired(MetaTable)
      && Dispatch(MetaTable, 0x2F, eventInfo, Stream([0x00, 0x4D, 0x54, 0x72, 0x6B], 0)) == Err(EventLengthError(0x4D5472))
  {
    TablesWellPaired();
    var data: seq<byte> := [0x00, 0x4D, 0x54, 0x72, 0x6B];
    assert ToBigEndian(0x4D5472, 4) == data[..4];
    assert Pow(256, 4) == 0x1_0000_0000;
    WrongLength(FixedPrefix(4), 0x4D5472, 1, 1, [0x6B]);
    assert LengthField(FixedPrefix(4), 0x4D5472, 1) + [0x6B] == data;
    assert MetaTable[0x2F].decoder == ChannelPrefixDecoder(FixedPrefix(4));
    DispatchFails(MetaTable, 0x2F, eventInfo, Stream(data, 0), EventLengthError(0x4D5472));
  }

  /** Through the channel prefix decoder a lone zero length byte is a wrong length. */
  lemma MisroutedBytes()
    ensures 0x2F in MetaTable && MetaTable[0x2F].decoder == ChannelPrefixDecoder(FixedPrefix(4))
    ensures Run(ChannelPrefixDecoder(FixedPrefix(4)), Stream([0x00], 0)) == Err(EventLengthError(0))
  {
    assert [0x00][..0] == [];
    assert BigEndian([0x00]) == 0;
  }

  lemma NoEndOfTrackEntry()
    ensures forall k :: k in MetaTable ==> !MetaTable[k].decoder.EndOfTrackDecoder?
  {
  }

  /** Dispatch through an entry whose decoder fails reports the decoder's error. */
  lemma DispatchFails(table: map<int, Entry>, k: int, eventInfo: seq<byte>, s: Cursor, error: Error)
    requires WellPaired(table) && k in table && Run(table[k].decoder, s) == Err(error)
    ensures Dispatch(table, k, eventInfo, s) == Err(error)
  {
  }

  /** With 0x2F routed to the end-of-track decoder the same bytes end the track. */
  lemma EndOfTrackRouted(eventInfo: seq<byte>)
    ensures WellPaired(CorrectedTable) && Dispatch(CorrectedTable, 0x2F, eventInfo, Stream([0x00], 0))
      == Ok((EndOfTrack(0), Stream([0x00], 1)))
  {
    TablesWellPaired();
    TableEntries();
    EndOfTrackBytes();
    DispatchOf(CorrectedTable, 0x2F, eventInfo, Stream([0x00], 0), Entry(EndOfTrackDecoder(VlvPrefix), EndOfTrackRecord),
      EndOfTrackData(0), Stream([0x00], 1));
  }

  /** The entries the examples below go through. */
  lemma TableEntries()
    ensures 0x2F in CorrectedTable && CorrectedTable[0x2F] == Entry(EndOfTrackDecoder(VlvPrefix), EndOfTrackRecord)
    ensures 0x59 in MetaTable && MetaTable[0x59] == Entry(KeySignatureDecoder(FixedPrefix(1)), KeySignatureRecord(KeyNames))
    ensures 0x59 in CorrectedTable
      && CorrectedTable[0x59] == Entry(KeySignatureCorrectedDecoder(VlvPrefix), KeySignatureRecord(KeyNamesCorrected))
  {
  }

  /** A lone zero length byte is an end of track with no payload. */
  lemma EndOfTrackBytes()
    ensures Run(EndOfTrackDecoder(VlvPrefix), Stream([0x00], 0)) == Ok((EndOfTrackData(0), Stream([0x00], 1)))
  {
    assert [0x00][..0] == [];
  }

  /**
   A set-tempo event of 500000 microseconds as a file stores it: the source
   reads the length byte and the three payload bytes as one four-byte length.
   */
  lemma TempoFraming()
    ensures SetTempo(Stream([0x03, 0x07, 0xA1, 0x20], 0), FixedPrefix(4)) == Err(EventLengthError(0x0307A120))
    ensures SetTempo(Stream([0x03, 0x07, 0xA1, 0x20], 0), VlvPrefix)
      == Ok((SetTempoData(3, 500000, [0x07, 0xA1, 0x20]), Stream([0x03, 0x07, 0xA1, 0x20], 4)))
  {
    TempoFixedWidth();
    TempoVlv();
  }

  /** The four bytes read as one big-endian length. */
  lemma TempoFixedWidth()
    ensures SetTempo(Stream([0x03, 0x07, 0xA1, 0x20], 0), FixedPrefix(4)) == Err(EventLengthError(0x0307A120))
  {
    var data: seq<byte> := [0x03, 0x07, 0xA1, 0x20];
    assert ToBigEndian(0x0307A120, 4) == data;
    assert Pow(256, 4) == 0x1_0000_0000;
    WrongLength(FixedPrefix(4), 0x0307A120, 1, 3, []);
    assert LengthField(FixedPrefix(4), 0x0307A120, 1) + [] == data;
  }

  /** The first byte read as a VLV length of 3, then the three payload bytes. */
  lemma TempoVlv()
    ensures SetTempo(Stream([0x03, 0x07, 0xA1, 0x20], 0), VlvPrefix)
      == Ok((SetTempoData(3, 500000, [0x07, 0xA1, 0x20]), Stream([0x03, 0x07, 0xA1, 0x20], 4)))
  {
    var payload: seq<byte> := [0x07, 0xA1, 0x20];
    assert ToBigEndian(500000, 3) == payload;
    SetTempoRoundTrip(VlvPrefix, 1, 500000, []);
    assert LengthField(VlvPrefix, 3, 1) == [0x03];
    assert [0x03] + payload + [] == [0x03, 0x07, 0xA1, 0x20];
  }

  /**
   A key signature of seven flats (index byte 0xF9): the source reads the
   byte unsigned, as 249, and rejects it.
   */
  lemma SevenFlatsRefused(eventInfo: seq<byte>)
    ensures WellPaired(MetaTable) && Dispatch(MetaTable, 0x59, eventInfo, Stream([0x02, 0xF9, 0x00], 0))
      == Err(KeySignatureOutOfRange(249))
  {
    TablesWellPaired();
    TableEntries();
    UnsignedKeyEntry(MetaTable, eventInfo);
  }

  /** Any table whose key signature entry is the source's: the seven-flats bytes are refused. */
  lemma UnsignedKeyEntry(table: map<int, Entry>, eventInfo: seq<byte>)
    requires WellPaired(table) && 0x59 in table
    requires table[0x59] == Entry(KeySignatureDecoder(FixedPrefix(1)), KeySignatureRecord(KeyNames))
    ensures Dispatch(table, 0x59, eventInfo, Stream([0x02, 0xF9, 0x00], 0)) == Err(KeySignatureOutOfRange(249))
  {
    var s := Stream([0x02, 0xF9, 0x00], 0);
    SevenFlatsUnsigned();
    DispatchOf(table, 0x59, eventInfo, s, table[0x59], KeySignatureData(2, 249, 0, [0xF9, 0x00]), Stream(s.data, 3));
  }

  /** The corrected table reads the same bytes as seven flats, named Cb. */
  lemma SevenFlatsNamed(eventInfo: seq<byte>)
    ensures WellPaired(CorrectedTable) && Dispatch(CorrectedTable, 0x59, eventInfo, Stream([0x02, 0xF9, 0x00], 0))
      == Ok((MetaKeySignature(2, -7, "Cb", [0xF9, 0x00]), Stream([0x02, 0xF9, 0x00], 3)))
  {
    TablesWellPaired();
    TableEntries();
    SignedKeyEntry(CorrectedTable, eventInfo);
  }

  /** Any table whose key signature entry is the corrected one: the seven-flats bytes name Cb. */
  lemma SignedKeyEntry(table: map<int, Entry>, eventInfo: seq<byte>)
    requires WellPaired(table) && 0x59 in table
    requires table[0x59] == Entry(KeySignatureCorrectedDecoder(VlvPrefix), KeySignatureRecord(KeyNamesCorrected))
    ensures Dispatch(table, 0x59, eventInfo, Stream([0x02, 0xF9, 0x00], 0))
      == Ok((MetaKeySignature(2, -7, "Cb", [0xF9, 0x00]), Stream([0x02, 0xF9, 0x00], 3)))
  {
    var s := Stream([0x02, 0xF9, 0x00], 0);
    SevenFlatsSigned();
    DispatchKey(table, eventInfo, s, KeySignatureCorrectedDecoder(VlvPrefix), KeyNamesCorrected,
      -7, 0, [0xF9, 0x00], Stream(s.data, 3));
    assert KeyNamesCorrected[0] == "Cb";
  }

  /** Dispatch of a key signature whose decoded index is in range: the record named from the entry's table. */
  lemma DispatchKey(table: map<int, Entry>, eventInfo: seq<byte>, s: Cursor, d: Decoder, names: seq<string>,
      index: int, mode: byte, raw: seq<byte>, s': Cursor)
    requires WellPaired(table) && 0x59 in table && table[0x59] == Entry(d, KeySignatureRecord(names))
    requires Run(d, s) == Ok((KeySignatureData(2, index, mode, raw), s')) && -7 <= index <= 7
    ensures |names| == 15
    ensures Dispatch(table, 0x59, eventInfo, s) == Ok((MetaKeySignature(2, index, names[index + 7], raw), s'))
  {
    DispatchOf(table, 0x59, eventInfo, s, table[0x59], KeySignatureData(2, index, mode, raw), s');
  }

  /** The as-written decoder on the seven-flats bytes. */
  lemma SevenFlatsUnsigned()
    ensures KeySignature(Stream([0x02, 0xF9, 0x00], 0), FixedPrefix(1))
      == Ok((KeySignatureData(2, 249, 0, [0xF9, 0x00]), Stream([0x02, 0xF9, 0x00], 3)))
  {
    var payload: seq<byte> := [0xF9, 0x00];
    var data: seq<byte> := [0x02, 0xF9, 0x00];
    assert LengthField(FixedPrefix(1), 2, 1) == [0x02];
    assert [0x02] + payload + [] == data;
    PayloadRoundTrip(FixedPrefix(1), 1, payload, []);
    assert Framed(FixedPrefix(1), 1, payload, []) == Stream(data, 0);
    assert After(FixedPrefix(1), 1, payload, []) == Stream(data, 3);
    assert FixedPayload(Stream(data, 0), FixedPrefix(1), 2) == Ok((payload, Stream(data, 3)));
  }

  /** The signed decoder on the seven-flats bytes. */
  lemma SevenFlatsSigned()
    ensures KeySignatureCorrected(Stream([0x02, 0xF9, 0x00], 0), VlvPrefix)
      == Ok((KeySignatureData(2, -7, 0, [0xF9, 0x00]), Stream([0x02, 0xF9, 0x00], 3)))
  {
    var payload: seq<byte> := [0xF9, 0x00];
    var data: seq<byte> := [0x02, 0xF9, 0x00];
    assert -7 % 256 == 0xF9;
    assert LengthField(VlvPrefix, 2, 1) == [0x02];
    assert [0x02] + payload + [] == data;
    KeySignatureRoundTrip(VlvPrefix, 1, -7, 0x00, []);
    assert Framed(VlvPrefix, 1, payload, []) == Stream(data, 0);
    assert After(VlvPrefix, 1, payload, []) == Stream(data, 3);
  }

  /** Whatever the input, the source's table never yields a key with flats. */
  lemma NoFlatsAsWritten(eventInfo: seq<byte>, s: Cursor)
    ensures WellPaired(MetaTable) && var r := Dispatch(MetaTable, 0x59, eventInfo, s);
      (r.Ok? ==> r.value.0.MetaKeySignature? && 0 <= r.value.0.signatureIndex <= 7)
  {
    TablesWellPaired();
  }

  /**
   The as-written SMPTE decoder tests only the frame byte's reserved bits,
   because the accumulated flag is overwritten before the test: an hours
   byte with its top bit set goes through, and the corrected decoder
   refuses it. The whole decoder, fed a payload with every field padded to
   the eight bytes it reads, accepts that hours byte and keeps only its low
   five bits.
   */
  lemma ReservedBitsOverwritten(s': Cursor)
    ensures SmpteFinish([0x80, 0, 0, 0, 0], s').Ok?
    ensures var data := PaddedSmpte(0x80, 0, 0, 0, 0, []);
      SmpteOffset(Stream(data, 0), FixedPrefix(4))
        == Ok((SmpteOffsetData(5, SmpteFields(0, 0, 0, 0, 0), [0x80, 0, 0, 0, 0]), Stream(data, 44)))
    ensures !ReservedClear([0x80, 0, 0, 0, 0])
    ensures SmpteOffsetCorrected(Framed(VlvPrefix, 1, [0x80, 0, 0, 0, 0], []), VlvPrefix) == Err(ReservedBitsSet)
  {
    SmpteReservedRejected(VlvPrefix, 1, [0x80, 0, 0, 0, 0], []);
    PaddedSmpteAccepted(0x80, 0, 0, 0, 0, []);
  }

  /**
   The as-written SMPTE decoder reads each field as eight bytes: the five
   bytes a file stores (with nonzero hours) make the first value too large
   for a byte, and appending it fails.
   */
  lemma CompactSmpteRefused(hours: byte, minutes: byte, seconds: byte, frames: byte, fraction: byte, rest: seq<byte>)
    requires hours >= 1 && |rest| >= 3
    ensures var data := [0, 0, 0, 5, hours, minutes, seconds, frames, fraction] + rest;
      SmpteOffset(Stream(data, 0), FixedPrefix(4)) == Err(ByteOutOfRange(BigEndian(data[4..12])))
  {
    var data := [0, 0, 0, 5, hours, minutes, seconds, frames, fraction] + rest;
    assert data[..4] == [0, 0, 0, 5] && data[4] == hours;
    WideHoursRefused(data);
  }

  /** Any input whose four-byte length says 5 and whose next byte is nonzero. */
  lemma WideHoursRefused(data: seq<byte>)
    requires |data| >= 12 && data[..4] == [0, 0, 0, 5] && data[4] >= 1
    ensures SmpteOffset(Stream(data, 0), FixedPrefix(4)) == Err(ByteOutOfRange(BigEndian(data[4..12])))
  {
    var s, s1 := Stream(data, 0), Stream(data, 4);
    assert ToBigEndian(5, 4) == data[..4];
    ReadLengthField(FixedPrefix(4), 5, 1, data[4..]);
    assert data[..4] + data[4..] == data;
    assert ReadLength(s, FixedPrefix(4)) == Ok((5, s1));
    var hourField := data[4..12];
    var head := ReadBigEndian(s1, 8);
    assert head.0 == BigEndian(hourField);
    assert BigEndian(hourField) >= 256 by {
      BigEndianLead(hourField);
      PowMono(1, 7);
    }
    SmpteHeadTooWide(s, FixedPrefix(4), head.0, head.1);
  }

  /** An hours read too large for a byte is the value the append refuses. */
  lemma SmpteHeadTooWide(s: Cursor, framing: Framing, hourBits: nat, s2: Cursor)
    requires SmpteHead(s, framing) == Ok((hourBits, s2)) && hourBits >= 256
    ensures SmpteOffset(s, framing) == Err(ByteOutOfRange(hourBits))
  {
  }

  /** What the as-written SMPTE decoder does accept: each field padded to eight bytes. */
  function Padded(v: byte): (r: seq<byte>)
    ensures |r| == 8 && BigEndian(r) == v
  {
    assert Pow(256, 8) == 0x1_0000_0000_0000_0000;
    BigEndianOfEncoding(v, 8);
    ToBigEndian(v, 8)
  }

  /** An eight-byte read of a padded field returns the field and leaves what follows it. */
  lemma ReadPadded(s: Cursor, v: byte, after: seq<byte>)
    requires s.data[s.pos..] == Padded(v) + after
    ensures ReadBigEndian(s, 8) == (v, Stream(s.data, s.pos + 8))
    ensures s.data[s.pos + 8..] == after
  {
    assert s.data[s.pos..s.pos + 8] == (Padded(v) + after)[..8];
  }

  /** The padded layout the as-written decoder expects: a four-byte length 5, then five eight-byte fields. */
  function PaddedSmpte(hours: byte, minutes: byte, seconds: byte, frames: byte, fraction: byte, rest: seq<byte>): seq<byte>
  {
    [0, 0, 0, 5] + (Padded(hours) + (Padded(minutes) + (Padded(seconds) + (Padded(frames) + (Padded(fraction) + rest)))))
  }

  /** `smpte_offset` in terms of its five reads, once they are known to return bytes. */
  lemma SmpteSteps(s: Cursor, framing: Framing, h: byte, m: byte, sec: byte, f: byte, ff: byte,
      s1: Cursor, s2: Cursor, s3: Cursor, s4: Cursor, s5: Cursor)
    requires SmpteHead(s, framing) == Ok((h, s1))
    requires ReadBigEndian(s1, 8) == (m, s2) && ReadBigEndian(s2, 8) == (sec, s3)
    requires ReadBigEndian(s3, 8) == (f, s4) && ReadBigEndian(s4, 8) == (ff, s5)
    ensures SmpteOffset(s, framing) == SmpteFinish([h, m, sec, f, ff], s5)
  {
    AppendBytes(h, m, sec, f, ff);
  }

  /** Five bytes append without complaint. */
  lemma AppendBytes(h: byte, m: byte, sec: byte, f: byte, ff: byte)
    ensures AppendAll([h, m, sec, f, ff]) == Ok([h, m, sec, f, ff])
  {
    var v: seq<nat> := [h, m, sec, f, ff];
    assert v[0] < 256 && v[1] < 256 && v[2] < 256 && v[3] < 256 && v[4] < 256;
    assert forall i :: 0 <= i < |v| ==> v[i] < 256;
  }

  lemma PaddedSmpteAccepted(hours: byte, minutes: byte, seconds: byte, frames: byte, fraction: byte, rest: seq<byte>)
    requires frames < 32
    ensures var data := PaddedSmpte(hours, minutes, seconds, frames, fraction, rest);
      SmpteOffset(Stream(data, 0), FixedPrefix(4)) == Ok((SmpteOffsetData(5,
        SmpteFields(hours % 32, minutes % 64, seconds % 64, frames, fraction),
        [hours, minutes, seconds, frames, fraction]), Stream(data, 44)))
  {
    var data := PaddedSmpte(hours, minutes, seconds, frames, fraction, rest);
    PaddedReads(hours, minutes, seconds, frames, fraction, rest);
    SmpteSteps(Stream(data, 0), FixedPrefix(4), hours, minutes, seconds, frames, fraction,
      Stream(data, 12), Stream(data, 20), Stream(data, 28), Stream(data, 36), Stream(data, 44));
  }

  /** The length and the five eight-byte reads of the padded layout. */
  lemma PaddedReads(hours: byte, minutes: byte, seconds: byte, frames: byte, fraction: byte, rest: seq<byte>)
    ensures var data := PaddedSmpte(hours, minutes, seconds, frames, fraction, rest);
      && SmpteHead(Stream(data, 0), FixedPrefix(4)) == Ok((hours, Stream(data, 12)))
      && ReadBigEndian(Stream(data, 12), 8) == (minutes, Stream(data, 20))
      && ReadBigEndian(Stream(data, 20), 8) == (seconds, Stream(data, 28))
      && ReadBigEndian(Stream(data, 28), 8) == (frames, Stream(data, 36))
      && ReadBigEndian(Stream(data, 36), 8) == (fraction, Stream(data, 44))
  {
    var t4 := Padded(fraction) + rest;
    var t3 := Padded(frames) + t4;
    var t2 := Padded(seconds) + t3;
    var t1 := Padded(minutes) + t2;
    var t0 := Padded(hours) + t1;
    var field: seq<byte> := [0, 0, 0, 5];
    var data := PaddedSmpte(hours, minutes, seconds, frames, fraction, rest);
    assert data == field + t0;
    assert ToBigEndian(5, 4) == field;
    ReadLengthField(FixedPrefix(4), 5, 1, t0);
    assert data[4..] == t0;
    ReadPadded(Stream(data, 4), hours, t1);
    ReadPadded(Stream(data, 12), minutes, t2);
    ReadPadded(Stream(data, 20), seconds, t3);
    ReadPadded(Stream(data, 28), frames, t4);
    ReadPadded(Stream(data, 36), fraction, rest);
  }

  // ---- Key names ----

  /**
   The corrected key names follow the circle of fifths: the major key with
   i sharps (or -i flats) lies 7i semitones above C.
   */
  lemma CircleOfFifths(i: int)
    requires -7 <= i <= 7
    ensures PitchClass(KeyNamesCorrected[i + 7]) == Some((7 * i) % 12)
  {
  }

  /** The source's table names six flats Fb, four semitones above C, where Gb (six above) belongs. */
  lemma SixFlatsMisnamed()
    ensures PitchClass(KeyNames[1]) == Some(4) && (7 * -6) % 12 == 6
    ensures forall i :: 0 <= i < 15 && i != 1 ==> KeyNames[i] == KeyNamesCorrected[i]
  {
  }

  /** `2 ** denominator` for the common denominators; a 4/4 bar stores 2. */
  lemma DenominatorExamples()
    ensures ActualDenominator(0) == 1 && ActualDenominator(2) == 4 && ActualDenominator(3) == 8
  {
  }
}
