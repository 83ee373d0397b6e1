# midisnake decoding core, in Dafny

A model of the decoding core of midisnake, a Python reader for Standard MIDI
Files. It covers four parts:

- the variable-length quantity (VLV) that carries delta times and meta event
  lengths;
- the `IntBuilder` byte-run converter;
- the four channel voice events (NoteOn, NoteOff, PolyphonicAftertouch,
  PitchBend), which are decoded from one 24-bit value;
- the meta event decoders, their records and the `meta_events` dispatch table.

Each decoder is a pure function from an immutable byte source (`Bytes.Cursor`:
the whole input plus a position) to a `Result`. Python's exceptions become
error values:

- an `IndexError` on a short read is `EndOfData`;
- `LengthException`, `LengthError`, `EventLengthError(n)` and `EventTextError`
  keep their names;
- each `ValueError` gets its own constructor: `NoteOutOfRange`, `MalformedHex`,
  `ByteOutOfRange`, `ReservedBitsSet` and `KeySignatureOutOfRange`;
- a `KeyError` in the table becomes `UnknownMetaType`.

`read(n)` is a short read at the end of the input, and
`int.from_bytes(b"", …)` is 0, as in Python. Bitwise `&` and `|` on
non-negative integers are written out as recursive functions (`Bits.And`,
`Bits.Or`), so the masks the source applies can be related to `%` and `/`.

Files:

| file | module | models |
|---|---|---|
| bits.dfy | Bits | bitwise and/or on naturals, and the mask facts the decoders use |
| bytes.dfy | Bytes | bytes, big and little-endian values, the cursor and `read(n)` |
| results.dfy | Results | the error kinds, `Result` and `Option` |
| structure.dfy | Structure | `VariableLengthValue`, `Header`, `Track`; the VLV encoder used to state round trips |
| integers.dfy | Integers | `IntBuilder` and `LengthException` |
| pitch.dfy | Pitch | an independent reading of note names as pitch classes |
| events.dfy | Events | note names, balance/pan, the controller table, the channel voice events |
| metaevents.dfy | MetaEvents | the meta event decoders, records and dispatch table |
| metafacts.dfy | MetaFacts | round trips of the meta decoders, table properties, and the defects next to their corrections |

Length framing: the source reads meta event lengths as fixed-width big-endian
fields. It uses four bytes for most types and one byte for the time and key
signatures. The Standard MIDI File format writes them as VLVs. Every non-text
meta decoder therefore takes its `Framing` as a parameter:

- `MetaEvents.MetaTable` binds the widths the source uses;
- `MetaEvents.CorrectedTable` binds the VLV framing and the corrected
  decoders.

Every round-trip lemma is stated for both framings.

## Model

| member | source | states |
|---|---|---|
| Structure.ReadVlv | midisnake/structure.py:91-118 | Fails with end of data exactly when no byte from the cursor on has its top bit clear. Otherwise it reads one complete encoding starting at the cursor: continuation bits on every byte but the last. `length` is the number of bytes read, `raw_data` those bytes, and `value` their base-128 number, below 128^length. The cursor ends just past the encoding. |
| Structure.FirstStep | midisnake/structure.py:104-110 | The first byte's `& 0x80` test is its top bit. A first byte below 128 is the whole value. Otherwise the loop starts from that byte's low seven bits. |
| Structure.ReadMore | midisnake/structure.py:111-118 | The `while True` loop, given the continued bytes read so far. It fails exactly when no terminator lies ahead; otherwise it completes the encoding that began before the cursor. |
| Structure.NextStep | midisnake/structure.py:112-118 | One pass of the loop body appends the byte's low seven bits as a new base-128 digit of the value. The byte ends the value exactly when its top bit is clear. |
| Structure.LoopStep | midisnake/structure.py:115-117 | Shifting the value left by seven and or-ing in `b & 0x7F` is appending one base-128 digit, and `b & 0x80 == 0` holds exactly for bytes below 128. |
| Structure.EncodeOfDecode | midisnake/structure.py:91-118 | Re-encoding a decoded value in as many bytes reproduces `raw_data` exactly. |
| Structure.DecodeOfEncode | midisnake/structure.py:108-118 | The n-byte encoding of a value below 128^n has that value. |
| Structure.PrefixFree | midisnake/structure.py:117-118 | No complete encoding is a proper prefix of another, so where the loop stops is determined by the input. |
| Structure.DecodedIsPrefix | midisnake/structure.py:91-118 | A successful decode at a cursor where a complete encoding starts has read exactly that encoding. |
| Structure.DecodesPrefix | midisnake/structure.py:91-118 | The decoder returns the complete encoding found at the cursor, its value, and the cursor after it. |
| Structure.RoundTrip | midisnake/structure.py:91-118 | Encode, then decode with anything after it: the value, its byte count and its bytes come back, and the cursor stops after them. |
| Structure.NoLengthCap | midisnake/structure.py:111-118 | No length limit is enforced: any number of continuation bytes followed by a terminator decodes. |
| Structure.TwoByteVector | tests/test_vlv.py:38-43 | 0x84 0x18 decodes to 536 in two bytes and leaves 0x00 0x3C unread. |
| Structure.ZeroVector | tests/test_vlv.py:45-51 | 0x00 decodes to 0 in one byte; at the end of input the decoder fails. |
| Structure.SixtyVector | tests/test_vlv.py:53-59 | 0x3C decodes to 60 in one byte. |
| Bytes.Read | midisnake/meta_events.py:174 | `read(n)` returns min(n, remaining) bytes, namely the next ones, and advances by exactly that many. |
| Bytes.LittleIsReversedBig | midi/integers.py:52-53 | The little-endian value of a run is the big-endian value of the reversed run. |
| Bytes.BigEndianOfEncoding | midi/integers.py:52 | A value below 256^w written in w big-endian bytes reads back as itself. |
| Bytes.EncodingOfBigEndian | midi/integers.py:52 | A byte run's big-endian value, written in as many bytes, is the run. |
| Integers.Classify | midi/integers.py:38-49 | A bit-count classification. Zero bytes raise `LengthException`. More than eight bytes give no C type. Otherwise the result is the narrowest of uint8/16/32/64 that holds the run. |
| Integers.Build | midi/integers.py:33-53 | Fails exactly on the empty run. Otherwise it keeps the run and its length, classifies it as `Classify` does, and computes both readings. Each reading is below 256^length. The little-endian reading is the big-endian reading of the reversed run, and writing the big-endian reading back in as many bytes gives the run. |
| Integers.EmptyRun | tests/test_intbuilder.py:52-54 | The empty run raises `LengthException`. |
| Integers.TwoByteRun | tests/test_intbuilder.py:56-70 | 0x01 0xA4: uint16, big-endian 420, little-endian 41985. |
| Integers.SingleByte | tests/test_intbuilder.py:71-84 | Any single byte: uint8, the same value both ways. |
| Integers.FourByteRun | tests/test_intbuilder.py:99-112 | Four 0xFF bytes: uint32, 4294967295 both ways. |
| Integers.WideRun | tests/test_intbuilder.py:113-127 | A run of more than eight bytes has no C type, yet both readings are still computed. |
| Events.NoteValuesClasses | midisnake/events.py:25-38 | Entry k of `note_values` names pitch class k, for every k in 0..11. |
| Events.NoteName | midisnake/events.py:138-159 | Succeeds exactly for 0..127, raising with the value otherwise. The name denotes the note's pitch class, note mod 12. |
| Events.NoteNameIs | midisnake/events.py:156-159 | The name of a note in range is the table entry for note mod 12. Both branches of the source agree. |
| Events.NoteNamesRepeatByOctave | midisnake/events.py:138-159 | Two notes in range share a name exactly when they are a whole number of octaves apart. |
| Events.LeftRight | midisnake/events.py:41-49 | "left" exactly below 64, "center" exactly at 64, "right" exactly above 64. The `ValueError` branch is unreachable. |
| Events.LeftRightUnchecked | midisnake/events.py:41-49 | Nothing rejects values outside 0..127: 200 reads "right" and -1 reads "left". |
| Events.ControlsTable | midisnake/events.py:52-135 | Controllers 0x00..0x13 are listed and no others. All are big-endian, and only Balance (0x08) and Pan (0x0A) decode their value. |
| Events.FromHex | midisnake/events.py:190 | `bytearray.fromhex(hex(data)[2:])` fails for a negative value or an odd digit count. Otherwise it gives the bytes, two digits each, whose big-endian value is `data`. |
| Events.FromHexOfBytes | midisnake/events.py:190 | Bytes whose leading byte is at least 0x10 come back unchanged through `hex` and `fromhex`. |
| Events.ThreeByteHex | midisnake/events.py:190 | A six-digit value decodes to exactly its status byte and two data bytes. |
| Events.Split24 | midisnake/events.py:190-194 | A 24-bit value is its status byte and two data bytes, most significant first. |
| Events.IndicatorsDistinct | midisnake/events.py:178-281 | The four `indicator_byte` constants are distinct status nibbles of the channel voice range. |
| Events.BendAsWritten | midisnake/events.py:292 | `(msb << 7) & lsb` keeps at most one bit: 128 when lsb has its top bit set and msb is odd, else 0. |
| Events.Bend | midisnake/events.py:292 | The bitwise-or fold of `msb << 7` and `lsb`: for 7-bit data bytes it is the 14-bit value whose high seven bits are msb and low seven bits lsb. |
| Events.Process | midisnake/events.py:189-293 | The `_process` of each event class. A negative value fails in `bytearray.fromhex`, because its `hex` text starts with a minus sign, so the slice past `0x` starts with `x`. For a six-digit value it succeeds exactly when the event is a PitchBend or the note byte is at most 127, and fails otherwise with that note number. On success the event has its class, `raw_data`, and the channel as the status byte's low nibble. Note, name and velocity/pressure come from the data bytes, and the bend is the as-written fold. |
| Events.ProcessNote | midisnake/events.py:189-264 | A six-digit note message yields its channel, its note number, the table's name for note mod 12 and its third byte. |
| Events.ProcessBend | midisnake/events.py:289-293 | PitchBend `_process` with the bitwise-or fold. A six-digit value always succeeds with its channel and `raw_data`. For 7-bit data bytes the bend is below 0x4000, its high seven bits are the second data byte and its low seven bits the first. |
| Events.BendRoundTrip | midisnake/events.py:289-293 | A bend message written from a channel and a 14-bit value decodes back to both under the corrected fold. |
| Events.BendCentreKept | midisnake/events.py:289-293 | The centred bend 0xE00040 reads as 8192 under the corrected fold. |
| Events.PitchBendCentreLost | midisnake/events.py:292 | As written, the centred bend 0xE00040 reads as 0, while the corrected fold gives 8192 and the maximal bend gives 0x3FFF. |
| Events.ThreeBytesWide | tests/test_events.py:52-61 | A value takes exactly three bytes exactly when it lies in 0x10000..0xFFFFFF. |
| Events.ValidIsSixDigits | midisnake/events.py:190 | A three-byte value whose status nibble is a channel voice indicator prints as six hex digits, so `fromhex` succeeds on it. |
| Events.Construct | tests/test_events.py:39-61 | `LengthError` exactly when the value is not three bytes wide. A validation failure exactly when it is three bytes wide but the status nibble is not the class's indicator. Success exactly when both hold and, for note events, the note byte is at most 127. The result carries the message's fields. |
| Events.ValidNibble | tests/test_events.py:30-37 | `valid` compares the status byte's high nibble with the indicator's. |
| Events.ValidExamples | tests/test_events.py:30-37 | 0x900000 is a valid NoteOn; 0x800000 is not. |
| Events.NoClassForStatusTwo | midisnake/events.py:178-281 | A status byte with high nibble 2, as in 0x290011, is valid for none of NoteOn, NoteOff, PolyphonicAftertouch and PitchBend. |
| Events.ConstructIsProcess | midisnake/events.py:189-195 | A three-byte value with a matching status nibble is built by `_process` alone. |
| Events.ConstructNoteOnExample | tests/test_events.py:39-51 | `NoteOn(0x900000)`: channel 0, note 0 named "C", velocity 0, `raw_data` 9437184. |
| Events.ProcessNoteOnExample | tests/test_events.py:39-51 | `_process(0x900000)` gives the same fields. |
| Events.ConstructWidthExamples | tests/test_events.py:52-61 | 0x1 and 0x123001929391923919 raise `LengthError`. |
| MetaEvents.ReadLength | midisnake/meta_events.py:170-171 | Reading a length never fails with a fixed-width prefix and never moves the cursor back. |
| MetaEvents.FixedPayload | midisnake/meta_events.py:170-174 | Succeeds exactly when the length reads as the type's size. A different length is reported with its value, and a VLV length that runs off the end is end of data. On success the payload is what `read(size)` returns right after the length. |
| MetaEvents.SequenceNumber | midisnake/meta_events.py:169-176 | Length 2 or an `EventLengthError` carrying the length read. On success the number is the big-endian value of the bytes read (zero for none), below 0x10000, and writing it in as many bytes as were read gives those bytes. |
| MetaEvents.ChannelPrefix | midisnake/meta_events.py:256-264 | Length 1 or an `EventLengthError`. On success the prefix is the byte read, or 0 after an empty read. |
| MetaEvents.EndOfTrackEvent | midisnake/meta_events.py:267-272 | Length 0 or an `EventLengthError`. On success nothing past the length is consumed. |
| MetaEvents.SetTempo | midisnake/meta_events.py:275-283 | Length 3 or an `EventLengthError`. On success the tempo is the big-endian value of the bytes read (zero for none), below 2^24, and writing it in as many bytes as were read gives those bytes. |
| MetaEvents.TimeSignature | midisnake/meta_events.py:335-348 | Length 4 or an `EventLengthError`, then an index error unless four bytes follow. On success the four fields are the four bytes, in order. |
| MetaEvents.KeySignature | midisnake/meta_events.py:351-362 | Length 2 or an `EventLengthError`, then an index error unless two bytes follow. On success the index is the first byte read unsigned (0..255) and the mode is the second byte. |
| MetaEvents.Signed | midisnake/meta_events.py:359 | A byte read as two's complement is in -128..127 and congruent to the byte mod 256. |
| MetaEvents.KeySignatureCorrected | midisnake/meta_events.py:351-362 | The same length and size checks, with the index read as a signed byte. |
| MetaEvents.AppendAll | midisnake/meta_events.py:318-319 | Succeeds exactly when every value is a byte, and then gives those values. Otherwise it fails on the first value that is not a byte, with that value. |
| MetaEvents.SmpteOffset | midisnake/meta_events.py:286-332 | As written: length 5 or an `EventLengthError`. On success the five raw values are bytes and the frame byte's top three bits are clear. Hours are masked to five bits, minutes and seconds to six, and the frame count to five. |
| MetaEvents.SmpteHead | midisnake/meta_events.py:287-294 | The length check and the eight-byte hours read succeed exactly when the length is 5. |
| MetaEvents.SmpteFinish | midisnake/meta_events.py:310-332 | Once the five values are bytes, the decoder refuses exactly when the frame byte's reserved bits are set, because the accumulator was overwritten. Otherwise it returns the masked fields. |
| MetaEvents.SmpteFieldMasks | midisnake/meta_events.py:295-313 | The field masks are remainders mod 32 and 64, and the frame mask `& 0xE0` is zero exactly below 32. |
| MetaEvents.SmpteOffsetCorrected | midisnake/meta_events.py:286-332 | Length 5 or an `EventLengthError`. Success exactly when five bytes follow and no reserved bit is set in any field. On success the fields are the bytes, with the hours reduced mod 32. |
| MetaEvents.ReservedMasks | midisnake/meta_events.py:295-312 | The or-ed reserved-bit masks of the four fields are zero exactly when every field is within its range. |
| MetaEvents.ReservedFields | midisnake/meta_events.py:298-313 | Within range, each field mask keeps the whole field, except the hours' rate bits. |
| MetaEvents.AsciiText | midisnake/meta_events.py:183 | `decode("ASCII")` maps each byte to the character with the same code. |
| MetaEvents.Text | midisnake/meta_events.py:179-253 | The seven text decoders. A VLV length, then that many bytes, or fewer when the input runs out. The result is an `EventTextError` exactly when a byte is 0x80 or above. On success the text is those bytes as characters. |
| MetaEvents.NewMetaText | midisnake/meta_events.py:55-62 | The text record counts the event header bytes in its length, keeps them in front of the payload in `raw_content`, and keeps the text and variant. |
| MetaEvents.NewKeySignature | midisnake/meta_events.py:84-93 | Fails exactly when the index is outside -7..7, with the index. Otherwise the record holds the index, the table's name at index + 7, the length and the raw bytes. |
| MetaEvents.Build | midisnake/meta_events.py:44-166 | Building a record fails only for a key signature index out of range, and then with that index. A built record holds every field the decoder produced in the field of the same meaning: a text record also keeps the header bytes and counts them in its length, a SMPTE record keeps the five fields, and a key signature takes its name from the record class's table at index + 7. |
| MetaEvents.Run | midisnake/meta_events.py:365-418 | Each decoder returns the payload kind its record class takes. |
| MetaEvents.PairsAccept | midisnake/meta_events.py:365-418 | A paired table entry's record class accepts whatever its decoder returns. |
| MetaEvents.Dispatch | midisnake/meta_events.py:365-418 | An unlisted meta type is a `KeyError`. A success went through the type's decoder, stops where that decoder stopped, and its record holds the decoder's fields as the entry's record class stores them. |
| MetaFacts.ReadLengthField | midisnake/meta_events.py:170-171 | A written length field, fixed-width or VLV, reads back as its length and stops right after itself. |
| MetaFacts.PayloadAfterLength | midisnake/meta_events.py:172-174 | Once the length reads as the size, the payload is the next `read(size)`. |
| MetaFacts.PayloadRoundTrip | midisnake/meta_events.py:170-174 | A payload written after its length field is read back, under either framing, and the cursor stops after it. |
| MetaFacts.WrongLength | midisnake/meta_events.py:172-173 | A written length other than the type's size is reported with that length. |
| MetaFacts.OneByteFieldIsShortVlv | midisnake/meta_events.py:336-337 | A one-byte length field and a VLV agree on lengths below 128, which is why the time and key signatures decode real files. |
| MetaFacts.SequenceNumberRoundTrip | midisnake/meta_events.py:169-176 | A written two-byte sequence number decodes back to itself. |
| MetaFacts.ChannelPrefixRoundTrip | midisnake/meta_events.py:256-264 | A written channel decodes back to itself. |
| MetaFacts.EndOfTrackRoundTrip | midisnake/meta_events.py:267-272 | A written end of track decodes with length 0. |
| MetaFacts.SetTempoRoundTrip | midisnake/meta_events.py:275-283 | A written three-byte tempo decodes back to itself. |
| MetaFacts.TimeSignatureRoundTrip | midisnake/meta_events.py:335-348 | Four written bytes decode to the four fields in order. |
| MetaFacts.KeySignatureRoundTrip | midisnake/meta_events.py:351-362 | With the corrected decoder, a written signed index and mode decode back to themselves. |
| MetaFacts.SignedResidue | midisnake/meta_events.py:359 | The byte a signed index is stored as reads back as that index. |
| MetaFacts.SmpteOffsetRoundTrip | midisnake/meta_events.py:286-332 | With the corrected decoder, five written in-range fields decode back to themselves, the hours without their rate bits. |
| MetaFacts.SmpteReservedRejected | midisnake/meta_events.py:329-330 | The corrected decoder refuses any payload with a reserved bit set. |
| MetaFacts.TextRoundTrip | midisnake/meta_events.py:179-187 | Written ASCII text decodes back to itself whatever VLV width carries its length. |
| MetaFacts.TextNotAscii | midisnake/meta_events.py:182-185 | Text with a byte of 0x80 or above is an `EventTextError`. |
| MetaFacts.MetaTableDomain | midisnake/meta_events.py:365-418 | The table lists 0x00..0x07, 0x2F, 0x51, 0x54, 0x58 and 0x59 and nothing else. 0x01..0x07 are text. |
| MetaFacts.TablesWellPaired | midisnake/meta_events.py:365-418 | In both tables every decoder is paired with the record class that takes its result. |
| MetaFacts.DispatchText | midisnake/meta_events.py:370-397 | In either table, a text type decodes written ASCII text into a text record. The record carries the header bytes and the meta type as its variant. |
| MetaFacts.TextEntry | midisnake/meta_events.py:370-397 | The same for any table whose entry for the type is a text entry. |
| MetaFacts.DispatchFails | midisnake/meta_events.py:365-418 | Dispatch reports the entry's decoder's error. |
| MetaFacts.EndOfTrackMisrouted | midisnake/meta_events.py:398-401 | At the end of the input, the source's table refuses an end of track (a zero length byte under 0x2F) as a wrong channel-prefix length 0. No entry decodes an end of track. |
| MetaFacts.EndOfTrackBeforeChunk | midisnake/meta_events.py:398-401 | Followed by the next track's `MTrk` tag, the same end of track reads the four bytes 00 4D 54 72 as its length and fails with `EventLengthError(0x4D5472)`. |
| MetaFacts.MisroutedBytes | midisnake/meta_events.py:398-401 | 0x2F is bound to the channel prefix decoder, which refuses a zero length. |
| MetaFacts.NoEndOfTrackEntry | midisnake/meta_events.py:365-418 | No entry of the source's table uses the end-of-track decoder. |
| MetaFacts.TableEntries | midisnake/meta_events.py:414-417 | The key signature entry of the source's table, and the 0x2F and 0x59 entries of the corrected one. |
| MetaFacts.EndOfTrackBytes | midisnake/meta_events.py:267-272 | A lone zero length byte is an end of track. |
| MetaFacts.EndOfTrackRouted | midisnake/meta_events.py:267-272 | Through the corrected table the same bytes end the track. |
| MetaFacts.TempoFraming | midisnake/meta_events.py:275-283 | A 500000 µs tempo as a file stores it (03 07 A1 20) is refused with length 0x0307A120 by the four-byte framing and decoded by the VLV framing. |
| MetaFacts.TempoFixedWidth | midisnake/meta_events.py:276-279 | The four bytes are read as one length. |
| MetaFacts.TempoVlv | midisnake/meta_events.py:275-283 | The first byte is read as length 3, then the tempo 500000. |
| MetaFacts.SevenFlatsUnsigned | midisnake/meta_events.py:358-359 | As written, the seven-flats byte 0xF9 is read as 249. |
| MetaFacts.SevenFlatsSigned | midisnake/meta_events.py:351-362 | Read signed, the same byte is -7. |
| MetaFacts.SevenFlatsRefused | midisnake/meta_events.py:90-91 | The source's table refuses a seven-flats key signature, because index 249 is out of range. |
| MetaFacts.UnsignedKeyEntry | midisnake/meta_events.py:414-417 | The same for any table with the source's key signature entry. |
| MetaFacts.SevenFlatsNamed | midisnake/meta_events.py:84-93 | The corrected table reads the same bytes as index -7, named "Cb". |
| MetaFacts.SignedKeyEntry | midisnake/meta_events.py:84-93 | The same for any table with the corrected key signature entry. |
| MetaFacts.DispatchKey | midisnake/meta_events.py:84-93 | An in-range decoded key index becomes the record named from the entry's table. |
| MetaFacts.NoFlatsAsWritten | midisnake/meta_events.py:359 | Whatever the input, the source's table only ever yields key indices 0..7: no key with flats. |
| MetaFacts.ReservedBitsOverwritten | midisnake/meta_events.py:286-332 | As written, an hours byte 0x80 with its reserved top bit set is accepted: the whole decoder, on a payload whose fields are padded to the eight bytes each read takes, returns hours 0. The corrected decoder refuses that hours byte. |
| MetaFacts.CompactSmpteRefused | midisnake/meta_events.py:293-319 | As written, the five-byte SMPTE payload a file stores, with nonzero hours, fails. The eight-byte hours read is too large for a byte. |
| MetaFacts.WideHoursRefused | midisnake/meta_events.py:293-319 | Any input with length 5 and a nonzero byte after it is refused with the eight-byte hours value. |
| MetaFacts.SmpteHeadTooWide | midisnake/meta_events.py:318-319 | An hours read of 256 or more is the value the append refuses. |
| MetaFacts.Padded | midisnake/meta_events.py:293-294 | An eight-byte big-endian field holding a byte value. |
| MetaFacts.ReadPadded | midisnake/meta_events.py:293-294 | An eight-byte read of a padded field returns the field and leaves what follows. |
| MetaFacts.SmpteSteps | midisnake/meta_events.py:286-332 | `smpte_offset` is its five reads followed by the mask and reserved-bit test, once the reads return bytes. |
| MetaFacts.AppendBytes | midisnake/meta_events.py:318-319 | Appending five bytes succeeds. |
| MetaFacts.PaddedReads | midisnake/meta_events.py:287-316 | The length and the five eight-byte reads of the padded layout. |
| MetaFacts.PaddedSmpteAccepted | midisnake/meta_events.py:286-332 | What the as-written decoder does accept: each field padded to eight bytes, decoded to the masked fields, consuming 44 bytes. |
| MetaFacts.CircleOfFifths | midisnake/meta_events.py:88 | With Gb at -6, the key name at index i (sharps positive) is the major key 7i semitones above C. |
| MetaFacts.SixFlatsMisnamed | midisnake/meta_events.py:88 | The source names six flats "Fb", four semitones above C, where Gb (six above) belongs. Every other name agrees with the corrected table. |
| MetaFacts.DenominatorExamples | midisnake/meta_events.py:116-119 | `2 ** denominator`: 0, 2 and 3 stand for 1, 4 and 8. |

## Left out

- The file readers (midisnake/parser.py, midi/parser.py, midi/structure.py): they are outside the decoding core. There is no header or track chunk parsing, no running status and no track loop. `Structure.Header` and `Structure.Track` are plain records.
- The `Event` base class's `valid` and constructor, with `LengthError`: midisnake/structure.py defines `Event` without them, and the errors module the tests import from is not part of this model. `Events.Construct` follows the event tests: a three-byte width check raising `LengthError`, then the status nibble check, then `_process`.
- `MetaSetTempo.get_tempo` (line 148-149): floating-point division.
- `MetaTimeSignature.parsed_signature`: only `2 ** denominator` is modelled (`MetaEvents.ActualDenominator`), not the string formatting.
- `__repr__` and `__str__` of every class: string formatting only.
- Error messages: each error is a constructor without its text. Python raises a bare `ValueError` in several places; the model gives each its own constructor.
- `MetaKeySignature.major_minor` is declared but never set by the source, so the record has no such field. The mode byte stays in `rawContent`.
- `frame_crumb` (the SMPTE frame-rate bits, line 297) is computed and never used.
- `MetaSMPTEOffset.raw_content` is the field tuple, not bytes (line 136). The record keeps it as `smpteRaw: SmpteFields`.
- The seven text decoders differ only in their error messages. They are one `MetaEvents.Text`, and the table tags each with its `TextKind`.
- I/O: the byte source is an immutable sequence and a position. File errors and partial reads other than at the end of input are not modelled.
- IntBuilder's eight-byte test (tests/test_intbuilder.py:85-98) has no example lemma of its own. `Integers.Build` states the uint64 classification for all inputs.
- MetaEvents.ReadLength: its contract only says the cursor never moves back and that fixed-width reads never fail. `MetaFacts.ReadLengthField` states what it reads from a written field.
- Events.Process: for values that are not six hex digits wide, the contract states only the negative case. `Events.Construct` never passes such values, since its width check comes first.
- MetaEvents.SmpteOffset: the contract does not say exactly when the as-written decoder succeeds. `MetaFacts.CompactSmpteRefused` and `MetaFacts.PaddedSmpteAccepted` state the two layouts.
- MetaEvents.Dispatch: the source has no dispatch function. `meta_events` (meta_events.py:365-418) is only the table, so Dispatch reconstructs its use: look the type up, call its `function`, pass the result to its `object_type`. The header bytes a text record keeps (`eventInfo`) are supplied by the caller, since the code that reads them is not part of this model.
- Bits helper lemmas (mask and shift arithmetic) carry no rows. They state arithmetic, not source behaviour.

## Findings

| source | as written | input that shows it | evidently intended | confidence | as-written member | corrected member |
|---|---|---|---|---|---|---|
| midisnake/events.py:292 | `bend_amount = (data_array[2] << 7) & data_array[1]` keeps at most one bit, so every bend with 7-bit data bytes is 0 | PitchBend value 0xE00040 (centred bend) gives 0 | `msb << 7` or-ed with `lsb`, the 14-bit bend (8192 for the centre) | not executed | Events.BendAsWritten, Events.PitchBendCentreLost | Events.ProcessBend, Events.BendRoundTrip |
| midisnake/meta_events.py:398-401 | meta type 0x2F (end of track) is bound to `channel_prefix` and `MetaChannelPrefix` | an end of track (0xFF 0x2F, length byte 0x00) at the end of the input gives `EventLengthError(0)`; followed by `MTrk` it gives `EventLengthError(0x4D5472)` | 0x2F to `end_of_track`/`EndOfTrack`, 0x20 to the channel prefix | not executed | MetaFacts.EndOfTrackMisrouted, MetaFacts.EndOfTrackBeforeChunk | MetaFacts.EndOfTrackRouted |
| midisnake/meta_events.py:312 | `null_bit = …` overwrites the reserved bits accumulated from hours, minutes and seconds | a SMPTE payload of length 5 whose hours byte is 0x80, each field padded to the eight bytes the decoder reads for it, is accepted with hours 0 | or-ing into `null_bit`, refusing any reserved bit | not executed | MetaEvents.SmpteFinish, MetaFacts.ReservedBitsOverwritten | MetaEvents.SmpteOffsetCorrected, MetaFacts.SmpteReservedRejected |
| midisnake/meta_events.py:293-316 | each SMPTE field is read as eight bytes | a stored five-byte payload with hours 1 fails with a value too large for a byte | one byte per field | not executed | MetaEvents.SmpteOffset, MetaFacts.CompactSmpteRefused | MetaEvents.SmpteOffsetCorrected, MetaFacts.SmpteOffsetRoundTrip |
| midisnake/meta_events.py:276-278 | meta lengths are read as four-byte big-endian fields (also lines 170, 257, 268, 287) | set tempo 03 07 A1 20 gives `EventLengthError(0x0307A120)` | a variable-length quantity, as Standard MIDI Files write it | not executed | MetaFacts.TempoFixedWidth | MetaFacts.TempoVlv, MetaFacts.SetTempoRoundTrip |
| midisnake/meta_events.py:359 | the key signature index byte is kept unsigned | seven flats, 02 F9 00, gives index 249 and is refused | a signed byte, -7..7 | not executed | MetaEvents.KeySignature, MetaFacts.SevenFlatsRefused, MetaFacts.NoFlatsAsWritten | MetaEvents.KeySignatureCorrected, MetaFacts.SevenFlatsNamed, MetaFacts.KeySignatureRoundTrip |
| midisnake/meta_events.py:88 | six flats (index -6) is named "Fb" | a key signature with index -6 | "Gb" | not executed | MetaFacts.SixFlatsMisnamed | MetaFacts.CircleOfFifths |
