/**
 Channel voice events: a 24-bit value holding a status byte and two data
 bytes, split into channel, note and velocity/pressure/bend fields. The
 source splits the value by printing it in hexadecimal and parsing the
 digits back as bytes, and that detour is modelled too.
 */
module Events {
  import opened Bits
  import opened Bytes
  import opened Results
  import opened Pitch

  // ---- Note names ----

  const NoteValues: map<int, string> := map[
    0 := "C", 1 := "C#", 2 := "D", 3 := "D#", 4 := "E", 5 := "F",
    6 := "F#", 7 := "G", 8 := "G#", 9 := "A", 10 := "A#", 11 := "B"]

  /** The twelve names are the twelve pitch classes, in order from C. */
  lemma NoteValuesClasses(k: int)
    requires 0 <= k < 12
    ensures k in NoteValues && PitchClass(NoteValues[k]) == Some(k)
  {
  }

  /** `get_note_name`: the pitch-class name of a MIDI note number 0..127. */
  function NoteName(data: int): (r: Result<string>)
    ensures r.Ok? <==> 0 <= data <= 127
    ensures r.Err? ==> r.error == NoteOutOfRange(data)
    ensures r.Ok? ==> PitchClass(r.value) == Some(data % 12)
  {
    if data > 127 then Err(NoteOutOfRange(data))
    else if data < 0 then Err(NoteOutOfRange(data))
    else
      NoteValuesClasses(data % 12);
      if 0 <= data < 12 then Ok(NoteValues[data]) else Ok(NoteValues[data % 12])
  }

  /** Two notes share a name exactly when they are a whole number of octaves apart. */
  lemma NoteNamesRepeatByOctave(a: int, b: int)
    requires 0 <= a <= 127 && 0 <= b <= 127
    ensures NoteName(a) == NoteName(b) <==> a % 12 == b % 12
  {
    NoteNameIs(a);
    NoteNameIs(b);
    if NoteName(a) == NoteName(b) {
      assert PitchClass(NoteName(a).value) == Some(b % 12);
    }
  }

  /** A note's name is the table's entry for its pitch class. */
  lemma NoteNameIs(data: int)
    requires 0 <= data <= 127
    ensures data % 12 in NoteValues && NoteName(data) == Ok(NoteValues[data % 12])
  {
    NoteValuesClasses(data % 12);
    if data < 12 {
      ModUnique(data, 12, 0, data);
    }
  }

  // ---- Balance and pan ----

  /** `_decode_leftright`: which side of the centre value 64 a balance or pan value lies. */
  function LeftRight(data: int): (r: string)
    ensures r == "left" <==> data < 64
    ensures r == "center" <==> data == 64
    ensures r == "right" <==> data > 64
  {
    if data > 64 then "right"
    else if data < 64 then "left"
    else if data == 64 then "center"
    else assert false; ""
  }

  /** Nothing rejects a value above 127: it reads as "right". */
  lemma LeftRightUnchecked()
    ensures LeftRight(200) == "right" && LeftRight(-1) == "left"
  {
  }

  // ---- Controller table ----

  datatype ByteOrder = Big | Little

  datatype ControlDecoder = DecodeLeftRight

  datatype Control = Control(name: string, byteorder: ByteOrder, decoder: Option<ControlDecoder>)

  const MidiControls: map<int, Control> := map[
    0x00 := Control("Bank Select", Big, None),
    0x01 := Control("Modulation Wheel", Big, None),
    0x02 := Control("Breath Control", Big, None),
    0x03 := Control("undefined", Big, None),
    0x04 := Control("Foot Controller", Big, None),
    0x05 := Control("Portamento Time", Big, None),
    0x06 := Control("Data Entry", Big, None),
    0x07 := Control("Channel Volume", Big, None),
    0x08 := Control("Balance", Big, Some(DecodeLeftRight)),
    0x09 := Control("undefined", Big, None),
    0x0A := Control("Pan", Big, Some(DecodeLeftRight)),
    0x0B := Control("Expression", Big, None),
    0x0C := Control("Effect Controller 1", Big, None),
    0x0D := Control("Effect Controller 2", Big, None),
    0x0E := Control("General Purpose", Big, None),
    0x0F := Control("General Purpose", Big, None),
    0x10 := Control("General Purpose", Big, None),
    0x11 := Control("General Purpose", Big, None),
    0x12 := Control("General Purpose", Big, None),
    0x13 := Control("General Purpose", Big, None)]

  /** The table covers controllers 0x00..0x13, all big-endian; only Balance and Pan decode their value. */
  lemma ControlsTable(k: int)
    ensures k in MidiControls <==> 0 <= k <= 0x13
    ensures k in MidiControls ==> MidiControls[k].byteorder == Big
    ensures k in MidiControls ==> (MidiControls[k].decoder.Some? <==> k == 0x08 || k == 0x0A)
  {
  }

  // ---- hex(data) and bytearray.fromhex ----

  /** How many digits `hex(n)` prints after the "0x" (one for zero). */
  function HexDigits(n: nat): (r: nat)
    ensures r >= 1
  {
    if n < 16 then 1 else 1 + HexDigits(n / 16)
  }

  lemma Band16(n: nat, lo: nat, hi: nat)
    requires 16 * lo <= n < 16 * hi
    ensures lo <= n / 16 < hi
  {
    ModUnique(n, 16, n / 16, n % 16);
  }

  lemma {:induction false} HexDigitsBound(n: nat)
    ensures n < Pow(16, HexDigits(n))
    decreases n
  {
    if n >= 16 {
      HexDigitsBound(n / 16);
      ModUnique(n, 16, n / 16, n % 16);
    }
  }

  /** A number with k hex digits prints as k digits. */
  lemma {:induction false} HexDigitsExact(n: nat, k: nat)
    requires k >= 1 && n < Pow(16, k) && (k == 1 || Pow(16, k - 1) <= n)
    ensures HexDigits(n) == k
    decreases k
  {
    if k > 1 {
      var p := Pow(16, k - 2);
      assert Pow(16, k - 1) == 16 * p;
      Band16(n, p, Pow(16, k - 1));
      HexDigitsExact(n / 16, k - 1);
    }
  }

  /** Two hex digits per byte. */
  lemma {:induction false} PowSquare(m: nat)
    ensures Pow(16, 2 * m) == Pow(256, m)
    decreases m
  {
    if m > 0 {
      PowSquare(m - 1);
      assert Pow(16, 2 * m) == 16 * (16 * Pow(16, 2 * (m - 1)));
    }
  }

  /**
   `bytearray.fromhex(hex(data)[2:])`: the big-endian bytes of data, or a
   ValueError when the digit count is odd or the number is negative (the
   sign leaves an "x" among the digits).
   */
  function FromHex(data: int): (r: Result<seq<byte>>)
    ensures r.Err? <==> data < 0 || HexDigits(data) % 2 == 1
    ensures r.Err? ==> r.error == MalformedHex
    ensures r.Ok? ==> 2 * |r.value| == HexDigits(data) && BigEndian(r.value) == data
  {
    if data < 0 then Err(MalformedHex)
    else
      var digits := HexDigits(data);
      if digits % 2 == 1 then Err(MalformedHex)
      else
        HexDigitsBound(data);
        PowSquare(digits / 2);
        BigEndianOfEncoding(data, digits / 2);
        Ok(ToBigEndian(data, digits / 2))
  }

  lemma LeadBound(be: nat, lead: nat, q: nat, p: nat)
    requires lead >= 16 && be >= lead * p && q == 16 * p
    ensures q <= be
  {
    assert lead * p >= 16 * p;
  }

  /** A leading byte of at least 0x10 makes the number print as two digits per byte. */
  lemma HexDigitsOfBytes(bs: seq<byte>)
    requires |bs| >= 1 && bs[0] >= 16
    ensures HexDigits(BigEndian(bs)) == 2 * |bs|
  {
    var m := |bs|;
    var n := BigEndian(bs);
    BigEndianBound(bs);
    PowSquare(m);
    PowSquare(m - 1);
    BigEndianLead(bs);
    assert Pow(16, 2 * m - 1) == 16 * Pow(16, 2 * (m - 1));
    LeadBound(n, bs[0], Pow(16, 2 * m - 1), Pow(256, m - 1));
    HexDigitsExact(n, 2 * m);
  }

  /** Bytes whose leading byte prints as two digits come back from their number unchanged. */
  lemma FromHexOfBytes(bs: seq<byte>)
    requires |bs| >= 1 && bs[0] >= 16
    ensures FromHex(BigEndian(bs)) == Ok(bs)
  {
    var n := BigEndian(bs);
    HexDigitsOfBytes(bs);
    EncodingOfBigEndian(bs);
    assert HexDigits(n) / 2 == |bs|;
    assert FromHex(n) == Ok(ToBigEndian(n, |bs|));
  }

  // ---- The 24-bit channel message ----

  /** Six hex digits: a status byte of at least 0x10 and two data bytes. */
  predicate Fits24(data: int)
  {
    0x100000 <= data < 0x1000000
  }

  function StatusByte(data: nat): nat
  {
    data / 0x10000
  }

  function DataByte1(data: nat): nat
  {
    data / 0x100 % 0x100
  }

  function DataByte2(data: nat): nat
  {
    data % 0x100
  }

  lemma Split24(data: nat)
    requires data < 0x1000000
    ensures data == StatusByte(data) * 0x10000 + DataByte1(data) * 0x100 + DataByte2(data)
    ensures StatusByte(data) < 256 && DataByte1(data) < 256
    ensures ToBigEndian(data, 3) == [StatusByte(data), DataByte1(data), DataByte2(data)]
  {
    var hi := data / 0x100;
    ModUnique(data, 0x100, hi, data % 0x100);
    ModUnique(hi, 0x100, hi / 0x100, hi % 0x100);
    ModUnique(data, 0x10000, hi / 0x100, DataByte1(data) * 0x100 + DataByte2(data));
    assert ToBigEndian(data, 3) == ToBigEndian(hi / 0x100, 1) + [hi % 0x100] + [data % 0x100];
  }

  /** A six-digit value decodes to exactly its three bytes. */
  lemma ThreeByteHex(data: int)
    ensures Fits24(data) ==> FromHex(data) == Ok([StatusByte(data), DataByte1(data), DataByte2(data)])
  {
    if Fits24(data) {
      assert Pow(16, 6) == 0x1000000 && Pow(16, 5) == 0x100000;
      HexDigitsExact(data, 6);
      Split24(data);
    }
  }

  datatype EventKind = NoteOnEvent | NoteOffEvent | PolyphonicAftertouchEvent | PitchBendEvent

  /** `indicator_byte` of each event class. */
  function IndicatorByte(kind: EventKind): byte
  {
    match kind
    case NoteOnEvent => 0x90
    case NoteOffEvent => 0x80
    case PolyphonicAftertouchEvent => 0xA0
    case PitchBendEvent => 0xE0
  }

  /** The indicators are distinct status nibbles of the channel voice range. */
  lemma IndicatorsDistinct(a: EventKind, b: EventKind)
    ensures IndicatorByte(a) == IndicatorByte(b) <==> a == b
    ensures IndicatorByte(a) % 16 == 0 && IndicatorByte(a) >= 0x80
  {
  }

  datatype ChannelEvent =
    | NoteOn(channelNumber: nat, noteNumber: nat, noteName: string, noteVelocity: nat, rawData: int)
    | NoteOff(channelNumber: nat, noteNumber: nat, noteName: string, noteVelocity: nat, rawData: int)
    | PolyphonicAftertouch(channelNumber: nat, noteNumber: nat, noteName: string, pressure: nat, rawData: int)
    | PitchBend(channelNumber: nat, bendAmount: nat, rawData: int)

  function KindOf(e: ChannelEvent): EventKind
  {
    match e
    case NoteOn(_, _, _, _, _) => NoteOnEvent
    case NoteOff(_, _, _, _, _) => NoteOffEvent
    case PolyphonicAftertouch(_, _, _, _, _) => PolyphonicAftertouchEvent
    case PitchBend(_, _, _) => PitchBendEvent
  }

  /** `(msb << 7) & lsb`, as PitchBend computes it: at most one bit survives. */
  function BendAsWritten(msb: byte, lsb: byte): (r: nat)
    ensures r == (if lsb >= 128 && msb % 2 == 1 then 128 else 0)
  {
    assert Pow2(7) == 128 && Pow2(1) == 2;
    AndCommutes(msb * 128, lsb);
    AndShiftedMask(lsb, msb, 7);
    AndCommutes(lsb / 128, msb);
    AndLowMask(msb, 1);
    And(msb * 128, lsb)
  }

  /** `(msb << 7) | lsb`: the 14-bit bend value the MIDI 1.0 specification defines. */
  function Bend(msb: byte, lsb: byte): (r: nat)
    ensures lsb < 128 ==> r == msb * 128 + lsb
    ensures msb < 128 && lsb < 128 ==> r < 0x4000 && r / 128 == msb && r % 128 == lsb
  {
    assert Pow2(7) == 128;
    if lsb < 128 then
      OrShiftLow(msb, lsb, 7);
      ModUnique(msb * 128 + lsb, 128, msb, lsb);
      Or(msb * 128, lsb)
    else
      Or(msb * 128, lsb)
  }

  /** The fields a three-byte message carries, as the channel voice layout assigns them. */
  ghost predicate HasFields(e: ChannelEvent, data: nat)
  {
    && e.channelNumber == StatusByte(data) % 16
    && e.rawData == data
    && match e
       case PitchBend(_, bend, _) =>
         bend == (if DataByte1(data) >= 128 && DataByte2(data) % 2 == 1 then 128 else 0)
       case NoteOn(_, note, name, velocity, _) =>
         note == DataByte1(data) && PitchClass(name) == Some(note % 12) && velocity == DataByte2(data)
       case NoteOff(_, note, name, velocity, _) =>
         note == DataByte1(data) && PitchClass(name) == Some(note % 12) && velocity == DataByte2(data)
       case PolyphonicAftertouch(_, note, name, pressure, _) =>
         note == DataByte1(data) && PitchClass(name) == Some(note % 12) && pressure == DataByte2(data)
  }

  /**
   `_process` of the four event classes: parse the hex digits, mask the
   channel, then index the data bytes, raising as soon as an index is past
   the end or the note number is out of range.
   */
  function Process(kind: EventKind, data: int): (r: Result<ChannelEvent>)
    ensures data < 0 ==> r == Err(MalformedHex)
    ensures r.Ok? ==> KindOf(r.value) == kind && r.value.rawData == data && r.value.channelNumber < 16
    ensures Fits24(data) ==> (r.Ok? <==> kind == PitchBendEvent || DataByte1(data) <= 127)
    ensures Fits24(data) && r.Err? ==> r.error == NoteOutOfRange(DataByte1(data))
    ensures Fits24(data) && r.Ok? ==> HasFields(r.value, data)
  {
    ThreeByteHex(data);
    var arr :- FromHex(data);
    assert |arr| >= 1;
    Low4(arr[0]);
    var channel := And(arr[0], 0x0F);
    if |arr| < 2 then Err(EndOfData)
    else if kind == PitchBendEvent then
      if |arr| < 3 then Err(EndOfData)
      else Ok(PitchBend(channel, BendAsWritten(arr[2], arr[1]), data))
    else
      var name :- NoteName(arr[1]);
      if |arr| < 3 then Err(EndOfData)
      else
        match kind
        case NoteOnEvent => Ok(NoteOn(channel, arr[1], name, arr[2], data))
        case NoteOffEvent => Ok(NoteOff(channel, arr[1], name, arr[2], data))
        case PolyphonicAftertouchEvent => Ok(PolyphonicAftertouch(channel, arr[1], name, arr[2], data))
  }

  // ---- Validation and construction ----

  /** The status byte's high nibble is the event's indicator. */
  predicate Valid(kind: EventKind, data: nat)
  {
    And(StatusByte(data), 0xF0) == IndicatorByte(kind)
  }

  /** Bytes needed to write n (one for zero). */
  function ByteLength(n: nat): (r: nat)
    ensures r >= 1
  {
    if n < 256 then 1 else 1 + ByteLength(n / 256)
  }

  lemma ThreeBytesWide(n: nat)
    ensures ByteLength(n) == 3 <==> 0x10000 <= n < 0x1000000
  {
    if n >= 256 {
      var m := n / 256;
      ModUnique(n, 256, m, n % 256);
      if m >= 256 {
        var q := m / 256;
        ModUnique(m, 256, q, m % 256);
        ModUnique(n, 0x10000, q, (m % 256) * 256 + n % 256);
        assert ByteLength(n) == 2 + ByteLength(q);
      }
    }
  }

  /** A message whose status nibble is an indicator is six hex digits wide. */
  lemma ValidIsSixDigits(kind: EventKind, data: nat)
    requires 0x10000 <= data < 0x1000000 && Valid(kind, data)
    ensures Fits24(data)
  {
    Split24(data);
    High4(StatusByte(data));
  }

  /**
   Building an event from a value: a LengthError unless it is three bytes
   wide, a validation failure unless the status nibble matches, then the
   event's `_process`.
   */
  function Construct(kind: EventKind, data: nat): (r: Result<ChannelEvent>)
    ensures r == Err(LengthError) <==> !(0x10000 <= data < 0x1000000)
    ensures r == Err(InvalidStatus) <==> 0x10000 <= data < 0x1000000 && !Valid(kind, data)
    ensures r.Ok? <==> 0x10000 <= data < 0x1000000 && Valid(kind, data) && (kind == PitchBendEvent || DataByte1(data) <= 127)
    ensures r.Ok? ==> KindOf(r.value) == kind && HasFields(r.value, data)
  {
    ThreeBytesWide(data);
    if ByteLength(data) != 3 then Err(LengthError)
    else if !Valid(kind, data) then Err(InvalidStatus)
    else
      ValidIsSixDigits(kind, data);
      Process(kind, data)
  }

  /** Validity compares the status byte's high nibble with the indicator's. */
  lemma ValidNibble(kind: EventKind, data: nat)
    requires data < 0x1000000
    ensures Valid(kind, data) <==> StatusByte(data) / 16 == IndicatorByte(kind) / 16
  {
    Split24(data);
    High4(StatusByte(data));
  }

  /** The status-nibble checks of the event tests. */
  lemma ValidExamples()
    ensures Valid(NoteOnEvent, 0x900000)
    ensures !Valid(NoteOnEvent, 0x800000)
  {
    ValidNibble(NoteOnEvent, 0x900000);
    ValidNibble(NoteOnEvent, 0x800000);
  }

  /**
   The four indicators are 0x80, 0x90, 0xA0 and 0xE0, so a status byte
   whose high nibble is 2, such as the 0x29 of 0x290011, is valid for none
   of the event classes.
   */
  lemma NoClassForStatusTwo(kind: EventKind, data: nat)
    requires data < 0x1000000 && StatusByte(data) / 16 == 2
    ensures !Valid(kind, data)
  {
    ValidNibble(kind, data);
  }

  /** A six-digit note message decodes to its channel, note, the note's name and the third byte. */
  lemma ProcessNote(kind: EventKind, data: int)
    requires kind != PitchBendEvent && Fits24(data) && DataByte1(data) <= 127
    ensures var note := DataByte1(data);
      && note % 12 in NoteValues
      && Process(kind, data) == Ok(match kind
        case NoteOnEvent => NoteOn(StatusByte(data) % 16, note, NoteValues[note % 12], DataByte2(data), data)
        case NoteOffEvent => NoteOff(StatusByte(data) % 16, note, NoteValues[note % 12], DataByte2(data), data)
        case PolyphonicAftertouchEvent =>
          PolyphonicAftertouch(StatusByte(data) % 16, note, NoteValues[note % 12], DataByte2(data), data))
  {
    ThreeByteHex(data);
    Low4(StatusByte(data));
    NoteNameIs(DataByte1(data));
  }

  /** A three-byte value with a matching status nibble is constructed by `_process`. */
  lemma ConstructIsProcess(kind: EventKind, data: nat)
    requires 0x10000 <= data < 0x1000000 && Valid(kind, data)
    ensures Fits24(data) && Construct(kind, data) == Process(kind, data)
  {
    ThreeBytesWide(data);
    ValidIsSixDigits(kind, data);
  }

  /** `NoteOn(0x900000)`, as the event tests construct it. */
  lemma ConstructNoteOnExample()
    ensures Construct(NoteOnEvent, 0x900000) == Ok(NoteOn(0, 0, "C", 0, 9437184))
  {
    ValidExamples();
    ConstructIsProcess(NoteOnEvent, 0x900000);
    ProcessNoteOnExample();
  }

  lemma ProcessNoteOnExample()
    ensures Process(NoteOnEvent, 0x900000) == Ok(NoteOn(0, 0, "C", 0, 9437184))
  {
    var data := 0x900000;
    assert StatusByte(data) == 0x90 && DataByte1(data) == 0 && DataByte2(data) == 0;
    ProcessNote(NoteOnEvent, data);
    assert NoteValues[0] == "C";
  }

  /** The two widths the event tests reject. */
  lemma ConstructWidthExamples()
    ensures Construct(NoteOnEvent, 0x1) == Err(LengthError)
    ensures Construct(NoteOnEvent, 0x123001929391923919) == Err(LengthError)
  {
  }

  /** A centred bend (lsb 0x00, msb 0x40) comes out as 0, not 8192; the corrected fold gives 8192. */
  lemma PitchBendCentreLost()
    ensures Process(PitchBendEvent, 0xE00040) == Ok(PitchBend(0, 0, 0xE00040))
    ensures Bend(0x40, 0x00) == 8192
    ensures Bend(0x7F, 0x7F) == 0x3FFF
  {
    ThreeByteHex(0xE00040);
    assert FromHex(0xE00040) == Ok([0xE0, 0x00, 0x40]);
    Low4(0xE0);
    assert BendAsWritten(0x40, 0x00) == 0;
  }

  /**
   PitchBend's `_process` with the two data bytes folded by `|` instead of
   `&`: the bend is the 14-bit value whose halves are the data bytes.
   */
  function ProcessBend(data: int): (r: Result<ChannelEvent>)
    ensures data < 0 ==> r == Err(MalformedHex)
    ensures Fits24(data) ==>
      (r.Ok? && r.value.PitchBend? && r.value.rawData == data && r.value.channelNumber == StatusByte(data) % 16)
    ensures Fits24(data) && DataByte1(data) < 128 && DataByte2(data) < 128 ==>
      (r.value.bendAmount < 0x4000 && r.value.bendAmount / 128 == DataByte2(data)
        && r.value.bendAmount % 128 == DataByte1(data))
  {
    ThreeByteHex(data);
    var arr :- FromHex(data);
    assert |arr| >= 1;
    Low4(arr[0]);
    if |arr| < 3 then Err(EndOfData)
    else Ok(PitchBend(And(arr[0], 0x0F), Bend(arr[2], arr[1]), data))
  }

  /** A bend message written from a channel and a 14-bit value gives both back. */
  lemma BendRoundTrip(channel: nat, value: nat)
    requires channel < 16 && value < 0x4000
    ensures var data := (0xE0 + channel) * 0x10000 + (value % 128) * 0x100 + value / 128;
      ProcessBend(data) == Ok(PitchBend(channel, value, data))
  {
    var lsb, msb := value % 128, value / 128;
    var data := (0xE0 + channel) * 0x10000 + lsb * 0x100 + msb;
    ModUnique(data, 0x10000, 0xE0 + channel, lsb * 0x100 + msb);
    ModUnique(data / 0x100, 0x100, 0xE0 + channel, lsb);
    ModUnique(data, 0x100, data / 0x100, msb);
    assert StatusByte(data) == 0xE0 + channel && DataByte1(data) == lsb && DataByte2(data) == msb;
    ModUnique(0xE0 + channel, 16, 14, channel);
    var r := ProcessBend(data);
    ModUnique(value, 128, msb, lsb);
    ModUnique(r.value.bendAmount, 128, msb, lsb);
  }

  /** The centred bend of the earlier example, read with the corrected fold. */
  lemma BendCentreKept()
    ensures ProcessBend(0xE00040) == Ok(PitchBend(0, 8192, 0xE00040))
  {
    BendRoundTrip(0, 8192);
  }
}
