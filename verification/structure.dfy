/**
 The variable-length quantity of Standard MIDI Files: seven value bits per
 byte, most significant group first, the top bit of every byte but the last
 set. Also the header and track records, which carry no logic.
 */
module Structure {
  import opened Bits
  import opened Bytes
  import opened Results

  datatype Header = Header(length: int, format: int, ntrks: int, division: int)

  datatype Track<Event> = Track(trackNumber: int, length: int, events: seq<Event>)

  datatype VariableLengthValue = VariableLengthValue(length: nat, rawData: seq<byte>, value: nat)

  /** The value of a run of VLV bytes: their low seven bits, most significant first. */
  function Base128(digits: seq<byte>): nat
  {
    if |digits| == 0 then 0 else Base128(digits[..|digits| - 1]) * 128 + digits[|digits| - 1] % 128
  }

  /** Every byte has its continuation bit set. */
  predicate AllContinued(digits: seq<byte>)
  {
    forall i :: 0 <= i < |digits| ==> digits[i] >= 128
  }

  /** A complete encoding: continuation bits on all bytes but the last, which has it clear. */
  predicate IsVlv(raw: seq<byte>)
  {
    |raw| >= 1 && raw[|raw| - 1] < 128 && AllContinued(raw[..|raw| - 1])
  }

  /** No byte from the cursor on ends a VLV. */
  predicate NoTerminator(s: Cursor)
  {
    forall i :: s.pos <= i < |s.data| ==> s.data[i] >= 128
  }

  /** Facts about a successful decode that started at `start`. */
  ghost predicate DecodedFrom(start: nat, s: Cursor, v: VariableLengthValue, s': Cursor)
  {
    && s'.data == s.data
    && v.length == |v.rawData|
    && IsVlv(v.rawData)
    && start + v.length == s'.pos
    && v.rawData == s.data[start..s'.pos]
    && v.value == Base128(v.rawData)
    && v.value < Pow(128, v.length)
  }

  /** Appending a digit below 128 to hi. */
  lemma Shift128(hi: nat, lo: nat)
    requires lo < 128
    ensures (hi * 128 + lo) / 128 == hi && (hi * 128 + lo) % 128 == lo
  {
    ModUnique(hi * 128 + lo, 128, hi, lo);
  }

  /** A value below 128^k loses one base-128 digit when divided by 128. */
  lemma DropDigit(v: nat, k: nat, p: nat)
    requires k >= 1 && p == Pow(128, k - 1) && v < Pow(128, k)
    ensures v / 128 < p
  {
    assert Pow(128, k) == 128 * p;
    assert (v / 128) * 128 <= v;
  }

  lemma AddDigit(hi: nat, lo: nat, p: nat)
    requires hi < p && lo < 128
    ensures hi * 128 + lo < 128 * p
  {
    assert hi * 128 <= (p - 1) * 128;
  }

  lemma {:induction false} Base128Bound(digits: seq<byte>)
    ensures Base128(digits) < Pow(128, |digits|)
    decreases |digits|
  {
    if |digits| > 0 {
      var init := digits[..|digits| - 1];
      Base128Bound(init);
      AddDigit(Base128(init), digits[|digits| - 1] % 128, Pow(128, |init|));
    }
  }

  /** One pass of the loop body: `value <<= 7; value |= b & 0x7F` appends the digit, and `b & 0x80` tests its top bit. */
  lemma LoopStep(value: nat, raw: seq<byte>, b: byte)
    requires value == Base128(raw)
    ensures Or(value * 128, And(b, 0x7F)) == Base128(raw + [b])
    ensures And(b, 0x80) == 0 <==> b < 128
  {
    Low7(b);
    Top1(b);
    assert Pow2(7) == 128;
    OrShiftLow(value, b % 128, 7);
    assert (raw + [b])[..|raw|] == raw;
  }

  /** `VariableLengthValue(file_io)`: the first byte, then the continuation loop. */
  function ReadVlv(s: Cursor): (r: Result<(VariableLengthValue, Cursor)>)
    ensures r.Err? <==> NoTerminator(s)
    ensures r.Err? ==> r.error == EndOfData
    ensures r.Ok? ==> s.pos < |s.data| && DecodedFrom(s.pos, s, r.value.0, r.value.1)
  {
    var (first, s1) := Read(s, 1);
    if |first| == 0 then Err(EndOfData)
    else
      var b := first[0];
      FirstStep(s, b, s1);
      if And(b, 0x80) > 0 then
        ReadMore(s1, And(b, 0x7F), [b], 1)
      else
        Ok((VariableLengthValue(1, [b], b), s1))
  }

  /** What the first byte decides: a one-byte value, or the loop's starting state. */
  lemma FirstStep(s: Cursor, b: byte, s1: Cursor)
    requires s.pos < |s.data| && b == s.data[s.pos] && s1 == Stream(s.data, s.pos + 1)
    ensures And(b, 0x80) > 0 <==> b >= 128
    ensures NoTerminator(s) <==> b >= 128 && NoTerminator(s1)
    ensures b >= 128 ==> And(b, 0x7F) == Base128([b]) && AllContinued([b]) && [b] == s1.data[s1.pos - 1..s1.pos]
    ensures b < 128 ==> DecodedFrom(s.pos, s, VariableLengthValue(1, [b], b), s1)
  {
    Low7(b);
    Top1(b);
    assert [b][..0] == [];
    assert Base128([b]) == b % 128;
    NoTerminatorStep(s, s1);
    assert [b] == s.data[s.pos..s1.pos];
    if b < 128 {
      Terminated(s.pos, s, [b], b, s1);
    }
  }

  /** A cursor has no terminator ahead exactly when its next byte continues and the rest has none. */
  lemma NoTerminatorStep(s: Cursor, s1: Cursor)
    requires s.pos < |s.data| && s1 == Stream(s.data, s.pos + 1)
    ensures NoTerminator(s) <==> s.data[s.pos] >= 128 && NoTerminator(s1)
  {
  }

  /** A complete encoding read from `start` to the cursor is a successful decode. */
  lemma Terminated(start: nat, s: Cursor, raw: seq<byte>, value: nat, s': Cursor)
    requires IsVlv(raw) && s'.data == s.data && start + |raw| == s'.pos
    requires raw == s.data[start..s'.pos] && value == Base128(raw)
    ensures DecodedFrom(start, s, VariableLengthValue(|raw|, raw, value), s')
  {
    Base128Bound(raw);
  }

  /** The `while True` loop: one more byte, shifted in below the value read so far. */
  function ReadMore(s: Cursor, value: nat, raw: seq<byte>, length: nat): (r: Result<(VariableLengthValue, Cursor)>)
    requires length == |raw| && 1 <= |raw| <= s.pos
    requires raw == s.data[s.pos - |raw|..s.pos] && AllContinued(raw)
    requires value == Base128(raw)
    ensures r.Err? <==> NoTerminator(s)
    ensures r.Err? ==> r.error == EndOfData
    ensures r.Ok? ==> DecodedFrom(s.pos - |raw|, s, r.value.0, r.value.1)
    decreases Remaining(s)
  {
    var (next, s1) := Read(s, 1);
    if |next| == 0 then Err(EndOfData)
    else
      var b := next[0];
      var raw' := raw + [b];
      var value' := Or(value * 128, And(b, 0x7F));
      NextStep(s, value, raw, b, s1, raw', value');
      if And(b, 0x80) == 0 then
        Ok((VariableLengthValue(length + 1, raw', value'), s1))
      else
        ReadMore(s1, value', raw', length + 1)
  }

  /** What one more byte decides: the value ends here, or the loop goes on with one more digit. */
  lemma NextStep(s: Cursor, value: nat, raw: seq<byte>, b: byte, s1: Cursor, raw': seq<byte>, value': nat)
    requires 1 <= |raw| <= s.pos && raw == s.data[s.pos - |raw|..s.pos] && AllContinued(raw)
    requires value == Base128(raw)
    requires s.pos < |s.data| && b == s.data[s.pos] && s1 == Stream(s.data, s.pos + 1)
    requires raw' == raw + [b] && value' == Or(value * 128, And(b, 0x7F))
    ensures And(b, 0x80) == 0 <==> b < 128
    ensures NoTerminator(s) <==> b >= 128 && NoTerminator(s1)
    ensures |raw'| == |raw| + 1 && s1.pos - |raw'| == s.pos - |raw| && raw' == s1.data[s1.pos - |raw'|..s1.pos]
    ensures value' == Base128(raw')
    ensures b >= 128 ==> AllContinued(raw')
    ensures b < 128 ==> DecodedFrom(s.pos - |raw|, s, VariableLengthValue(|raw'|, raw', value'), s1)
  {
    LoopStep(value, raw, b);
    NoTerminatorStep(s, s1);
    ExtendRaw(s, raw, b, s1, raw');
    if b < 128 {
      Terminated(s.pos - |raw|, s, raw', value', s1);
    }
  }

  /** The bytes read so far, one longer: still the input's bytes up to the cursor. */
  lemma ExtendRaw(s: Cursor, raw: seq<byte>, b: byte, s1: Cursor, raw': seq<byte>)
    requires 1 <= |raw| <= s.pos && raw == s.data[s.pos - |raw|..s.pos] && AllContinued(raw)
    requires s.pos < |s.data| && b == s.data[s.pos] && s1 == Stream(s.data, s.pos + 1)
    requires raw' == raw + [b]
    ensures |raw'| == |raw| + 1 && s1.pos - |raw'| == s.pos - |raw| && raw' == s1.data[s1.pos - |raw'|..s1.pos]
    ensures b >= 128 ==> AllContinued(raw')
    ensures b < 128 ==> IsVlv(raw')
  {
    assert raw' == s.data[s.pos - |raw|..s1.pos];
    assert raw'[..|raw|] == raw;
  }

  /** The continuation-marked base-128 digits of v, k of them. */
  function Continued(v: nat, k: nat): (r: seq<byte>)
    ensures |r| == k && AllContinued(r)
  {
    if k == 0 then [] else Continued(v / 128, k - 1) + [128 + v % 128]
  }

  /** The n-byte VLV encoding of value (its low 7n bits). */
  function EncodeVlv(value: nat, n: nat): (r: seq<byte>)
    requires n >= 1
    ensures |r| == n && IsVlv(r)
  {
    var r := Continued(value / 128, n - 1) + [value % 128];
    assert r[..n - 1] == Continued(value / 128, n - 1);
    r
  }

  lemma {:induction false} ContinuedOfDigits(digits: seq<byte>)
    requires AllContinued(digits)
    ensures Continued(Base128(digits), |digits|) == digits
    decreases |digits|
  {
    if |digits| > 0 {
      var init := digits[..|digits| - 1];
      ContinuedOfDigits(init);
      Shift128(Base128(init), digits[|digits| - 1] % 128);
      assert init + [digits[|digits| - 1]] == digits;
    }
  }

  lemma {:induction false} DigitsOfContinued(v: nat, k: nat)
    requires v < Pow(128, k)
    ensures Base128(Continued(v, k)) == v
    decreases k
  {
    if k > 0 {
      var init := Continued(v / 128, k - 1);
      DropDigit(v, k, Pow(128, k - 1));
      DigitsOfContinued(v / 128, k - 1);
      assert (init + [128 + v % 128])[..k - 1] == init;
      assert v == v / 128 * 128 + v % 128;
    }
  }

  /** Appending a digit shifts the value up by seven bits. */
  lemma Base128Snoc(init: seq<byte>, d: byte)
    ensures Base128(init + [d]) == Base128(init) * 128 + d % 128
  {
    assert (init + [d])[..|init|] == init;
  }

  /** Re-encoding a decoded value in as many bytes reproduces the bytes read. */
  lemma EncodeOfDecode(raw: seq<byte>)
    requires IsVlv(raw)
    ensures EncodeVlv(Base128(raw), |raw|) == raw
  {
    var n := |raw|;
    var init, last := raw[..n - 1], raw[n - 1];
    assert init + [last] == raw;
    var v := Base128(raw);
    LastDigit(init, last);
    assert v / 128 == Base128(init) && v % 128 == last;
    ContinuedOfDigits(init);
    EncodeSplit(v, n);
    assert EncodeVlv(v, n) == init + [last];
  }

  /** A final digit below 128 is the value's remainder, and the digits before it its quotient. */
  lemma LastDigit(init: seq<byte>, last: byte)
    requires last < 128
    ensures Base128(init + [last]) / 128 == Base128(init) && Base128(init + [last]) % 128 == last
  {
    Base128Snoc(init, last);
    Shift128(Base128(init), last);
  }

  lemma EncodeSplit(v: nat, n: nat)
    requires n >= 1
    ensures EncodeVlv(v, n) == Continued(v / 128, n - 1) + [v % 128]
  {
  }

  /** Decoding an n-byte encoding of a value below 128^n gives the value back. */
  lemma DecodeOfEncode(value: nat, n: nat)
    requires n >= 1 && value < Pow(128, n)
    ensures Base128(EncodeVlv(value, n)) == value
  {
    var q, m := value / 128, value % 128;
    var init := Continued(q, n - 1);
    var enc := EncodeVlv(value, n);
    assert enc == init + [m];
    DropDigit(value, n, Pow(128, n - 1));
    DigitsOfContinued(q, n - 1);
    Base128Snoc(init, m);
    Recombine(Base128(enc), q, m, value);
  }

  lemma Recombine(x: nat, hi: nat, lo: nat, value: nat)
    requires x == hi * 128 + lo % 128 && hi == value / 128 && lo == value % 128
    ensures x == value
  {
  }

  /** No complete encoding is a proper prefix of another. */
  lemma PrefixFree(a: seq<byte>, b: seq<byte>)
    requires IsVlv(a) && IsVlv(b)
    requires |a| <= |b| && a == b[..|a|]
    ensures a == b
  {
  }

  /** A slice of a slice, from the same start. */
  lemma SliceOfSlice(d: seq<byte>, i: nat, j: nat, k: nat)
    requires i <= k <= j <= |d|
    ensures d[i..j][..k - i] == d[i..k]
  {
  }

  /** A decode starting where a complete encoding starts has read that encoding. */
  lemma DecodedIsPrefix(s: Cursor, raw: seq<byte>, v: VariableLengthValue, s': Cursor)
    requires IsVlv(raw) && s.pos + |raw| <= |s.data| && s.data[s.pos..s.pos + |raw|] == raw
    requires DecodedFrom(s.pos, s, v, s')
    ensures v == VariableLengthValue(|raw|, raw, Base128(raw)) && s' == Stream(s.data, s.pos + |raw|)
  {
    var m, n := |raw|, |v.rawData|;
    if n <= m {
      SliceOfSlice(s.data, s.pos, s.pos + m, s.pos + n);
      PrefixFree(v.rawData, raw);
    } else {
      SliceOfSlice(s.data, s.pos, s.pos + n, s.pos + m);
      PrefixFree(raw, v.rawData);
    }
  }

  /** The decoder reads exactly the complete encoding that starts at the cursor. */
  lemma DecodesPrefix(s: Cursor, raw: seq<byte>)
    requires IsVlv(raw) && s.pos + |raw| <= |s.data| && s.data[s.pos..s.pos + |raw|] == raw
    ensures ReadVlv(s) == Ok((VariableLengthValue(|raw|, raw, Base128(raw)), Stream(s.data, s.pos + |raw|)))
  {
    assert s.data[s.pos + |raw| - 1] == raw[|raw| - 1];
    var r := ReadVlv(s);
    DecodedIsPrefix(s, raw, r.value.0, r.value.1);
  }

  /** Encoding then decoding: the value, its length, and the cursor just past it. */
  lemma RoundTrip(value: nat, n: nat, rest: seq<byte>)
    requires n >= 1 && value < Pow(128, n)
    ensures var raw := EncodeVlv(value, n);
      ReadVlv(Stream(raw + rest, 0)) == Ok((VariableLengthValue(n, raw, value), Stream(raw + rest, n)))
  {
    var raw := EncodeVlv(value, n);
    assert (raw + rest)[0..n] == raw;
    DecodeOfEncode(value, n);
    DecodesPrefix(Stream(raw + rest, 0), raw);
  }

  /** There is no cap on the length: n - 1 continuation bytes and a terminator decode as n bytes. */
  lemma NoLengthCap(n: nat)
    requires n >= 1
    ensures ReadVlv(Stream(seq(n - 1, _ => 0x80) + [0], 0)).Ok?
    ensures ReadVlv(Stream(seq(n - 1, _ => 0x80) + [0], 0)).value.0.length == n
  {
    var raw: seq<byte> := seq(n - 1, _ => 0x80) + [0];
    assert raw[..n - 1] == seq(n - 1, _ => 0x80);
    assert raw[0..n] == raw;
    DecodesPrefix(Stream(raw, 0), raw);
  }

  /** The three inputs of the decoder tests, read from one stream as the mock does. */
  lemma TwoByteVector()
    ensures ReadVlv(Stream([0x84, 0x18, 0x00, 0x3C], 0)) ==
      Ok((VariableLengthValue(2, [0x84, 0x18], 536), Stream([0x84, 0x18, 0x00, 0x3C], 2)))
  {
    var raw: seq<byte> := [0x84, 0x18];
    var data: seq<byte> := [0x84, 0x18, 0x00, 0x3C];
    assert data[0..2] == raw && raw[..1] == [0x84] && [0x84][..0] == [];
    assert Base128(raw) == 536;
    DecodesPrefix(Stream(data, 0), raw);
  }

  lemma ZeroVector()
    ensures ReadVlv(Stream([0x00, 0x3C], 2)) == Err(EndOfData)
    ensures ReadVlv(Stream([0x00, 0x3C], 0)) == Ok((VariableLengthValue(1, [0x00], 0), Stream([0x00, 0x3C], 1)))
  {
    var data: seq<byte> := [0x00, 0x3C];
    assert data[0..1] == [0x00] && [0x00][..0] == [];
    DecodesPrefix(Stream(data, 0), [0x00]);
  }

  lemma SixtyVector()
    ensures ReadVlv(Stream([0x00, 0x3C], 1)) == Ok((VariableLengthValue(1, [0x3C], 60), Stream([0x00, 0x3C], 2)))
  {
    var data: seq<byte> := [0x00, 0x3C];
    assert data[1..2] == [0x3C] && [0x3C][..0] == [];
    DecodesPrefix(Stream(data, 1), [0x3C]);
  }
}
