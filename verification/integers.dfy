/**
 IntBuilder: a byte run read as a big-endian and as a little-endian integer,
 together with the narrowest unsigned C type of at least its width.
 */
module Integers {
  import opened Bytes
  import opened Results

  datatype CType = UInt8 | UInt16 | UInt32 | UInt64

  /** Width of a C type, in bytes. */
  function Width(t: CType): nat
  {
    match t
    case UInt8 => 1
    case UInt16 => 2
    case UInt32 => 4
    case UInt64 => 8
  }

  /** t is the narrowest C type that holds n bytes. */
  ghost predicate Narrowest(t: CType, n: nat)
  {
    && n <= Width(t)
    && forall u: CType :: n <= Width(u) ==> Width(t) <= Width(u)
  }

  datatype IntBuilder = IntBuilder(
    originalData: seq<byte>,
    cType: Option<CType>,
    byteLength: nat,
    littleEndian: nat,
    bigEndian: nat)

  /** The width classification, decided on the bit count as the source does. */
  function Classify(byteLength: nat): (r: Result<Option<CType>>)
    ensures r.Err? <==> byteLength == 0
    ensures r.Err? ==> r.error == LengthException
    ensures r.Ok? ==> (r.value.Some? <==> byteLength <= 8)
    ensures r.Ok? && r.value.Some? ==> Narrowest(r.value.value, byteLength)
  {
    var bits := byteLength * 8;
    if 32 < bits <= 64 then Ok(Some(UInt64))
    else if 16 < bits <= 32 then Ok(Some(UInt32))
    else if 8 < bits <= 16 then Ok(Some(UInt16))
    else if 4 < bits <= 8 then Ok(Some(UInt8))
    else if byteLength == 0 then Err(LengthException)
    else Ok(None)
  }

  /** `IntBuilder(input_bytes)`. */
  function Build(input: seq<byte>): (r: Result<IntBuilder>)
    ensures r.Err? <==> |input| == 0
    ensures r.Err? ==> r.error == LengthException
    ensures r.Ok? ==> r.value.originalData == input && r.value.byteLength == |input|
    ensures r.Ok? ==> (r.value.cType.Some? <==> |input| <= 8)
    ensures r.Ok? && r.value.cType.Some? ==> Narrowest(r.value.cType.value, |input|)
    ensures r.Ok? ==> r.value.bigEndian < Pow(256, |input|) && r.value.littleEndian < Pow(256, |input|)
    ensures r.Ok? ==> r.value.littleEndian == BigEndian(Reverse(input))
    ensures r.Ok? ==> ToBigEndian(r.value.bigEndian, |input|) == input
  {
    var cType :- Classify(|input|);
    BigEndianBound(input);
    LittleEndianBound(input);
    LittleIsReversedBig(input);
    EncodingOfBigEndian(input);
    Ok(IntBuilder(input, cType, |input|, LittleEndian(input), BigEndian(input)))
  }

  /** A single byte reads the same both ways and is classed uint8. */
  lemma SingleByte(b: byte)
    ensures Build([b]) == Ok(IntBuilder([b], Some(UInt8), 1, b, b))
  {
    assert [b][1..] == [] && [b][..0] == [];
    assert BigEndian([b]) == b && LittleEndian([b]) == b;
    assert Classify(1) == Ok(Some(UInt8));
    assert Reverse([b]) == [b];
  }

  /** Both readings are computed even when no C type is wide enough. */
  lemma WideRun(input: seq<byte>)
    requires |input| > 8
    ensures Build(input).Ok? && Build(input).value.cType == None
    ensures Build(input).value.bigEndian == BigEndian(input)
    ensures Build(input).value.littleEndian == LittleEndian(input)
  {
  }

  /** The byte runs exercised by the IntBuilder tests. */
  lemma EmptyRun()
    ensures Build([]) == Err(LengthException)
  {
  }

  lemma TwoByteRun()
    ensures Build([0x01, 0xA4]) == Ok(IntBuilder([0x01, 0xA4], Some(UInt16), 2, 41985, 420))
  {
    var two: seq<byte> := [0x01, 0xA4];
    assert two[..1] == [0x01] && two[1..] == [0xA4];
    assert BigEndian([0x01]) == 1 by {
      assert [0x01][..0] == [];
    }
    assert LittleEndian([0xA4]) == 0xA4 by {
      assert [0xA4][1..] == [];
    }
  }

  lemma FourByteRun()
    ensures Build([0xFF, 0xFF, 0xFF, 0xFF]).value.cType == Some(UInt32)
    ensures Build([0xFF, 0xFF, 0xFF, 0xFF]).value.bigEndian == 4294967295
    ensures Build([0xFF, 0xFF, 0xFF, 0xFF]).value.littleEndian == 4294967295
  {
    var one: seq<byte> := [0xFF];
    assert one + one == [0xFF, 0xFF];
    assert one + one + one == [0xFF, 0xFF, 0xFF];
    assert BigEndian(one) == 255 && LittleEndian(one) == 255 by {
      assert one[..0] == [] && one[1..] == [];
    }
    assert BigEndian(one + one) == 65535 && LittleEndian(one + one) == 65535 by {
      assert (one + one)[..1] == one && (one + one)[1..] == one;
    }
    assert BigEndian(one + one + one) == 16777215 && LittleEndian(one + one + one) == 16777215 by {
      assert (one + one + one)[..2] == one + one && (one + one + one)[1..] == one + one;
    }
    var four := one + one + one + one;
    assert four == [0xFF, 0xFF, 0xFF, 0xFF];
    assert four[..3] == one + one + one && four[1..] == one + one + one;
  }
}
