/**
 Bytes, the two base-256 readings of a byte run (Python's `int.from_bytes`),
 and the read-only byte source the decoders pull from.
 */
module Bytes {

  type byte = b: int | 0 <= b < 256

  function Pow(base: nat, e: nat): (r: nat)
    ensures base >= 1 ==> r >= 1
  {
    if e == 0 then 1 else base * Pow(base, e - 1)
  }

  function Min(a: nat, b: nat): nat
  {
    if a <= b then a else b
  }

  /** `int.from_bytes(bs, "big")`: most significant byte first; 0 for no bytes. */
  function BigEndian(bs: seq<byte>): nat
  {
    if |bs| == 0 then 0 else BigEndian(bs[..|bs| - 1]) * 256 + bs[|bs| - 1]
  }

  /** `int.from_bytes(bs, "little")`: byte i weighs 256^i. */
  function LittleEndian(bs: seq<byte>): nat
  {
    if |bs| == 0 then 0 else bs[0] + 256 * LittleEndian(bs[1..])
  }

  function Reverse<T>(s: seq<T>): (r: seq<T>)
    ensures |r| == |s|
    ensures forall i :: 0 <= i < |s| ==> r[i] == s[|s| - 1 - i]
  {
    if |s| == 0 then [] else Reverse(s[1..]) + [s[0]]
  }

  /** The w-byte big-endian encoding of n (its low 8w bits). */
  function ToBigEndian(n: nat, w: nat): (r: seq<byte>)
    ensures |r| == w
  {
    if w == 0 then [] else ToBigEndian(n / 256, w - 1) + [n % 256]
  }

  lemma {:induction false} BigEndianBound(bs: seq<byte>)
    ensures BigEndian(bs) < Pow(256, |bs|)
    decreases |bs|
  {
    if |bs| > 0 {
      BigEndianBound(bs[..|bs| - 1]);
    }
  }

  lemma {:induction false} LittleEndianBound(bs: seq<byte>)
    ensures LittleEndian(bs) < Pow(256, |bs|)
    decreases |bs|
  {
    if |bs| > 0 {
      LittleEndianBound(bs[1..]);
    }
  }

  /** Reading the bytes least significant first is reading them reversed most significant first. */
  lemma {:induction false} LittleIsReversedBig(bs: seq<byte>)
    ensures LittleEndian(bs) == BigEndian(Reverse(bs))
    decreases |bs|
  {
    if |bs| > 0 {
      var rest := Reverse(bs[1..]);
      LittleIsReversedBig(bs[1..]);
      assert Reverse(bs) == rest + [bs[0]];
      assert (rest + [bs[0]])[..|rest|] == rest;
    }
  }

  /** Encoding a value that fits, then reading it back, gives the value. */
  lemma {:induction false} BigEndianOfEncoding(n: nat, w: nat)
    requires n < Pow(256, w)
    ensures BigEndian(ToBigEndian(n, w)) == n
    decreases w
  {
    if w > 0 {
      var init := ToBigEndian(n / 256, w - 1);
      BigEndianOfEncoding(n / 256, w - 1);
      assert (init + [n % 256])[..w - 1] == init;
    }
  }

  /** Reading a byte run, then encoding the value in as many bytes, gives the run. */
  lemma {:induction false} EncodingOfBigEndian(bs: seq<byte>)
    ensures ToBigEndian(BigEndian(bs), |bs|) == bs
    decreases |bs|
  {
    if |bs| > 0 {
      var init := bs[..|bs| - 1];
      EncodingOfBigEndian(init);
      assert BigEndian(bs) / 256 == BigEndian(init);
      assert init + [bs[|bs| - 1]] == bs;
    }
  }

  lemma LeadStep(be: nat, lead: nat, p: nat, last: nat)
    requires be >= lead * p
    ensures be * 256 + last >= lead * (256 * p)
  {
    assert be * 256 >= (lead * p) * 256;
  }

  /** A big-endian number is at least its leading byte times its weight. */
  lemma {:induction false} BigEndianLead(bs: seq<byte>)
    requires |bs| >= 1
    ensures BigEndian(bs) >= bs[0] * Pow(256, |bs| - 1)
    decreases |bs|
  {
    if |bs| == 1 {
      assert bs[..0] == [];
    } else {
      var init := bs[..|bs| - 1];
      BigEndianLead(init);
      LeadStep(BigEndian(init), bs[0], Pow(256, |bs| - 2), bs[|bs| - 1]);
    }
  }

  /** A read-only byte source: the whole input and a cursor into it. */
  datatype Stream = Stream(data: seq<byte>, pos: nat)

  type Cursor = s: Stream | s.pos <= |s.data| witness Stream([], 0)

  function Remaining(s: Cursor): nat
  {
    |s.data| - s.pos
  }

  /**
   `read(n)` on a buffered file: up to n bytes, fewer when the input runs
   out; never an error.
   */
  function Read(s: Cursor, n: nat): (r: (seq<byte>, Cursor))
    ensures |r.0| == Min(n, Remaining(s))
    ensures r.1.data == s.data && r.1.pos == s.pos + |r.0|
    ensures r.0 == s.data[s.pos..r.1.pos]
  {
    var end := s.pos + Min(n, Remaining(s));
    (s.data[s.pos..end], Stream(s.data, end))
  }

  /** `int.from_bytes(read(n), "big")`: a short read yields a smaller number, an empty one 0. */
  function ReadBigEndian(s: Cursor, n: nat): (r: (nat, Cursor))
    ensures r.0 == BigEndian(s.data[s.pos..s.pos + Min(n, Remaining(s))])
    ensures r.1 == Read(s, n).1
  {
    var (bs, s1) := Read(s, n);
    (BigEndian(bs), s1)
  }
}
