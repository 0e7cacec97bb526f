/**
 Bit strings: packed bytes with an exact bit length, a bit order and a padding policy. The conversion
 fills a byte buffer bit by bit; it is specified here by what each bit position reads, which determines
 the bytes completely.
 */
module BitStrings {

  datatype BitOrder = MsbFirst | LsbFirst

  datatype BitPadding = NoPadding | Zero | One

  /** A byte as its eight bits: element k is the bit of weight 2^k. */
  type Byte = b: seq<bool> | |b| == 8 witness seq(8, _ => false)

  datatype BitString = BitString(bytes: seq<Byte>, bitLength: nat, padding: BitPadding, order: BitOrder)

  function And(x: Byte, y: Byte): Byte { seq(8, k requires 0 <= k < 8 => x[k] && y[k]) }

  function Or(x: Byte, y: Byte): Byte { seq(8, k requires 0 <= k < 8 => x[k] || y[k]) }

  function ZeroByte(): Byte { seq(8, _ => false) }

  /** The index of the one bit set by `bit_mask`: `1 << (7 - k)` or `1 << k`, for the k-th bit of a byte. */
  function BitIndex(order: BitOrder, k: nat): nat
    requires k < 8
  {
    if order == MsbFirst then 7 - k else k
  }

  function BitMask(order: BitOrder, position: nat): Byte {
    seq(8, j => j == BitIndex(order, position % 8))
  }

  /** The unused bits of the last byte: `(1 << unused) - 1`, or `0xff << (8 - unused)`. */
  function PaddingMask(order: BitOrder, unused: nat): Byte {
    seq(8, j => if order == MsbFirst then j < unused else j >= 8 - unused)
  }

  function Unused(bitLength: nat): nat {
    (8 - bitLength % 8) % 8
  }

  function ByteLength(bitLength: nat): nat {
    (bitLength + 7) / 8
  }

  /** The validator's check. */
  predicate Valid(b: BitString) {
    && b.bitLength > 0
    && |b.bytes| == ByteLength(b.bitLength)
    && (if Unused(b.bitLength) == 0 then b.padding == NoPadding
        else
          && b.padding != NoPadding
          && var mask := PaddingMask(b.order, Unused(b.bitLength));
             And(b.bytes[|b.bytes| - 1], mask) == if b.padding == One then mask else ZeroByte())
  }

  /** Bit `8 * i + k` of a bit string: the k-th bit of byte i, in the order bits are read. */
  predicate BitAt(bytes: seq<Byte>, order: BitOrder, i: nat, k: nat)
    requires i < |bytes| && k < 8
  {
    bytes[i][BitIndex(order, k)]
  }

  /**
   What a conversion is: every meaningful bit reads the same under the new order, and every unused bit
   reads as the new padding policy says.
   */
  ghost predicate IsConversion(source: BitString, order: BitOrder, padding: BitPadding, target: BitString) {
    && target.bitLength == source.bitLength && target.order == order && target.padding == padding
    && |target.bytes| == |source.bytes|
    && forall i: nat, k: nat :: i < |source.bytes| && k < 8 ==>
         BitAt(target.bytes, order, i, k)
         == (if 8 * i + k < source.bitLength then BitAt(source.bytes, source.order, i, k) else padding == One)
  }

  /** The bytes are what their bits read. */
  lemma {:induction false} SameBytes(xs: seq<Byte>, ys: seq<Byte>, order: BitOrder)
    requires |xs| == |ys|
    requires forall i: nat, k: nat :: i < |xs| && k < 8 ==> BitAt(xs, order, i, k) == BitAt(ys, order, i, k)
    ensures xs == ys
  {
    forall i: nat, j: nat | i < |xs| && j < 8
      ensures xs[i][j] == ys[i][j]
    {
      assert BitAt(xs, order, i, BitIndex(order, j)) == BitAt(ys, order, i, BitIndex(order, j));
    }
    forall i: nat | i < |xs|
      ensures xs[i] == ys[i]
    {
    }
  }

  lemma {:induction false} TestBit(bytes: seq<Byte>, order: BitOrder, position: nat)
    requires position < 8 * |bytes|
    ensures And(bytes[position / 8], BitMask(order, position)) != ZeroByte()
            <==> BitAt(bytes, order, position / 8, position % 8)
  {
    var both := And(bytes[position / 8], BitMask(order, position));
    assert both[BitIndex(order, position % 8)] == BitAt(bytes, order, position / 8, position % 8);
    assert !BitAt(bytes, order, position / 8, position % 8) ==> both == ZeroByte();
  }

  /** The buffer after the first `position` bits. */
  function Filled(source: BitString, order: BitOrder, position: nat): (bytes: seq<Byte>)
    requires position <= 8 * |source.bytes|
    ensures |bytes| == |source.bytes|
  {
    if position == 0 then seq(|source.bytes|, _ => ZeroByte())
    else
      var before := Filled(source, order, position - 1);
      var i := (position - 1) / 8;
      if BitAt(source.bytes, source.order, i, (position - 1) % 8)
      then before[i := Or(before[i], BitMask(order, position - 1))]
      else before
  }

  lemma {:induction false} FilledReads(source: BitString, order: BitOrder, position: nat, i: nat, k: nat)
    requires position <= 8 * |source.bytes| && i < |source.bytes| && k < 8
    ensures BitAt(Filled(source, order, position), order, i, k)
            == (8 * i + k < position && BitAt(source.bytes, source.order, i, k))
  {
    if position > 0 {
      FilledReads(source, order, position - 1, i, k);
      assert 8 * ((position - 1) / 8) + (position - 1) % 8 == position - 1;
    }
  }

  /** The source's byte-buffer loop; its value has passed the validator's length check. */
  method Convert(source: BitString, order: BitOrder, padding: BitPadding) returns (target: BitString)
    requires source.bitLength > 0 && |source.bytes| == ByteLength(source.bitLength)
    ensures IsConversion(source, order, padding, target)
  {
    var n := |source.bytes|;
    var buffer := new Byte[n](_ => ZeroByte());
    var position := 0;
    while position < source.bitLength
      invariant 0 <= position <= source.bitLength
      invariant buffer[..] == Filled(source, order, position)
    {
      TestBit(source.bytes, source.order, position);
      if And(source.bytes[position / 8], BitMask(source.order, position)) != ZeroByte() {
        buffer[position / 8] := Or(buffer[position / 8], BitMask(order, position));
      }
      position := position + 1;
    }
    ghost var filled := buffer[..];
    var unused := Unused(source.bitLength);
    if unused > 0 && padding == One {
      buffer[n - 1] := Or(buffer[n - 1], PaddingMask(order, unused));
    }
    PaddedIsConversion(source, order, padding, filled, buffer[..]);
    target := BitString(buffer[..], source.bitLength, padding, order);
  }

  /** The meaningful bits as filled, and the padding on top of them. */
  lemma {:induction false} PaddedIsConversion(source: BitString, order: BitOrder, padding: BitPadding,
                                              filled: seq<Byte>, bytes: seq<Byte>)
    requires source.bitLength > 0 && |source.bytes| == ByteLength(source.bitLength)
    requires filled == Filled(source, order, source.bitLength)
    requires
      var n, unused := |filled|, Unused(source.bitLength);
      bytes == if unused > 0 && padding == One
               then filled[n - 1 := Or(filled[n - 1], PaddingMask(order, unused))]
               else filled
    ensures IsConversion(source, order, padding, BitString(bytes, source.bitLength, padding, order))
  {
    var n, unused := |filled|, Unused(source.bitLength);
    assert source.bitLength == 8 * n - unused;
    forall i: nat, k: nat | i < n && k < 8
      ensures BitAt(bytes, order, i, k)
              == (if 8 * i + k < source.bitLength then BitAt(source.bytes, source.order, i, k) else padding == One)
    {
      FilledReads(source, order, source.bitLength, i, k);
    }
  }

  /** The conversion determines its result. */
  lemma {:induction false} ConversionIsUnique(source: BitString, order: BitOrder, padding: BitPadding,
                                              t: BitString, u: BitString)
    requires IsConversion(source, order, padding, t) && IsConversion(source, order, padding, u)
    ensures t == u
  {
    SameBytes(t.bytes, u.bytes, order);
  }

  /** The last byte matches its mask exactly when each unused bit reads as the padding policy says. */
  lemma {:induction false} MaskMeaning(last: Byte, order: BitOrder, unused: nat, one: bool)
    requires 0 < unused < 8
    ensures
      var mask := PaddingMask(order, unused);
      And(last, mask) == (if one then mask else ZeroByte())
      <==> forall k: nat :: 8 - unused <= k < 8 ==> last[BitIndex(order, k)] == one
  {
    var mask := PaddingMask(order, unused);
    var expected := if one then mask else ZeroByte();
    if And(last, mask) == expected {
      forall k: nat | 8 - unused <= k < 8
        ensures last[BitIndex(order, k)] == one
      {
        assert And(last, mask)[BitIndex(order, k)] == expected[BitIndex(order, k)];
      }
    }
    if forall k: nat :: 8 - unused <= k < 8 ==> last[BitIndex(order, k)] == one {
      forall j | 0 <= j < 8
        ensures And(last, mask)[j] == expected[j]
      {
        assert BitIndex(order, BitIndex(order, j)) == j;
      }
    }
  }

  /** The validator's masks say what the unused bits read. */
  lemma {:induction false} ValidMeaning(b: BitString)
    requires b.bitLength > 0 && |b.bytes| == ByteLength(b.bitLength)
    ensures Valid(b) <==>
            && (b.bitLength % 8 == 0 <==> b.padding == NoPadding)
            && forall i: nat, k: nat :: i < |b.bytes| && k < 8 && 8 * i + k >= b.bitLength ==>
                 BitAt(b.bytes, b.order, i, k) == (b.padding == One)
  {
    var unused, n := Unused(b.bitLength), |b.bytes|;
    assert b.bitLength == 8 * n - unused;
    if unused > 0 {
      var one := b.padding == One;
      MaskMeaning(b.bytes[n - 1], b.order, unused, one);
      assert forall k: nat :: 8 - unused <= k < 8 ==>
               BitAt(b.bytes, b.order, n - 1, k) == b.bytes[n - 1][BitIndex(b.order, k)];
    }
  }

  /** The converted string passes the validator exactly when the padding policy fits the alignment. */
  lemma {:induction false} ConvertedIsValid(source: BitString, order: BitOrder, padding: BitPadding, target: BitString)
    requires Valid(source) && IsConversion(source, order, padding, target)
    ensures Valid(target) <==> (source.bitLength % 8 == 0 <==> padding == NoPadding)
  {
    ValidMeaning(target);
  }

  /** Converting back with the original order and padding restores the original bytes. */
  lemma {:induction false} ConversionRoundTrip(source: BitString, order: BitOrder, padding: BitPadding,
                                               target: BitString, back: BitString)
    requires Valid(source)
    requires IsConversion(source, order, padding, target)
    requires IsConversion(target, source.order, source.padding, back)
    ensures back == source
  {
    ValidMeaning(source);
    SameBytes(back.bytes, source.bytes, source.order);
  }
}
