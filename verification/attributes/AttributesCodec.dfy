/** Encoding attribute sets for bitcode files. In memory the alignment is a biased logarithm
    in bits 16-20; in the file it is a raw 16-bit value in bits 16-31, and the attributes
    above the alignment sit 11 bits higher. */
module AttributesCodec {
  import opened Wrappers

  // ----- Powers of two -----

  predicate IsPowerOf2(v: bv64) {
    v != 0 && v & (v - 1) == 0
  }

  /** Position of the highest bit. */
  function Log2(v: bv64): bv64
    decreases v
  {
    if v <= 1 then 0 else 1 + Log2(v >> 1)
  }

  /** A power of two up to 2^30 is one of these, with these logarithms. */
  lemma Log2Of(f: bv64)
    requires f <= 30
    ensures Log2(1 << f) == f
    decreases f
  {
    if f > 0 {
      var v: bv64 := 1 << f;
      assert v > 1 && v >> 1 == 1 << (f - 1);
      Log2Of(f - 1);
    }
  }

  /** A power of two below 2^32 is `1 << f` for some f. */
  lemma PowerExponent(v: bv64) returns (f: bv64)
    requires IsPowerOf2(v) && v < 0x1_0000_0000
    ensures f <= 31 && v == 1 << f
    decreases v
  {
    if v == 1 {
      f := 0;
    } else {
      assert IsPowerOf2(v >> 1) && v >> 1 < v && v == (v >> 1) << 1;
      f := PowerExponent(v >> 1);
      assert v >> 1 < 0x8000_0000;
      f := f + 1;
    }
  }

  // ----- The alignment field -----

  /** The internal form of a byte alignment; None where the source's assertions fail. */
  function ConstructAlignmentFromInt(i: bv64): Option<bv64> {
    if i == 0 then Some(0)
    else if !IsPowerOf2(i) || i > 0x4000_0000 then None
    else Some((Log2(i) + 1) << 16)
  }

  /** The byte alignment an attribute set carries, 0 for none. */
  function GetAlignmentFromAttrs(a: bv64): bv64 {
    if a & 0x1f_0000 == 0 then 0 else 1 << (((a & 0x1f_0000) >> 16) - 1)
  }

  function AlignmentField(a: bv64): bv64 {
    (a & 0x1f_0000) >> 16
  }

  // ----- The codec -----

  /** Bits 0-15, the same in memory and in the file. */
  function Low(x: bv64): bv64 {
    x & 0xffff
  }

  /** Bits 21-32 of a set in memory. */
  function Above(a: bv64): bv64 {
    a & 0x1_ffe0_0000
  }

  /** Bits 16-31 of an encoded word. */
  function Raw(e: bv64): bv64 {
    e & 0xffff_0000
  }

  /** Bits 32-43 of an encoded word. */
  function High(e: bv64): bv64 {
    e & 0xfff_0000_0000
  }

  function Up11(x: bv64): bv64 {
    x << 11
  }

  function Down11(x: bv64): bv64 {
    x >> 11
  }

  function Down16(x: bv64): bv64 {
    x >> 16
  }

  function Join(low: bv64, middle: bv64, high: bv64): bv64 {
    low | middle | high
  }

  /** The alignment as the bitcode stores it. */
  function AlignmentBit(a: bv64): bv64 {
    if a & 0x1f_0000 != 0 then 0x1_0000 << (((a & 0x1f_0000) - 1) >> 16) else 0
  }

  function Encoded(a: bv64): bv64 {
    Join(Low(a), AlignmentBit(a), Up11(Above(a)))
  }

  /** None where the source's assertion on the alignment fails. */
  function Decoded(e: bv64): Option<bv64> {
    var alignment := Down16(Raw(e));
    if alignment != 0 && !IsPowerOf2(alignment) then None
    else
      var field := ConstructAlignmentFromInt(alignment);
      if field.None? then None else Some(Join(Low(e), field.value, Down11(High(e))))
  }

  lemma BitOf(a: bv64)
    ensures AlignmentBit(a) == if a & 0x1f_0000 != 0 then 0x1_0000 << (((a & 0x1f_0000) - 1) >> 16) else 0
  {
  }

  method EncodeLLVMAttributesForBitcode(attrs: bv64) returns (encodedAttrs: bv64)
    ensures encodedAttrs == Encoded(attrs)
  {
    hide AlignmentBit, Low, Up11, Above;
    encodedAttrs := Low(attrs);
    OrZero(encodedAttrs);
    BitOf(attrs);
    if attrs & 0x1f_0000 != 0 {
      encodedAttrs := encodedAttrs | (0x1_0000 << (((attrs & 0x1f_0000) - 1) >> 16));
    }
    encodedAttrs := encodedAttrs | Up11(Above(attrs));
  }

  method DecodeLLVMAttributesForBitcode(encodedAttrs: bv64) returns (attrs: Option<bv64>)
    ensures attrs == Decoded(encodedAttrs)
  {
    hide Log2, IsPowerOf2, ConstructAlignmentFromInt, Low, Raw, High, Down11, Down16, Join;
    var alignment := Down16(Raw(encodedAttrs));
    if alignment != 0 && !IsPowerOf2(alignment) {
      return None;
    }
    var bits := Low(encodedAttrs);
    OrZero(bits);
    NoAlignment();
    if alignment != 0 {
      var field := ConstructAlignmentFromInt(alignment);
      if field.None? {
        return None;
      }
      bits := bits | field.value;
    }
    JoinIs(Low(encodedAttrs), ConstructAlignmentFromInt(alignment).value, Down11(High(encodedAttrs)));
    bits := bits | Down11(High(encodedAttrs));
    attrs := Some(bits);
  }

  lemma NoAlignment()
    ensures ConstructAlignmentFromInt(0) == Some(0)
  {
  }

  lemma JoinIs(low: bv64, middle: bv64, high: bv64)
    ensures Join(low, middle, high) == low | middle | high
  {
  }

  lemma OrZero(x: bv64)
    ensures x | 0 == x
  {
  }

  // ----- Single facts about bits -----

  /** Three parts on disjoint bits of an encoded word can be told apart again. */
  lemma EncodedSplits(low: bv64, raw: bv64, high: bv64)
    requires Low(low) == low && Raw(raw) == raw && High(high) == high
    ensures var e := Join(low, raw, high);
            Low(e) == low && Raw(e) == raw && High(e) == high
  {
  }

  /** An alignment that leaves the raw bits goes missing there. */
  lemma EncodedLoses(low: bv64, raw: bv64, high: bv64)
    requires Low(low) == low && raw & 0xffff_ffff == 0 && High(high) == high
    ensures Raw(Join(low, raw, high)) == 0
  {
  }

  lemma MemorySplits(low: bv64, f: bv64, above: bv64)
    requires Low(low) == low && f <= 31 && Above(above) == above
    ensures var a := Join(low, f << 16, above);
            Low(a) == low && AlignmentField(a) == f && Above(a) == above
  {
  }

  lemma MemoryJoins(a: bv64)
    ensures AlignmentField(a) <= 31
    ensures Join(Low(a), AlignmentField(a) << 16, Above(a)) == a & 0x1_ffff_ffff
  {
  }

  lemma EncodedJoins(e: bv64)
    ensures Join(Low(e), Raw(e), High(e)) == e & 0xfff_ffff_ffff
  {
  }

  lemma LowIdempotent(x: bv64)
    ensures Low(Low(x)) == Low(x)
  {
  }

  lemma MovesUp(a: bv64)
    ensures High(Up11(Above(a))) == Up11(Above(a)) && Down11(Up11(Above(a))) == Above(a)
  {
  }

  lemma MovesDown(e: bv64)
    ensures Above(Down11(High(e))) == Down11(High(e)) && Up11(Down11(High(e))) == High(e)
  {
  }

  /** A field of at most 16 gives one of the raw bits; a larger one lands above them. */
  lemma SmallField(a: bv64, f: bv64)
    requires f == AlignmentField(a) && 0 < f <= 16
    ensures AlignmentBit(a) == 0x8000 << f && Raw(AlignmentBit(a)) == AlignmentBit(a)
    ensures Down16(AlignmentBit(a)) == 1 << (f - 1)
  {
  }

  lemma LargeField(a: bv64)
    requires AlignmentField(a) > 16
    ensures AlignmentBit(a) & 0xffff_ffff == 0
  {
  }

  lemma ZeroField(a: bv64)
    requires AlignmentField(a) == 0
    ensures AlignmentBit(a) == 0 && Raw(0) == 0 && Down16(0) == 0
  {
  }

  lemma PowerOk(f: bv64, v: bv64)
    requires f <= 15 && v == 1 << f
    ensures IsPowerOf2(v) && 0 < v <= 0x8000 && (f + 1) - 1 == f
  {
  }
}
