/** What survives the attribute bitcode, and where it lies. */
module AttributesRoundTrips {
  import opened AttributesCodec
  import opened Wrappers

  /** The raw alignment of word `e` is that of alignment field `f`. */
  predicate RawIs(e: bv64, f: bv64) {
    f <= 16 && Down16(Raw(e)) == if f == 0 then 0 else 1 << (f - 1)
  }

  /** Decoding a word, given the field its raw alignment stands for. */
  lemma DecodedOf(e: bv64, f: bv64)
    requires RawIs(e, f)
    ensures Decoded(e) == Some(Join(Low(e), f << 16, Down11(High(e))))
  {
    hide Log2, IsPowerOf2, Join, Low, Down11, High, Down16, Raw;
    if f > 0 {
      PowerOk(f - 1, 1 << (f - 1));
      Log2Of(f - 1);
    }
  }

  /** The parts of an encoded set whose alignment field is at most 16. */
  lemma {:induction false} EncodedOf(a: bv64)
    requires AlignmentField(a) <= 16
    ensures var e := Encoded(a);
            && Low(e) == Low(a) && RawIs(e, AlignmentField(a)) && Raw(e) == AlignmentBit(a) && High(e) == Up11(Above(a))
  {
    hide Join, Low, Above, Raw, High, Up11, Down11, Down16, AlignmentBit, AlignmentField;
    var f := AlignmentField(a);
    if f == 0 {
      ZeroField(a);
    } else {
      SmallField(a, f);
    }
    LowIdempotent(a);
    MovesUp(a);
    EncodedSplits(Low(a), AlignmentBit(a), Up11(Above(a)));
  }

  lemma DecodesSmall(a: bv64)
    requires AlignmentField(a) <= 16
    ensures Decoded(Encoded(a)) == Some(a & 0x1_ffff_ffff)
  {
    hide Encoded, Decoded, Join, Low, Above, Raw, High, Up11, Down11, Down16, AlignmentBit, AlignmentField, RawIs;
    EncodedOf(a);
    DecodedOf(Encoded(a), AlignmentField(a));
    MovesUp(a);
    MemoryJoins(a);
  }

  /** A field above 16 is lost: the decoded set has no alignment. */
  lemma DecodesLarge(a: bv64)
    requires AlignmentField(a) > 16
    ensures Decoded(Encoded(a)).Some? && AlignmentField(Decoded(Encoded(a)).value) == 0
  {
    hide Decoded, Join, Low, Above, Raw, High, Up11, Down11, AlignmentBit, AlignmentField;
    LargeField(a);
    LowIdempotent(a);
    MovesUp(a);
    EncodedLoses(Low(a), AlignmentBit(a), Up11(Above(a)));
    var e := Encoded(a);
    hide Encoded;
    DecodedOf(e, 0);
    LowIdempotent(e);
    MovesDown(e);
    MemorySplits(Low(e), 0, Down11(High(e)));
  }

  /** Decoding undoes encoding exactly for the sets on bits 0-32 whose alignment is at most
      2^15, which is less than the 2^30 that the source's own assertion lets through. */
  lemma DecodeUndoesEncode(a: bv64)
    ensures Decoded(Encoded(a)) == Some(a) <==> a < 0x2_0000_0000 && AlignmentField(a) <= 16
  {
    hide Decoded, Encoded, AlignmentField;
    if AlignmentField(a) <= 16 {
      DecodesSmall(a);
    } else {
      DecodesLarge(a);
    }
  }

  /** A word that decodes has the raw alignment of some field. */
  lemma RawField(e: bv64) returns (f: bv64)
    requires RawAlignmentOk(e)
    ensures RawIs(e, f)
  {
    RawSize(e);
    if Raw(e) == 0 {
      f := 0;
    } else {
      f := PowerExponent(Down16(Raw(e)));
      f := f + 1;
    }
  }

  lemma RawSize(e: bv64)
    ensures Down16(Raw(e)) <= 0xffff && (Down16(Raw(e)) == 0 <==> Raw(e) == 0)
  {
  }

  /** What encoding a decoded word yields. */
  lemma EncodedDecoded(e: bv64)
    requires RawAlignmentOk(e)
    ensures Decoded(e).Some? && Encoded(Decoded(e).value) == e & 0xfff_ffff_ffff
  {
    var f := RawField(e);
    hide Join, Low, Above, Raw, High, Up11, Down11, Down16, AlignmentBit, AlignmentField, Decoded, IsPowerOf2;
    DecodedOf(e, f);
    var a := Join(Low(e), f << 16, Down11(High(e)));
    LowIdempotent(e);
    MovesDown(e);
    MemorySplits(Low(e), f, Down11(High(e)));
    if f == 0 {
      ZeroField(a);
    } else {
      SmallField(a, f);
    }
    EncodedJoins(e);
  }

  /** The source's assertion: bits 16-31 are clear or a single bit. */
  predicate RawAlignmentOk(e: bv64) {
    Raw(e) == 0 || IsPowerOf2(Down16(Raw(e)))
  }

  /** Encoding undoes decoding exactly for words on bits 0-43 with at most one raw alignment bit. */
  lemma EncodeUndoesDecode(e: bv64)
    ensures (Decoded(e).Some? && Encoded(Decoded(e).value) == e) <==> e < 0x1000_0000_0000 && RawAlignmentOk(e)
  {
    hide Encoded, Low, High, Down11, Join, Down16, Raw;
    RawSize(e);
    if RawAlignmentOk(e) {
      hide Decoded;
      EncodedDecoded(e);
    }
  }

  /** What alignments there are: none, and the powers of two up to 2^30. */
  lemma ConstructedIff(i: bv64)
    ensures ConstructAlignmentFromInt(i).Some? <==> i == 0 || exists f :: IsPower(i, f)
  {
    if i != 0 && ConstructAlignmentFromInt(i).Some? {
      var f := PowerOfTwo(i);
      assert IsPower(i, f);
    } else if f :| IsPower(i, f) {
    }
  }

  predicate IsPower(i: bv64, f: bv64) {
    f <= 30 && i == 1 << f
  }

  /** An alignment put into any attribute set that has none is read back from it, and the rest
      of the set is as before. */
  lemma AlignmentRoundTrip(a: bv64, i: bv64)
    requires AlignmentField(a) == 0 && ConstructAlignmentFromInt(i).Some?
    ensures var b := a | ConstructAlignmentFromInt(i).value;
            GetAlignmentFromAttrs(b) == i && Low(b) == Low(a) && Above(b) == Above(a)
  {
    hide AlignmentField, GetAlignmentFromAttrs, ConstructAlignmentFromInt, IsPowerOf2, Low, Above;
    if i == 0 {
      NoAlignment();
      NothingRead(a);
    } else {
      var f := PowerOfTwo(i);
      FieldAdded(a, f);
      FieldRead(a | ConstructAlignmentFromInt(i).value, f);
    }
  }

  /** An alignment is two to the exponent that its field holds, plus one. */
  lemma PowerOfTwo(i: bv64) returns (f: bv64)
    requires i != 0 && ConstructAlignmentFromInt(i).Some?
    ensures f <= 30 && i == 1 << f && ConstructAlignmentFromInt(i) == Some((f + 1) << 16)
  {
    hide Log2, IsPowerOf2;
    f := PowerExponent(i);
    Log2Of(f);
  }

  lemma NothingRead(a: bv64)
    requires AlignmentField(a) == 0
    ensures GetAlignmentFromAttrs(a) == 0
  {
  }

  lemma FieldAdded(a: bv64, f: bv64)
    requires AlignmentField(a) == 0 && f <= 30
    ensures var b := a | ((f + 1) << 16);
            AlignmentField(b) == f + 1 && Low(b) == Low(a) && Above(b) == Above(a)
  {
  }

  lemma FieldRead(b: bv64, f: bv64)
    requires AlignmentField(b) == f + 1 && f <= 30
    ensures GetAlignmentFromAttrs(b) == 1 << f
  {
  }

  lemma ExponentBound(i: bv64, f: bv64)
    requires f <= 30 && i == 1 << f
    ensures f + 1 <= 16 <==> i <= 0x8000
    ensures AlignmentField((f + 1) << 16) == f + 1 && (f + 1) << 16 < 0x2_0000_0000
  {
  }

  /** Of the alignments that can be constructed, exactly those up to 2^15 survive the bitcode. */
  lemma AlignmentSurvivesIff(i: bv64)
    requires i == 0 || (IsPowerOf2(i) && i <= 0x4000_0000)
    ensures var a := ConstructAlignmentFromInt(i);
            a.Some? && (Decoded(Encoded(a.value)) == Some(a.value) <==> i <= 0x8000)
  {
    hide Decoded, Encoded, AlignmentField;
    if i == 0 {
      DecodeUndoesEncode(0);
      ZeroHasNone();
    } else {
      var f := PowerExponent(i);
      Log2Of(f);
      ExponentBound(i, f);
      DecodeUndoesEncode((f + 1) << 16);
    }
  }

  lemma ZeroHasNone()
    ensures AlignmentField(0) == 0
  {
  }

  // ----- Where the attributes lie -----

  lemma PartsByShifts(a: bv64, e: bv64)
    ensures Low(a) == a & 0xffff && Low(e) == e & 0xffff && Up11(Above(a)) >> 32 == (a >> 21) & 0xfff
    ensures Down16(Raw(e)) == (e >> 16) & 0xffff && Down11(High(e)) >> 21 == High(e) >> 32 == (e >> 32) & 0xfff
    ensures (e & 0xfff_ffff_ffff) >> 44 == 0
  {
  }

  lemma FieldOf(a: bv64)
    ensures var f := AlignmentField(a);
            f <= 31 && GetAlignmentFromAttrs(a) == if f == 0 then 0 else 1 << (f - 1)
  {
  }

  /** An encoded set, by position: bits 16-31 are the byte alignment itself, bits 0-15 stay in
      place, bits 21-32 lie 11 bits higher, and there is nothing else. */
  lemma EncodedLayout(a: bv64)
    requires AlignmentField(a) <= 16
    ensures var e := Encoded(a);
            && (e >> 16) & 0xffff == GetAlignmentFromAttrs(a) && e & 0xffff == a & 0xffff
            && (e >> 32) & 0xfff == (a >> 21) & 0xfff && e >> 44 == 0
  {
    hide Low, Above, Raw, High, Up11, Down11, Down16, Join, GetAlignmentFromAttrs, AlignmentBit, AlignmentField;
    EncodedOf(a);
    var e := Encoded(a);
    EncodedJoins(e);
    assert e == e & 0xfff_ffff_ffff;
    hide Encoded;
    FieldOf(a);
    PartsByShifts(a, e);
  }

  /** A word decodes exactly if it passes the source's assertion, and then, by position: its byte
      alignment is what bits 16-31 of the word hold, and the other attributes come from bits 0-15
      and 32-43. */
  lemma DecodedLayout(e: bv64)
    ensures Decoded(e).Some? <==> RawAlignmentOk(e)
    ensures RawAlignmentOk(e) ==>
            var a := Decoded(e).value;
            && GetAlignmentFromAttrs(a) == (e >> 16) & 0xffff && a & 0xffff == e & 0xffff
            && (a >> 21) & 0xfff == (e >> 32) & 0xfff && a >> 33 == 0
  {
    RawSize(e);
    if RawAlignmentOk(e) {
      var f := RawField(e);
      hide Low, Above, Raw, High, Up11, Down11, Down16, Join, GetAlignmentFromAttrs, Decoded;
      hide RawAlignmentOk;
      DecodedOf(e, f);
      PartsByShifts(e, e);
      LowIdempotent(e);
      MovesDown(e);
    } else {
      hide Log2, Low, High, Join, Down11, Down16, Raw, IsPowerOf2, ConstructAlignmentFromInt;
    }
  }
}
