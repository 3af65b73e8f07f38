/** The encodings that the decoders of variable length data undo, and what they encode. */
module ExceptionEncodings {

  import opened ExceptionLeb128

  /** `v` in exactly `k` groups, padded if it needs fewer. */
  function EncodeUnsigned(v: nat, k: nat): (bytes: seq<Byte>)
    requires k > 0 && v < Pow2(7 * k)
    ensures |bytes| == k
  {
    if k == 1 then assert Pow2(7) == 128 by { Pow2Group(0); } [v]
    else
      assert v / 128 < Pow2(7 * (k - 1)) by { Pow2Group(7 * (k - 1)); }
      [128 + v % 128] + EncodeUnsigned(v / 128, k - 1)
  }

  predicate FitsSigned(v: int, k: nat)
    requires k > 0
  {
    0 <= v + Pow2(7 * k - 1) && v < Pow2(7 * k - 1)
  }

  lemma FitsShifted(v: int, k: nat)
    requires k > 1 && FitsSigned(v, k)
    ensures FitsSigned(v / 128, k - 1)
  {
    Pow2Group(7 * (k - 1) - 1);
  }

  lemma FitsOne(v: int)
    ensures FitsSigned(v, 1) <==> -64 <= v < 64
  {
    assert Pow2(6) == 64 by { assert Pow2(3) == 8; }
  }

  function EncodeSigned(v: int, k: nat): (bytes: seq<Byte>)
    requires k > 0 && FitsSigned(v, k)
    ensures |bytes| == k
    decreases k
  {
    if k == 1 then FitsOne(v); [v % 128]
    else FitsShifted(v, k); [128 + v % 128] + EncodeSigned(v / 128, k - 1)
  }

  /** The bytes at `p` are `bytes`. */
  predicate Lies(mem: seq<Byte>, p: nat, bytes: seq<Byte>) {
    p + |bytes| <= |mem| && mem[p..p + |bytes|] == bytes
  }

  lemma LiesRest(mem: seq<Byte>, p: nat, first: seq<Byte>, rest: seq<Byte>)
    requires Lies(mem, p, first + rest)
    ensures Lies(mem, p, first) && Lies(mem, p + |first|, rest)
  {
    assert mem[p..p + |first|] == (first + rest)[..|first|];
    assert mem[p + |first|..p + |first| + |rest|] == (first + rest)[|first|..];
  }

  /** Round trip, padded encodings included: wherever the `k` groups of `v` lie and whatever
      follows, the decoded value is `v` and the length is `k`. */
  lemma {:induction false} UnsignedUndoesEncode(mem: seq<Byte>, p: nat, v: nat, k: nat)
    requires k > 0 && v < Pow2(7 * k) && Lies(mem, p, EncodeUnsigned(v, k))
    ensures Groups(mem, p) == k && Unsigned(mem, p) == v
    decreases k
  {
    if k == 1 {
      assert Pow2(7) == 128 by { Pow2Group(0); }
      assert mem[p] == mem[p..p + 1][0] == v;
    } else {
      Pow2Group(7 * (k - 1));
      LiesRest(mem, p, [128 + v % 128], EncodeUnsigned(v / 128, k - 1));
      assert mem[p] == mem[p..p + 1][0] == 128 + v % 128;
      UnsignedUndoesEncode(mem, p + 1, v / 128, k - 1);
    }
  }

  lemma {:induction false} SignedUndoesEncode(mem: seq<Byte>, p: nat, v: int, k: nat)
    requires k > 0 && FitsSigned(v, k) && Lies(mem, p, EncodeSigned(v, k))
    ensures Groups(mem, p) == k && Signed(mem, p) == v
    decreases k
  {
    if k == 1 {
      FitsOne(v);
      assert mem[p] == mem[p..p + 1][0] == v % 128;
    } else {
      FitsShifted(v, k);
      LiesRest(mem, p, [128 + v % 128], EncodeSigned(v / 128, k - 1));
      assert mem[p] == mem[p..p + 1][0] == 128 + v % 128;
      SignedUndoesEncode(mem, p + 1, v / 128, k - 1);
    }
  }

  lemma {:induction false} UnsignedGroup(mem: seq<Byte>, p: nat, k: nat)
    requires p < |mem| && mem[p] >= 128 && Groups(mem, p) == k + 1 && k > 0
    requires Unsigned(mem, p + 1) < Pow2(7 * k)
    ensures Unsigned(mem, p) < Pow2(7 * (k + 1))
    ensures EncodeUnsigned(Unsigned(mem, p), k + 1) == [mem[p]] + EncodeUnsigned(Unsigned(mem, p + 1), k)
  {
    hide Pow2;
    Pow2Group(7 * k);
    assert Unsigned(mem, p) / 128 == Unsigned(mem, p + 1) && Unsigned(mem, p) % 128 == mem[p] - 128;
  }

  /** The other way round: the bytes of an encoding are the encoding of its value in as many
      groups, so no two values share an encoding of the same length. */
  lemma {:induction false} EncodeUndoesUnsigned(mem: seq<Byte>, p: nat)
    requires Groups(mem, p) > 0
    ensures var k := Groups(mem, p);
            Unsigned(mem, p) < Pow2(7 * k) && mem[p..p + k] == EncodeUnsigned(Unsigned(mem, p), k)
    decreases |mem| - p
  {
    hide Pow2;
    var k := Groups(mem, p);
    if mem[p] < 128 {
      Pow2Zero();
      Pow2Group(0);
    } else {
      EncodeUndoesUnsigned(mem, p + 1);
      UnsignedGroup(mem, p, k - 1);
      assert mem[p..p + k] == [mem[p]] + mem[p + 1..p + k];
    }
  }

  lemma SignedGroup(mem: seq<Byte>, p: nat, k: nat)
    requires p < |mem| && mem[p] >= 128 && Groups(mem, p) == k + 1 && k > 0
    requires FitsSigned(Signed(mem, p + 1), k)
    ensures FitsSigned(Signed(mem, p), k + 1)
    ensures EncodeSigned(Signed(mem, p), k + 1) == [mem[p]] + EncodeSigned(Signed(mem, p + 1), k)
  {
    hide Pow2;
    Pow2Group(7 * k - 1);
    assert Signed(mem, p) / 128 == Signed(mem, p + 1) && Signed(mem, p) % 128 == mem[p] - 128;
  }

  lemma {:induction false} EncodeUndoesSigned(mem: seq<Byte>, p: nat)
    requires Groups(mem, p) > 0
    ensures var k := Groups(mem, p);
            FitsSigned(Signed(mem, p), k) && mem[p..p + k] == EncodeSigned(Signed(mem, p), k)
    decreases |mem| - p
  {
    hide Pow2, FitsSigned;
    var k := Groups(mem, p);
    if mem[p] < 128 {
      FitsOne(Signed(mem, p));
    } else {
      EncodeUndoesSigned(mem, p + 1);
      SignedGroup(mem, p, k - 1);
      assert mem[p..p + k] == [mem[p]] + mem[p + 1..p + k];
    }
  }

  /** The value of an encoding, split into its last group and the bits below. */
  lemma {:induction false} LastGroup(mem: seq<Byte>, p: nat, k: nat) returns (low: nat)
    requires 0 < k == Groups(mem, p)
    ensures mem[p + k - 1] < 128 && low < Pow2(7 * (k - 1))
    ensures Unsigned(mem, p) == low + Pow2(7 * (k - 1)) * mem[p + k - 1]
    ensures var last := mem[p + k - 1];
            Signed(mem, p) == low + Pow2(7 * (k - 1)) * (last as int - (if last >= 64 then 128 else 0))
    decreases k
  {
    hide Pow2;
    if k == 1 {
      Pow2Zero();
      LastByte(mem, p);
      low := 0;
    } else {
      var rest := LastGroup(mem, p + 1, k - 1);
      Pow2Group(7 * (k - 2));
      var last := mem[p + k - 1];
      low := (mem[p] - 128) + 128 * rest;
      Scales(Pow2(7 * (k - 2)), last);
      Scales(Pow2(7 * (k - 2)), last as int - (if last >= 64 then 128 else 0));
    }
  }

  lemma Scales(a: int, b: int)
    ensures 128 * (a * b) == (128 * a) * b
  {
  }

  lemma Pow2Int()
    ensures Pow2(28) == 0x1000_0000 && Pow2(31) == 0x8000_0000 && Pow2(32) == 0x1_0000_0000
  {
    Pow2Word();
    assert Pow2(28) == 2 * Pow2(27) && Pow2(29) == 2 * Pow2(28) && Pow2(30) == 2 * Pow2(29);
    assert Pow2(31) == 2 * Pow2(30) && Pow2(32) == 2 * Pow2(31);
  }

  /** Five groups stay inside an `int` exactly if their value does, signed or not. */
  lemma FiveGroupsIff(mem: seq<Byte>, p: nat)
    requires Groups(mem, p) == 5
    ensures InInt(mem, p) <==> Unsigned(mem, p) < Pow2(31)
    ensures InInt(mem, p) <==> 0 <= Signed(mem, p) < Pow2(31)
  {
    hide Pow2, Groups, Unsigned, Signed;
    var low := LastGroup(mem, p, 5);
    Pow2Int();
  }

  lemma UnsignedFits(mem: seq<Byte>, p: nat)
    requires InInt(mem, p)
    ensures Unsigned(mem, p) < Pow2(31)
  {
    hide Pow2, Groups, Unsigned, Signed;
    if Groups(mem, p) == 5 {
      FiveGroupsIff(mem, p);
    } else {
      EncodeUndoesUnsigned(mem, p);
      Pow2Grows(7 * Groups(mem, p), 31);
    }
  }

  /** What the decoder hands to an `int64_t` is the signed value itself. */
  lemma SignedSurvives(mem: seq<Byte>, p: nat)
    requires InInt(mem, p)
    ensures AsSigned(Wrapped(Signed(mem, p))) == Signed(mem, p)
    ensures 0 <= Signed(mem, p) + Pow2(27) && Signed(mem, p) < Pow2(31)
  {
    hide Pow2, Groups, Unsigned, Signed;
    Pow2Word();
    Pow2Int();
    if Groups(mem, p) == 5 {
      FiveGroupsIff(mem, p);
    } else {
      EncodeUndoesSigned(mem, p);
      Pow2Grows(7 * Groups(mem, p) - 1, 27);
    }
  }
}
