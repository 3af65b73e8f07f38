/** Variable length data (section 7.6 of DWARF 3): the two decoders of the personality
    routine, and the encodings they undo. Memory is a sequence of bytes, an address is an
    index into it, and `uintptr_t` values are naturals below `WORD`. */
module ExceptionLeb128 {

  type Byte = b: int | 0 <= b < 256

  const WORD: nat := 0x1_0000_0000_0000_0000

  function Pow2(n: nat): (r: nat)
    ensures r > 0
  {
    if n == 0 then 1 else 2 * Pow2(n - 1)
  }

  lemma {:induction false} Pow2Adds(m: nat, n: nat)
    ensures Pow2(m + n) == Pow2(m) * Pow2(n)
  {
    if m > 0 {
      Pow2Adds(m - 1, n);
      assert Pow2(m + n) == 2 * (Pow2(m - 1) * Pow2(n));
    }
  }

  lemma Pow2Group(n: nat)
    ensures Pow2(n + 7) == 128 * Pow2(n)
  {
    Pow2Adds(n, 7);
    assert Pow2(7) == 128 by { assert Pow2(4) == 16; }
  }

  /** `a << s`. */
  function ShiftLeft(a: nat, s: nat): nat {
    a * Pow2(s)
  }

  /** Bitwise or of naturals. */
  function BitOr(a: nat, b: nat): nat {
    if a == 0 then b
    else if b == 0 then a
    else 2 * BitOr(a / 2, b / 2) + (if a % 2 == 1 || b % 2 == 1 then 1 else 0)
  }

  lemma {:induction false} HalfShifted(b: nat, s: nat)
    requires s > 0
    ensures b * Pow2(s) % 2 == 0 && b * Pow2(s) / 2 == b * Pow2(s - 1)
  {
    assert b * Pow2(s) == 2 * (b * Pow2(s - 1));
  }

  /** Disjoint bits add up. */
  lemma {:induction false} OrDisjoint(a: nat, b: nat, s: nat)
    requires a < Pow2(s)
    ensures BitOr(a, b * Pow2(s)) == a + b * Pow2(s)
  {
    if s > 0 && a > 0 && b > 0 {
      HalfShifted(b, s);
      OrDisjoint(a / 2, b, s - 1);
    }
  }

  // ----- What the bytes mean -----

  /** The length of the encoding that starts at `p`, or 0 if the memory ends first. */
  function Groups(mem: seq<Byte>, p: nat): (k: nat)
    ensures k > 0 ==> p + k <= |mem|
    decreases |mem| - p
  {
    if p >= |mem| then 0
    else if mem[p] < 128 then 1
    else
      var rest := Groups(mem, p + 1);
      if rest == 0 then 0 else rest + 1
  }

  /** The encodings whose shifts stay inside an `int`, which is what the source shifts: at most
      four groups, or five of which the last one adds at most three bits. */
  predicate InInt(mem: seq<Byte>, p: nat) {
    var k := Groups(mem, p);
    1 <= k <= 4 || (k == 5 && mem[p + 4] < 8)
  }

  function Unsigned(mem: seq<Byte>, p: nat): nat
    requires Groups(mem, p) > 0
    decreases |mem| - p
  {
    if mem[p] < 128 then mem[p] else (mem[p] - 128) + 128 * Unsigned(mem, p + 1)
  }

  function Signed(mem: seq<Byte>, p: nat): int
    requires Groups(mem, p) > 0
    decreases |mem| - p
  {
    if mem[p] < 64 then mem[p]
    else if mem[p] < 128 then mem[p] - 128
    else (mem[p] - 128) + 128 * Signed(mem, p + 1)
  }

  /** A signed value held in a `uintptr_t`. */
  function Wrapped(v: int): (r: nat)
    ensures r < WORD
  {
    v % WORD
  }

  /** The same bits read as an `int64_t`. */
  function AsSigned(v: nat): int {
    if v < WORD / 2 then v else v - WORD
  }

  // ----- The decoders -----

  lemma Scaled(low: nat, scale: nat, b: nat)
    requires low < scale && b < 128
    ensures 0 <= b * scale && low + b * scale < 128 * scale
  {
    assert b * scale <= 127 * scale;
  }

  /** One more group above the bits gathered so far. */
  lemma GroupAdds(low: nat, shift: nat, b: nat)
    requires low < Pow2(shift) && b < 128
    ensures 0 <= b * Pow2(shift)
    ensures BitOr(low, b * Pow2(shift)) == low + b * Pow2(shift) < Pow2(shift + 7) == 128 * Pow2(shift)
  {
    hide Pow2, BitOr;
    OrDisjoint(low, b, shift);
    Pow2Group(shift);
    Scaled(low, Pow2(shift), b);
  }

  lemma Regroup(low: int, scale: int, b: int, rest: int)
    ensures low + scale * (b + 128 * rest) == (low + b * scale) + (128 * scale) * rest
  {
  }

  lemma LastNegative(low: int, scale: int, b: int)
    ensures low + scale * b == low + b * scale
    ensures low + scale * (b - 128) == (low + b * scale) - 128 * scale
  {
  }

  lemma Pow2Grows(m: nat, n: nat)
    requires m <= n
    ensures Pow2(m) <= Pow2(n)
  {
  }

  /** The bits `low` gathered from the groups before `next`, and the groups still to come. */
  ghost predicate Gathered(mem: seq<Byte>, data: nat, next: nat, low: nat, shift: nat) {
    && data <= next && shift == 7 * (next - data) && low < Pow2(shift)
    && 0 < Groups(mem, next) && Groups(mem, data) == next - data + Groups(mem, next)
    && Unsigned(mem, data) == low + Pow2(shift) * Unsigned(mem, next)
    && Signed(mem, data) == low + Pow2(shift) * Signed(mem, next)
  }

  lemma GatheredNone(mem: seq<Byte>, data: nat)
    requires 0 < Groups(mem, data)
    ensures Gathered(mem, data, data, 0, 0)
  {
    Pow2Zero();
    hide Pow2;
  }

  lemma {:induction false} GatheredMore(mem: seq<Byte>, data: nat, next: nat, low: nat, shift: nat)
    requires Gathered(mem, data, next, low, shift) && mem[next] >= 128
    ensures Gathered(mem, data, next + 1, BitOr(low, ShiftLeft(mem[next] % 128, shift)), shift + 7)
  {
    hide Pow2, BitOr;
    GroupAdds(low, shift, mem[next] % 128);
    Regroup(low, Pow2(shift), mem[next] - 128, Unsigned(mem, next + 1));
    Regroup(low, Pow2(shift), mem[next] - 128, Signed(mem, next + 1));
  }

  lemma GatheredLast(mem: seq<Byte>, data: nat, next: nat, low: nat, shift: nat)
    requires Gathered(mem, data, next, low, shift) && mem[next] < 128
    ensures Groups(mem, data) == next + 1 - data
    ensures var all := BitOr(low, ShiftLeft(mem[next], shift));
            && Unsigned(mem, data) == all < Pow2(shift + 7)
            && Signed(mem, data) == all - (if mem[next] >= 64 then Pow2(shift + 7) else 0)
  {
    hide Pow2, BitOr, Groups, Unsigned, Signed;
    LastByte(mem, next);
    GroupAdds(low, shift, mem[next]);
    LastNegative(low, Pow2(shift), mem[next]);
  }

  lemma LastByte(mem: seq<Byte>, p: nat)
    requires p < |mem| && mem[p] < 128
    ensures Groups(mem, p) == 1 && Unsigned(mem, p) == mem[p]
    ensures Signed(mem, p) == mem[p] as int - (if mem[p] >= 64 then 128 else 0)
  {
  }

  method ReadULEB128(mem: seq<Byte>, data: nat) returns (result: nat, next: nat)
    requires InInt(mem, data)
    ensures result == Unsigned(mem, data)
    ensures next == data + Groups(mem, data)
  {
    hide Pow2, ShiftLeft, BitOr, Gathered, Groups, Unsigned, InInt;
    SomeGroups(mem, data);
    result := 0;
    var shift := 0;
    next := data;
    var more := true;
    GatheredNone(mem, data);
    while more
      invariant next <= |mem|
      invariant more ==> Gathered(mem, data, next, result, shift)
      invariant !more ==> next == data + Groups(mem, data) && shift == 7 * Groups(mem, data)
      invariant !more ==> Unsigned(mem, data) == result < Pow2(shift)
      decreases more, |mem| - next
    {
      InMemory(mem, data, next, result, shift);
      var byte := mem[next];
      if byte >= 128 {
        GatheredMore(mem, data, next, result, shift);
      } else {
        GatheredLast(mem, data, next, result, shift);
      }
      next := next + 1;
      result := BitOr(result, ShiftLeft(byte % 128, shift));
      shift := shift + 7;
      more := byte >= 128;
    }
  }

  lemma SomeGroups(mem: seq<Byte>, p: nat)
    requires InInt(mem, p)
    ensures 0 < Groups(mem, p) <= 5
  {
  }

  lemma InMemory(mem: seq<Byte>, data: nat, next: nat, low: nat, shift: nat)
    requires Gathered(mem, data, next, low, shift)
    ensures next < |mem| && shift == 7 * (next - data)
  {
  }

  lemma Pow2Zero()
    ensures Pow2(0) == 1
  {
  }

  lemma Pow2Small()
    ensures Pow2(1) == 2 && Pow2(9) == 512
  {
    assert Pow2(5) == 32;
  }

  lemma Pow2Word()
    ensures Pow2(64) == WORD && Pow2(27) == 0x800_0000
  {
    hide Pow2;
    Pow2Small();
    Pow2Adds(9, 9);
    Pow2Adds(9, 18);
    Pow2Adds(1, 9);
    Pow2Adds(27, 27);
    Pow2Adds(54, 10);
  }

  /** `~0 << shift`, widened to a `uintptr_t`, lies above the bits gathered so far. */
  lemma SignBits(result: nat, shift: nat)
    requires result < Pow2(shift) && shift <= 28
    ensures result < Pow2(shift) <= WORD && BitOr(result, WORD - Pow2(shift)) == result + WORD - Pow2(shift)
  {
    hide Pow2, BitOr;
    Pow2Adds(shift, 64 - shift);
    Pow2Word();
    Pow2Grows(shift, 64);
    OrDisjoint(result, Pow2(64 - shift) - 1, shift);
    LessOne(Pow2(64 - shift), Pow2(shift));
  }

  lemma LessOne(a: nat, b: nat)
    requires a > 0
    ensures (a - 1) * b == b * a - b
  {
  }

  lemma WrapsNegative(v: int)
    requires 0 <= v + WORD && v < 0
    ensures Wrapped(v) == v + WORD
  {
  }

  method ReadSLEB128(mem: seq<Byte>, data: nat) returns (result: nat, next: nat)
    requires InInt(mem, data)
    ensures result == Wrapped(Signed(mem, data))
    ensures next == data + Groups(mem, data)
  {
    hide Pow2, ShiftLeft, BitOr, Gathered, Groups, Signed, Wrapped, InInt;
    SomeGroups(mem, data);
    result := 0;
    var shift := 0;
    next := data;
    var more := true;
    var byte: Byte := 0;
    GatheredNone(mem, data);
    while more
      invariant next <= |mem|
      invariant more ==> Gathered(mem, data, next, result, shift)
      invariant !more ==> next == data + Groups(mem, data) && shift == 7 * Groups(mem, data) && result < Pow2(shift)
      invariant !more ==> data < next && byte == mem[next - 1]
      invariant !more ==> Signed(mem, data) == result - (if byte % 128 >= 64 then Pow2(shift) else 0)
      decreases more, |mem| - next
    {
      InMemory(mem, data, next, result, shift);
      byte := mem[next];
      if byte >= 128 {
        GatheredMore(mem, data, next, result, shift);
      } else {
        GatheredLast(mem, data, next, result, shift);
      }
      next := next + 1;
      result := BitOr(result, ShiftLeft(byte % 128, shift));
      shift := shift + 7;
      more := byte >= 128;
    }
    if byte % 128 >= 64 && shift < 64 {
      NegativeInFour(mem, data);
      SignBits(result, shift);
      WrapsNegative(Signed(mem, data));
      result := BitOr(result, WORD - Pow2(shift));
    } else {
      Pow2Grows(shift, 64);
      Pow2Word();
      WrapsSmall(result);
    }
  }

  lemma NegativeInFour(mem: seq<Byte>, p: nat)
    requires InInt(mem, p) && mem[p + Groups(mem, p) - 1] >= 8
    ensures Groups(mem, p) <= 4
  {
  }

  lemma WrapsSmall(v: int)
    requires 0 <= v < WORD
    ensures Wrapped(v) == v
  {
  }

  /** The examples of DWARF 3, figures 22 and 23. */
  lemma DwarfExamples()
    ensures Unsigned([2], 0) == 2 && Unsigned([127], 0) == 127 && Unsigned([0x80, 1], 0) == 128
    ensures Unsigned([0x81, 1], 0) == 129 && Unsigned([0x82, 1], 0) == 130 && Unsigned([0xb9, 0x64], 0) == 12857
    ensures Signed([2], 0) == 2 && Signed([0x7e], 0) == -2
    ensures Signed([0xff, 0], 0) == 127 && Signed([0x81, 0x7f], 0) == -127
    ensures Signed([0x80, 1], 0) == 128 && Signed([0x80, 0x7f], 0) == -128
    ensures Signed([0x81, 1], 0) == 129 && Signed([0xff, 0x7e], 0) == -129
  {
  }
}
