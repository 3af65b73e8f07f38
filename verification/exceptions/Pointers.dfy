/** Encoded pointers of the exception tables: `readEncodedPointer`. */
module ExceptionPointers {

  import opened ExceptionLeb128
  import opened ExceptionEncodings

  const OMIT: Byte := 0xff

  /** The value formats, by the low half of the encoding byte. */
  datatype Format = Fixed(size: nat) | FixedSigned(size: nat) | ULEB | SLEB | NoFormat

  function FormatOf(encoding: Byte): Format {
    match encoding % 16
    case 0x00 => Fixed(8)
    case 0x01 => ULEB
    case 0x02 => Fixed(2)
    case 0x03 => Fixed(4)
    case 0x04 => Fixed(8)
    case 0x09 => SLEB
    case 0x0A => FixedSigned(2)
    case 0x0B => FixedSigned(4)
    case 0x0C => FixedSigned(8)
    case _ => NoFormat
  }

  // ----- Loads -----

  /** The `n` bytes at `p`, least significant first. */
  function Load(mem: seq<Byte>, p: nat, n: nat): nat
    requires p + n <= |mem|
    decreases n
  {
    if n == 0 then 0 else mem[p] + 256 * Load(mem, p + 1, n - 1)
  }

  function LoadSigned(mem: seq<Byte>, p: nat, n: nat): int
    requires 0 < n && p + n <= |mem|
  {
    var v := Load(mem, p, n);
    if mem[p + n - 1] >= 128 then v - Pow2(8 * n) else v
  }

  // ----- What an encoded pointer means -----

  /** A decoded value and the address behind it; or the program aborts; or the bytes lie
      outside the memory, or beyond four groups, where the source defines nothing. */
  datatype Decoded = Value(value: nat, next: nat) | Aborts | Undefined

  function Plain(mem: seq<Byte>, p: nat, format: Format): Decoded {
    match format
    case Fixed(n) => if p + n <= |mem| then Value(Wrapped(Load(mem, p, n)), p + n) else Undefined
    case FixedSigned(n) =>
      if 0 < n && p + n <= |mem| then Value(Wrapped(LoadSigned(mem, p, n)), p + n) else Undefined
    case ULEB => if InInt(mem, p) then Value(Unsigned(mem, p), p + Groups(mem, p)) else Undefined
    case SLEB => if InInt(mem, p) then Value(Wrapped(Signed(mem, p)), p + Groups(mem, p)) else Undefined
    case NoFormat => Aborts
  }

  /** Plain, relative to the pointer's own address, or not supported. */
  function Based(d: Decoded, p: nat, encoding: Byte): Decoded {
    if !d.Value? then d
    else match encoding / 16 % 8
         case 0 => d
         case 1 => Value(Wrapped(d.value + p), d.next)
         case _ => Aborts
  }

  function Indirected(mem: seq<Byte>, d: Decoded, encoding: Byte): Decoded {
    if !d.Value? || encoding < 128 then d
    else if d.value + 8 <= |mem| then Value(Wrapped(Load(mem, d.value, 8)), d.next)
    else Undefined
  }

  function DecodePointer(mem: seq<Byte>, p: nat, encoding: Byte): (d: Decoded)
    ensures d.Value? ==> d.next >= p
  {
    if encoding == OMIT then Value(0, p)
    else Indirected(mem, Based(Plain(mem, p, FormatOf(encoding)), p, encoding), encoding)
  }

  // ----- The reader -----

  method ReadEncodedPointer(mem: seq<Byte>, data: nat, encoding: Byte)
    returns (aborted: bool, result: nat, next: nat)
    requires DecodePointer(mem, data, encoding) != Undefined
    ensures DecodePointer(mem, data, encoding) == if aborted then Aborts else Value(result, next)
  {
    hide Pow2, Load, LoadSigned, Unsigned, Signed, Groups, InInt, Wrapped;
    aborted, result, next := false, 0, data;
    if encoding == OMIT {
      return;
    }
    var p := data;
    match encoding % 16 {
      case 0x00 => result := Wrapped(Load(mem, p, 8)); p := p + 8;
      case 0x01 => result, p := ReadULEB128(mem, p);
      case 0x09 => result, p := ReadSLEB128(mem, p);
      case 0x02 => result := Wrapped(Load(mem, p, 2)); p := p + 2;
      case 0x03 => result := Wrapped(Load(mem, p, 4)); p := p + 4;
      case 0x04 => result := Wrapped(Load(mem, p, 8)); p := p + 8;
      case 0x0A => result := Wrapped(LoadSigned(mem, p, 2)); p := p + 2;
      case 0x0B => result := Wrapped(LoadSigned(mem, p, 4)); p := p + 4;
      case 0x0C => result := Wrapped(LoadSigned(mem, p, 8)); p := p + 8;
      case _ => aborted := true; return;
    }
    match encoding / 16 % 8 {
      case 0 =>
      case 1 => result := Wrapped(result + data);
      case _ => aborted := true; return;
    }
    if encoding >= 128 {
      result := Wrapped(Load(mem, result, 8));
    }
    next := p;
  }

  // ----- Round trips -----

  function Store(v: nat, n: nat): (bytes: seq<Byte>)
    ensures |bytes| == n
  {
    if n == 0 then [] else [v % 256] + Store(v / 256, n - 1)
  }

  lemma Pow2Byte(n: nat)
    ensures Pow2(8 * (n + 1)) == 256 * Pow2(8 * n)
  {
    Pow2Adds(8 * n, 8);
    assert Pow2(8) == 256 by { assert Pow2(4) == 16; }
  }

  lemma {:induction false} LoadUndoesStore(mem: seq<Byte>, p: nat, v: nat, n: nat)
    requires v < Pow2(8 * n) && Lies(mem, p, Store(v, n))
    ensures Load(mem, p, n) == v
    decreases n
  {
    hide Pow2;
    if n == 0 {
      Pow2Zero();
    } else {
      Pow2Byte(n - 1);
      LiesRest(mem, p, [v % 256], Store(v / 256, n - 1));
      assert mem[p] == mem[p..p + 1][0] == v % 256;
      LoadUndoesStore(mem, p + 1, v / 256, n - 1);
    }
  }

  lemma Pow2Even(n: nat)
    requires n > 0
    ensures Pow2(n) % 2 == 0
  {
  }

  /** The top byte of a stored value tells its upper half. */
  lemma {:induction false} TopByte(v: nat, n: nat)
    requires 0 < n && v < Pow2(8 * n)
    ensures Store(v, n)[n - 1] >= 128 <==> 2 * v >= Pow2(8 * n)
  {
    hide Pow2;
    Pow2Byte(n - 1);
    if n == 1 {
      Pow2Zero();
    } else {
      Pow2Even(8 * (n - 1));
      TopByte(v / 256, n - 1);
    }
  }

  /** A signed value of `n` bytes, stored as its two's complement, is loaded back. */
  lemma LoadSignedUndoesStore(mem: seq<Byte>, p: nat, v: int, n: nat)
    requires 0 < n && 0 <= 2 * v + Pow2(8 * n) && 2 * v < Pow2(8 * n)
    requires Lies(mem, p, Store(if v < 0 then v + Pow2(8 * n) else v, n))
    ensures LoadSigned(mem, p, n) == v
  {
    hide Pow2;
    var u := if v < 0 then v + Pow2(8 * n) else v;
    LoadUndoesStore(mem, p, u, n);
    TopByte(u, n);
    assert mem[p + n - 1] == mem[p..p + n][n - 1];
  }

  predicate Encodable(v: int, format: Format, k: nat) {
    match format
    case Fixed(n) => n <= 8 && 0 <= v < Pow2(8 * n)
    case FixedSigned(n) => 0 < n <= 8 && 0 <= 2 * v + Pow2(8 * n) && 2 * v < Pow2(8 * n)
    case ULEB => 0 < k <= 5 && 0 <= v < Pow2(7 * k) && (k == 5 ==> v < Pow2(31))
    case SLEB => 0 < k <= 5 && FitsSigned(v, k) && (k == 5 ==> 0 <= v < Pow2(31))
    case NoFormat => false
  }

  /** A value in a plain format; the LEB formats take `k` groups. */
  function EncodePlain(v: int, format: Format, k: nat): seq<Byte>
    requires Encodable(v, format, k)
  {
    match format
    case Fixed(n) => Store(v, n)
    case FixedSigned(n) => Store(if v < 0 then v + Pow2(8 * n) else v, n)
    case ULEB => EncodeUnsigned(v, k)
    case SLEB => EncodeSigned(v, k)
  }

  /** A written ULEB number stays inside an `int` when it is read. */
  lemma ULEBUndoesEncode(mem: seq<Byte>, p: nat, v: nat, k: nat)
    requires Encodable(v, ULEB, k) && Lies(mem, p, EncodeUnsigned(v, k))
    ensures InInt(mem, p) && Groups(mem, p) == k && Unsigned(mem, p) == v
  {
    hide Pow2, Groups, Unsigned, EncodeUnsigned, Lies;
    UnsignedUndoesEncode(mem, p, v, k);
    if k == 5 {
      FiveGroupsIff(mem, p);
    }
  }

  lemma PlainUndoesEncode(mem: seq<Byte>, p: nat, format: Format, v: int, k: nat)
    requires Encodable(v, format, k) && Lies(mem, p, EncodePlain(v, format, k))
    ensures Plain(mem, p, format) == Value(Wrapped(v), p + |EncodePlain(v, format, k)|)
  {
    hide Pow2, Store, EncodeUnsigned, EncodeSigned, Load, LoadSigned, Unsigned, Signed, Groups, Wrapped;
    match format {
      case Fixed(n) => LoadUndoesStore(mem, p, v, n);
      case FixedSigned(n) => LoadSignedUndoesStore(mem, p, v, n);
      case ULEB =>
        ULEBUndoesEncode(mem, p, v, k);
        Pow2Grows(7 * k, 64);
        Pow2Word();
        WrapsSmall(v);
      case SLEB =>
        SignedUndoesEncode(mem, p, v, k);
        if k == 5 {
          FiveGroupsIff(mem, p);
        }
      case NoFormat =>
    }
  }

  /** What the bits of an encoding byte stand for: bits 0-2 give the size and bit 3 the sign,
      as in DW_EH_PE_udata4 (0x03) and DW_EH_PE_sdata4 (0x0b); absolute pointers (0x00) have
      eight bytes, and there is no signed form of them. */
  ghost predicate Means(encoding: Byte, format: Format) {
    var size, signed := encoding % 8, encoding / 8 % 2 == 1;
    match size
    case 0 => !signed && format == Fixed(8)
    case 1 => format == if signed then SLEB else ULEB
    case 2 => format == if signed then FixedSigned(2) else Fixed(2)
    case 3 => format == if signed then FixedSigned(4) else Fixed(4)
    case 4 => format == if signed then FixedSigned(8) else Fixed(8)
    case _ => false
  }

  lemma FormatMeans(encoding: Byte, format: Format)
    ensures FormatOf(encoding) == format && format != NoFormat <==> Means(encoding, format)
  {
  }

  /** Exactly these encoding bytes abort: those without a format, and those relative to anything
      but the pointer's own address. The byte for an omitted pointer reads nothing and gives null. */
  lemma AbortsIff(mem: seq<Byte>, p: nat, encoding: Byte)
    requires DecodePointer(mem, p, encoding) != Undefined
    ensures DecodePointer(mem, p, encoding) == Aborts <==>
            encoding != 0xff && ((forall format :: !Means(encoding, format)) || encoding / 16 % 8 > 1)
    ensures DecodePointer(mem, p, 0xff) == Value(0, p)
  {
    hide FormatOf, Means, Load, LoadSigned, Unsigned, Signed, Groups, InInt, Wrapped;
    FormatMeans(encoding, FormatOf(encoding));
    forall format | Means(encoding, format) ensures FormatOf(encoding) != NoFormat {
      FormatMeans(encoding, format);
    }
  }

  lemma LoadUndoesWord(mem: seq<Byte>, p: nat, v: nat)
    requires v < WORD && Lies(mem, p, Store(v, 8))
    ensures p + 8 <= |mem| && Wrapped(Load(mem, p, 8)) == v
  {
    hide Pow2, Load, Store;
    Pow2Word();
    LoadUndoesStore(mem, p, v, 8);
  }

  /** Whatever the format, a written value is read back as a `uintptr_t`, past exactly its bytes:
      itself, or as a distance from where it lies if bits 4-6 are 1; and if bit 7 is set, the
      result is the word stored at that address. */
  lemma PointerUndoesEncode(mem: seq<Byte>, p: nat, encoding: Byte, format: Format, v: int, k: nat, target: nat)
    requires Means(encoding, format) && encoding / 16 % 8 <= 1
    requires Encodable(v, format, k) && Lies(mem, p, EncodePlain(v, format, k))
    requires encoding >= 128 ==>
               target < WORD && Lies(mem, (if encoding / 16 % 8 == 1 then p + v else v) % WORD, Store(target, 8))
    ensures DecodePointer(mem, p, encoding) ==
              Value(if encoding >= 128 then target else (if encoding / 16 % 8 == 1 then p + v else v) % WORD,
                    p + |EncodePlain(v, format, k)|)
  {
    hide Pow2, FormatOf, Plain, Encodable, EncodePlain, Lies, Load, Store;
    FormatMeans(encoding, format);
    PlainUndoesEncode(mem, p, format, v, k);
    if encoding >= 128 {
      LoadUndoesWord(mem, (if encoding / 16 % 8 == 1 then p + v else v) % WORD, target);
    }
  }
}
