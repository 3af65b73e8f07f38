/** Areas written the way the tables are laid out, and that they describe their functions: the
    assumption about a frame's tables can be met for every list of types. */
module ExceptionTableWriter {

  import opened ExceptionLeb128
  import opened ExceptionEncodings
  import opened ExceptionPointers
  import opened ExceptionActions
  import opened ExceptionLsda
  import opened ExceptionTables
  import opened ExceptionCatchFunction
  import opened ExceptionFrames
  import opened Wrappers

  /** Records one behind the other: the type offset in four groups, the distance in one. The
      next record starts one byte after the distance field, which the distance counts from. */
  function WriteChain(chain: seq<nat>): (bytes: seq<Byte>)
    requires chain != [] && forall i :: 0 <= i < |chain| ==> FitsSigned(chain[i], 4)
  {
    OffsetsFit();
    if |chain| == 1 then EncodeSigned(chain[0], 4) + EncodeSigned(0, 1)
    else EncodeSigned(chain[0], 4) + (EncodeSigned(1, 1) + WriteChain(chain[1..]))
  }

  lemma OffsetsFit()
    ensures FitsSigned(0, 1) && FitsSigned(1, 1)
  {
    FitsOne(0);
    FitsOne(1);
  }

  lemma {:induction false} ChainUndoesWrite(mem: seq<Byte>, classInfo: nat, p: nat, chain: seq<nat>)
    requires chain != [] && forall i :: 0 <= i < |chain| ==> FitsSigned(chain[i], 4)
    requires forall i :: 0 <= i < |chain| && chain[i] > 0 ==> TypeAt(mem, classInfo, chain[i]).Some?
    requires Lies(mem, p, WriteChain(chain))
    ensures ChainAt(mem, classInfo, p, chain)
    decreases |chain|
  {
    hide Lies, FitsSigned, EncodeSigned, Groups, Signed, TypeAt;
    OffsetsFit();
    var first := EncodeSigned(chain[0], 4);
    if |chain| == 1 {
      LiesRest(mem, p, first, EncodeSigned(0, 1));
      SignedUndoesEncode(mem, p, chain[0], 4);
      SignedUndoesEncode(mem, p + 4, 0, 1);
    } else {
      LiesRest(mem, p, first, EncodeSigned(1, 1) + WriteChain(chain[1..]));
      LiesRest(mem, p + 4, EncodeSigned(1, 1), WriteChain(chain[1..]));
      SignedUndoesEncode(mem, p, chain[0], 4);
      SignedUndoesEncode(mem, p + 4, 1, 1);
      ChainUndoesWrite(mem, classInfo, p + 5, chain[1..]);
    }
  }

  /** The records of `n` clauses, from clause `k + 1` on, and a cleanup record. */
  function Clauses(k: nat, n: nat): (chain: seq<nat>)
    requires k <= n
    ensures |chain| == n - k + 1 && chain[n - k] == 0
    ensures forall i :: 0 <= i < n - k ==> chain[i] == k + i + 1
    decreases n - k
  {
    if k == n then [0] else [k + 1] + Clauses(k + 1, n)
  }

  /** The types that the pointers below `classInfo` lead to, the first one topmost. */
  predicate TypesAt(mem: seq<Byte>, classInfo: nat, kinds: seq<int>) {
    forall k :: 0 <= k < |kinds| ==> TypeAt(mem, classInfo, k + 1) == Some(kinds[k])
  }

  lemma {:induction false} ClausesCatch(mem: seq<Byte>, classInfo: nat, kinds: seq<int>, k: nat)
    requires k <= |kinds| && TypesAt(mem, classInfo, kinds)
    ensures Caught(mem, classInfo, Clauses(k, |kinds|)) == Somes(kinds[k..])
    decreases |kinds| - k
  {
    hide TypeAt;
    if k == |kinds| {
      assert Clauses(k, |kinds|) == [0] && [0][1..] == [];
      assert kinds[k..] == [];
    } else {
      ClausesCatch(mem, classInfo, kinds, k + 1);
      var chain := Clauses(k, |kinds|);
      assert chain[1..] == Clauses(k + 1, |kinds|);
      assert kinds[k..][1..] == kinds[k + 1..];
    }
  }

  // ----- Types -----

  /** A type info at `info`: a type of four bytes. */
  predicate TypeInfoAt(mem: seq<Byte>, info: nat, kind: int) {
    Encodable(kind, FixedSigned(4), 0) && Lies(mem, info, EncodePlain(kind, FixedSigned(4), 0))
  }

  /** Pointers to type infos, from the last to the first. */
  function Pointers(infos: seq<nat>): (bytes: seq<Byte>)
    ensures |bytes| == 8 * |infos|
  {
    if infos == [] then [] else Pointers(infos[1..]) + Store(infos[0], 8)
  }

  lemma {:induction false} PointersLie(mem: seq<Byte>, p: nat, infos: seq<nat>, i: nat)
    requires Lies(mem, p, Pointers(infos)) && i < |infos|
    ensures Lies(mem, p + 8 * |infos| - 8 * (i + 1), Store(infos[i], 8))
    decreases |infos|
  {
    hide Lies, Store;
    LiesRest(mem, p, Pointers(infos[1..]), Store(infos[0], 8));
    if i > 0 {
      PointersLie(mem, p, infos[1..], i - 1);
    }
  }

  /** The pointers to type infos, written so that they end at `classInfo`. */
  lemma TypesUndoWrite(mem: seq<Byte>, p: nat, infos: seq<nat>, kinds: seq<int>)
    requires |infos| == |kinds| && Lies(mem, p, Pointers(infos))
    requires forall i :: 0 <= i < |kinds| ==> infos[i] < WORD && TypeInfoAt(mem, infos[i], kinds[i])
    ensures TypesAt(mem, p + 8 * |infos|, kinds)
  {
    hide Lies, Store, TypeAt, Encodable, EncodePlain, Pointers;
    forall k | 0 <= k < |kinds| ensures TypeAt(mem, p + 8 * |infos|, k + 1) == Some(kinds[k]) {
      PointersLie(mem, p, infos, k);
      PointerLeadsToType(mem, p + 8 * |infos|, k + 1, infos[k], kinds[k]);
    }
  }

  // ----- Areas -----

  /** What goes into an area: a landing pad base, if any; the encoding of the
      type pointers, or none at all; the entries of the call-site table, their encoding and the
      groups their actions take; actions in front of the chain; and where the type infos lie. */
  datatype Area = Area(base: Option<(Byte, nat)>, types: Option<Byte>, encoding: Byte, k: nat, sites: seq<Site>,
                       actions: seq<Byte>, infos: seq<nat>)

  function Base(a: Area): seq<Byte>
    requires a.base.Some? ==> Encodable(a.base.value.1, FormatOf(a.base.value.0), 4)
  {
    if a.base.None? then [0xff] else [a.base.value.0] + EncodePlain(a.base.value.1, FormatOf(a.base.value.0), 4)
  }

  function Table(a: Area): seq<Byte>
    requires forall i :: 0 <= i < |a.sites| ==> Writable(a.sites[i], a.encoding, a.k)
  {
    WriteSites(a.sites, a.encoding, a.k)
  }

  /** What follows the call-site table: actions, with the chain of all clauses and a cleanup at
      their end, and the pointers to the type infos. */
  function Tail(a: Area): seq<Byte>
    requires |a.infos| < Pow2(27)
  {
    ClausesFit(|a.infos|);
    a.actions + (WriteChain(Clauses(0, |a.infos|)) + Pointers(a.infos))
  }

  lemma ClausesFit(n: nat)
    requires n < Pow2(27)
    ensures forall i :: 0 <= i <= n ==> FitsSigned(Clauses(0, n)[i], 4)
  {
    hide Pow2;
    Pow2Grows(0, 27);
    var chain := Clauses(0, n);
    forall i | 0 <= i <= n ensures FitsSigned(chain[i], 4) {
      assert 0 <= chain[i] <= n;
    }
  }

  ghost predicate Fits(a: Area) {
    && (a.base.Some? ==>
          a.base.value.0 < 32 && a.base.value.1 < WORD && Encodable(a.base.value.1, FormatOf(a.base.value.0), 4))
    && a.types != Some(0xff) && (a.types.None? ==> a.infos == [])
    && (forall i :: 0 <= i < |a.sites| ==> Writable(a.sites[i], a.encoding, a.k))
    && |a.infos| < Pow2(27) && |Table(a)| + |Tail(a)| + 5 < Pow2(28)
  }

  /** The encoding, the length and the entries of the call-site table, and what follows. */
  function Body(a: Area): seq<Byte>
    requires Fits(a)
  {
    [a.encoding] + (EncodeUnsigned(|Table(a)|, 4) + (Table(a) + Tail(a)))
  }

  /** The encoding of the type pointers and the distance to their end, or neither. */
  function Types(a: Area): seq<Byte>
    requires Fits(a)
  {
    if a.types.None? then [0xff] else [a.types.value] + EncodeUnsigned(|Body(a)|, 4)
  }

  function WriteArea(a: Area): seq<Byte>
    requires Fits(a)
  {
    Base(a) + (Types(a) + Body(a))
  }

  lemma LiesByte(mem: seq<Byte>, p: nat, b: Byte)
    requires Lies(mem, p, [b])
    ensures p < |mem| && mem[p] == b
  {
    assert mem[p] == mem[p..p + 1][0];
  }

  lemma BodyUndoesWrite(mem: seq<Byte>, p: nat, a: Area, classInfo: nat)
    requires Fits(a) && Lies(mem, p, Body(a))
    ensures SitesPart(mem, p, classInfo) == Header(classInfo, a.encoding, p + 5, p + 5 + |Table(a)|)
    ensures Lies(mem, p + 5, Table(a)) && Lies(mem, p + 5 + |Table(a)|, Tail(a))
  {
    hide Lies, Groups, Unsigned, Pow2, EncodeUnsigned, Table, Tail, Writable;
    var length := EncodeUnsigned(|Table(a)|, 4);
    LiesRest(mem, p, [a.encoding], length + (Table(a) + Tail(a)));
    LiesRest(mem, p + 1, length, Table(a) + Tail(a));
    LiesRest(mem, p + 5, Table(a), Tail(a));
    UnsignedUndoesEncode(mem, p + 1, |Table(a)|, 4);
    LiesByte(mem, p, a.encoding);
  }

  lemma TypesUndoesWrite(mem: seq<Byte>, p: nat, a: Area)
    requires Fits(a) && Lies(mem, p, Types(a) + Body(a))
    ensures var q := p + |Types(a)|;
            && Lies(mem, q, Body(a))
            && TypesPart(mem, p) == SitesPart(mem, q, if a.types.None? then 0 else q + |Body(a)|)
  {
    hide Lies, Groups, Unsigned, Pow2, EncodeUnsigned, Body, SitesPart;
    LiesRest(mem, p, Types(a), Body(a));
    if a.types.None? {
      LiesByte(mem, p, 0xff);
    } else {
      BodySize(a);
      LiesRest(mem, p, [a.types.value], EncodeUnsigned(|Body(a)|, 4));
      LiesByte(mem, p, a.types.value);
      UnsignedUndoesEncode(mem, p + 1, |Body(a)|, 4);
    }
  }

  lemma BodySize(a: Area)
    requires Fits(a)
    ensures |Body(a)| == 5 + |Table(a)| + |Tail(a)| < Pow2(28)
  {
    hide Pow2, Table, Tail, EncodeUnsigned, Writable;
  }

  /** The header of a written area, with or without a base and with or without type pointers, is
      read back, and the rest of the area is where the header says. */
  lemma HeaderUndoesWrite(mem: seq<Byte>, lsda: nat, a: Area)
    requires Fits(a) && Lies(mem, lsda, WriteArea(a))
    ensures var first := lsda + |Base(a)| + |Types(a)| + 5;
            var end := first + |Table(a)|;
            && ParseHeader(mem, lsda)
            == Header(if a.types.None? then 0 else end + |Tail(a)|, a.encoding, first, end)
            && Lies(mem, first, Table(a)) && Lies(mem, end, Tail(a))
  {
    hide Lies, Pow2, EncodePlain, FormatOf, Types, Body, Table, Tail, TypesPart, SitesPart, DecodePointer;
    hide Writable;
    LiesRest(mem, lsda, Base(a), Types(a) + Body(a));
    if a.base.None? {
      LiesByte(mem, lsda, 0xff);
    } else {
      var encoding, v := a.base.value.0, a.base.value.1;
      var bytes := EncodePlain(v, FormatOf(encoding), 4);
      LiesRest(mem, lsda, [encoding], bytes);
      LiesByte(mem, lsda, encoding);
      FormatMeans(encoding, FormatOf(encoding));
      PointerUndoesEncode(mem, lsda + 1, encoding, FormatOf(encoding), v, 4, 0);
    }
    var p := lsda + |Base(a)|;
    TypesUndoesWrite(mem, p, a);
    BodySize(a);
    BodyUndoesWrite(mem, p + |Types(a)|, a, if a.types.None? then 0 else p + |Types(a)| + |Body(a)|);
  }

  // ----- Written areas describe their frames -----

  /** The chain written for a list of types lists them, and a cleanup. */
  lemma {:induction false} WrittenChainLists(mem: seq<Byte>, h: Header, site: Site, kinds: seq<int>)
    requires h.Header? && site.action > 0
    requires forall i :: 0 <= i <= |kinds| ==> FitsSigned(Clauses(0, |kinds|)[i], 4)
    requires Lies(mem, h.end + site.action - 1, WriteChain(Clauses(0, |kinds|))) && TypesAt(mem, h.classInfo, kinds)
    ensures Lists(mem, h, site, Clauses(0, |kinds|), LandingPad(true, kinds))
  {
    hide Lies, WriteChain, TypeAt, ChainAt, Caught, Somes, FitsSigned;
    var chain := Clauses(0, |kinds|);
    ClausesCatch(mem, h.classInfo, kinds, 0);
    assert kinds[0..] == kinds;
    forall i | 0 <= i < |chain| && chain[i] > 0 ensures TypeAt(mem, h.classInfo, chain[i]).Some? {
      assert TypeAt(mem, h.classInfo, i + 1) == Some(kinds[i]);
    }
    ChainUndoesWrite(mem, h.classInfo, h.end + site.action - 1, chain);
  }

  /** The area of a frame, in bytes: the call stopped in the code of entry `i`, which is the first
      one that has a landing pad and such code; its action is the chain at the end of the
      actions, or none if there is nothing to catch; and the type infos are there. */
  ghost predicate Written(mem: seq<Byte>, f: Frame, a: Area, i: nat) {
    && Fits(a) && f.lsda > 0 && Lies(mem, f.lsda, WriteArea(a)) && |a.infos| == |f.kinds|
    && (forall k :: 0 <= k < |f.kinds| ==> a.infos[k] < WORD && TypeInfoAt(mem, a.infos[k], f.kinds[k]))
    && i < |a.sites| && FirstInto(a.sites, i, f.ip, f.regionStart)
    && f.pad == (f.regionStart + a.sites[i].landingPad) % WORD
    && (a.sites[i].action == |a.actions| + 1 || (a.sites[i].action == 0 && f.kinds == []))
  }

  lemma {:induction false} WrittenTypes(mem: seq<Byte>, p: nat, a: Area, kinds: seq<int>)
    requires |a.infos| < Pow2(27) && Lies(mem, p, Tail(a)) && |a.infos| == |kinds|
    requires forall k :: 0 <= k < |kinds| ==> a.infos[k] < WORD && TypeInfoAt(mem, a.infos[k], kinds[k])
    ensures TypesAt(mem, p + |Tail(a)|, kinds)
    ensures (ClausesFit(|kinds|); Lies(mem, p + |a.actions|, WriteChain(Clauses(0, |kinds|))))
  {
    hide Lies, Pow2, WriteChain, TypeInfoAt, TypesAt, FitsSigned;
    ClausesFit(|kinds|);
    var chain := WriteChain(Clauses(0, |kinds|));
    LiesRest(mem, p, a.actions, chain + Pointers(a.infos));
    LiesRest(mem, p + |a.actions|, chain, Pointers(a.infos));
    TypesUndoWrite(mem, p + |a.actions| + |chain|, a.infos, kinds);
  }

  lemma TableUndoesWrite(mem: seq<Byte>, p: nat, a: Area)
    requires Fits(a) && Lies(mem, p, Table(a))
    ensures SitesAt(mem, p, p + |Table(a)|, a.encoding, a.sites)
  {
    hide Writable, Lies, WriteSites, SitesAt;
    SitesUndoWrite(mem, p, a.sites, a.encoding, a.k);
  }

  lemma {:induction false} WrittenLists(mem: seq<Byte>, h: Header, a: Area, site: Site, kinds: seq<int>)
    requires h.Header? && Fits(a) && Lies(mem, h.end, Tail(a)) && |a.infos| == |kinds|
    requires h.classInfo == if a.types.None? then 0 else h.end + |Tail(a)|
    requires forall k :: 0 <= k < |kinds| ==> a.infos[k] < WORD && TypeInfoAt(mem, a.infos[k], kinds[k])
    requires site.action == |a.actions| + 1 || (site.action == 0 && kinds == [])
    ensures Lists(mem, h, site, Clauses(0, |kinds|), LandingPad(true, kinds))
  {
    hide Lies, Table, Tail, Writable, Base, Pow2, WriteChain, TypeInfoAt, FitsSigned, TypeAt;
    if site.action > 0 {
      WrittenTypes(mem, h.end, a, kinds);
      ClausesFit(|kinds|);
      WrittenChainLists(mem, h, site, kinds);
    }
  }

  /** A written area describes the frame that catches its types. */
  lemma {:induction false} WrittenAreaDescribes(mem: seq<Byte>, f: Frame, a: Area, i: nat)
    requires Written(mem, f, a, i)
    ensures Described(mem, f)
  {
    hide Lies, Base, Types, Table, Tail, WriteArea, TypesAt, TypeInfoAt, Lists, FirstInto, Pow2, ParseHeader, Writable;
    hide FitsSigned, SitesAt, WriteChain, WriteSites, FirstCovering, PcOffset;
    HeaderUndoesWrite(mem, f.lsda, a);
    var h := ParseHeader(mem, f.lsda);
    TableUndoesWrite(mem, h.first, a);
    FirstByAddress(a.sites, i, f.ip, f.regionStart);
    PadListsKinds(f.kinds);
    WrittenLists(mem, h, a, a.sites[i], f.kinds);
    assert DescribedBy(mem, f, a.sites, Clauses(0, |f.kinds|));
  }

  /** On a written area the search finds the first clause for the type, or nothing. */
  lemma {:induction false} SearchFindsClause(mem: seq<Byte>, p: nat, a: Area, kinds: seq<int>, kind: int,
                                             trail: seq<nat>)
    requires Fits(a) && a.types.Some? && Lies(mem, p, Tail(a)) && |a.infos| == |kinds|
    requires forall k :: 0 <= k < |kinds| ==> a.infos[k] < WORD && TypeInfoAt(mem, a.infos[k], kinds[k])
    requires TrailAt(mem, p + |Tail(a)|, p + |a.actions|, trail, kind)
    ensures var r := FirstMatch(mem, p + |Tail(a)|, trail, kind);
            && (r == 0 <==> kind !in kinds)
            && (r > 0 ==> r <= |kinds| && kinds[r - 1] == kind && kind !in kinds[..r - 1])
  {
    hide Lies, Tail, Table, Base, Writable, Pow2, TypeInfoAt, TrailAt, ChainAt, TrailOf, FirstMatch, Matches;
    hide CatchFirst, ClauseOf, Caught, Somes, CleanupsLast;
    var classInfo, at, chain := p + |Tail(a)|, p + |a.actions|, Clauses(0, |kinds|);
    var h, site := Header(classInfo, 0, p, p), Site(0, 0, 0, |a.actions| + 1);
    WrittenLists(mem, h, a, site, kinds);
    hide Fits;
    assert ChainAt(mem, classInfo, at, chain);
    ChainHasTrail(mem, classInfo, at, chain, kind);
    TrailUnique(mem, classInfo, at, trail, TrailOf(mem, classInfo, chain, kind), kind);
    PositionIsClauseIff(mem, classInfo, chain, kinds, kind);
    NoEarlyCleanup(mem, classInfo, chain, kind);
  }

  lemma TypesFit()
    ensures FitsSigned(0, 4) && FitsSigned(1, 4)
  {
    Pow2Word();
  }

  /** A failing input: a cleanup record written in front of the one catch record. The search
      finds the second record, while the type belongs to the first clause, so the router sends
      the exception past its catch block. */
  lemma CleanupInFrontMisroutes(mem: seq<Byte>, classInfo: nat, p: nat, info: nat, kind: int)
    requires (TypesFit(); Lies(mem, p, WriteChain([0, 1])))
    requires classInfo >= 8 && info < WORD && Lies(mem, classInfo - 8, Store(info, 8)) && TypeInfoAt(mem, info, kind)
    ensures ChainAt(mem, classInfo, p, [0, 1]) && Caught(mem, classInfo, [0, 1]) == Somes([kind])
    ensures FirstMatch(mem, classInfo, [0, 1], kind) == 2 && ClauseOf([kind], kind) == 1
  {
    hide Lies, FitsSigned, TypeAt, WriteChain, ChainAt, Store, EncodePlain, Encodable;
    TypesFit();
    PointerLeadsToType(mem, classInfo, 1, info, kind);
    ChainUndoesWrite(mem, classInfo, p, [0, 1]);
    assert [0, 1][1..] == [1] && [1][1..] == [];
    assert Caught(mem, classInfo, [1]) == [Some(kind)] + Caught(mem, classInfo, []);
    assert Caught(mem, classInfo, [0, 1]) == [] + Caught(mem, classInfo, [1]);
    assert Somes([kind]) == [Some(kind)];
    assert FirstMatch(mem, classInfo, [1], kind) == 1;
  }
}
