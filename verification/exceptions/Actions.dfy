/** The action table: chains of (type, offset to the next) records, and the search in one. */
module ExceptionActions {

  import opened ExceptionLeb128
  import opened ExceptionEncodings
  import opened ExceptionPointers
  import opened Wrappers

  /** `_Unwind_Exception::exception_class` of the exceptions made here: the characters of
      "obj\0bas\0". */
  const OUR_BASE_EXCEPTION_CLASS: nat := 0x6F62_6A00_6261_7300

  /** The `exception_cleanup` of an object: the function that hands it to `deleteOurException`,
      or one of another runtime. */
  datatype Cleanup = DeleteFromUnwind | OtherCleanup

  /** An exception object in the heap. `kind` is its type info type; it means something only
      for objects of our class. The last two fields belong to the unwinder. */
  datatype Exception = Exception(exceptionClass: nat, kind: int, cleanup: Cleanup, private1: nat, private2: nat)

  type Objects = map<nat, Exception>

  // ----- Type infos -----

  /** `classInfo[-k]->type`: the table of pointers ends where `classInfo` points. */
  function TypeAt(mem: seq<Byte>, classInfo: nat, k: nat): Option<int> {
    if k == 0 || 8 * k > classInfo || classInfo - 8 * k + 8 > |mem| then None
    else
      var info := Load(mem, classInfo - 8 * k, 8);
      if info + 4 > |mem| then None else Some(LoadSigned(mem, info, 4))
  }

  /** From bytes: the `k`-th pointer below `classInfo` leads to a type, four bytes long. */
  lemma PointerLeadsToType(mem: seq<Byte>, classInfo: nat, k: nat, info: nat, kind: int)
    requires 0 < k && 8 * k <= classInfo && info < WORD && Lies(mem, classInfo - 8 * k, Store(info, 8))
    requires Encodable(kind, FixedSigned(4), 0) && Lies(mem, info, EncodePlain(kind, FixedSigned(4), 0))
    ensures TypeAt(mem, classInfo, k) == Some(kind)
  {
    hide Pow2, Load, LoadSigned, Store;
    Pow2Word();
    LoadUndoesStore(mem, classInfo - 8 * k, info, 8);
    LoadSignedUndoesStore(mem, info, kind, 4);
  }

  // ----- Chains -----

  /** `chain` lists the type offsets of the records that start at `p`. Each record is a type
      offset and an offset to the next record, relative to the second field; 0 ends the
      chain. Type offset 0 stands for a cleanup; negative ones (filters) do not occur. */
  ghost predicate ChainAt(mem: seq<Byte>, classInfo: nat, p: nat, chain: seq<nat>)
    decreases |chain|
  {
    && chain != [] && InInt(mem, p) && Signed(mem, p) == chain[0]
    && (chain[0] > 0 ==> TypeAt(mem, classInfo, chain[0]).Some?)
    && var q := p + Groups(mem, p);
       && InInt(mem, q)
       && if |chain| == 1 then Signed(mem, q) == 0
          else Signed(mem, q) != 0 && q + Signed(mem, q) >= 0 && ChainAt(mem, classInfo, q + Signed(mem, q), chain[1..])
  }

  lemma {:induction false} ChainUnique(mem: seq<Byte>, classInfo: nat, p: nat, a: seq<nat>, b: seq<nat>)
    requires ChainAt(mem, classInfo, p, a) && ChainAt(mem, classInfo, p, b)
    ensures a == b
    decreases |a|
  {
    if |a| > 1 {
      var q := p + Groups(mem, p);
      ChainUnique(mem, classInfo, q + Signed(mem, q), a[1..], b[1..]);
      assert a == [a[0]] + a[1..] && b == [b[0]] + b[1..];
    }
  }

  predicate Matches(mem: seq<Byte>, classInfo: nat, k: nat, kind: int) {
    k > 0 && TypeAt(mem, classInfo, k) == Some(kind)
  }

  /** The 1-based position of the first record that matches, or 0. */
  function FirstMatch(mem: seq<Byte>, classInfo: nat, chain: seq<nat>, kind: int): (r: nat)
    ensures r <= |chain|
    ensures r > 0 ==> Matches(mem, classInfo, chain[r - 1], kind)
    ensures forall j :: 0 <= j < (if r > 0 then r - 1 else |chain|) ==> !Matches(mem, classInfo, chain[j], kind)
  {
    if chain == [] then 0
    else if Matches(mem, classInfo, chain[0], kind) then 1
    else
      var rest := FirstMatch(mem, classInfo, chain[1..], kind);
      if rest == 0 then 0 else rest + 1
  }

  /** One record: its type offset, the offset to the next record, and the address that the
      latter is relative to, which is its own. */
  method ReadRecord(mem: seq<Byte>, actionPos: nat) returns (typeOffset: int, actionOffset: int, next: nat)
    requires InInt(mem, actionPos) && InInt(mem, actionPos + Groups(mem, actionPos))
    ensures next == actionPos + Groups(mem, actionPos)
    ensures typeOffset == Signed(mem, actionPos) && actionOffset == Signed(mem, next)
  {
    hide InInt, Groups, Signed, Wrapped, AsSigned;
    var typeBits, offsetBits, tempActionPos;
    SignedSurvives(mem, actionPos);
    typeBits, next := ReadSLEB128(mem, actionPos);
    SignedSurvives(mem, next);
    offsetBits, tempActionPos := ReadSLEB128(mem, next);
    typeOffset, actionOffset := AsSigned(typeBits), AsSigned(offsetBits);
  }

  /** `trail` lists the type offsets of the records that the search for `kind` reads from `p`
      on: up to the first one that matches, or to offset 0. What lies behind is not looked at. */
  ghost predicate TrailAt(mem: seq<Byte>, classInfo: nat, p: nat, trail: seq<nat>, kind: int)
    decreases |trail|
  {
    && trail != [] && InInt(mem, p) && Signed(mem, p) == trail[0]
    && (trail[0] > 0 ==> TypeAt(mem, classInfo, trail[0]).Some?)
    && var q := p + Groups(mem, p);
       && InInt(mem, q)
       && if Matches(mem, classInfo, trail[0], kind) || Signed(mem, q) == 0 then |trail| == 1
          else
            && |trail| > 1 && q + Signed(mem, q) >= 0
            && TrailAt(mem, classInfo, q + Signed(mem, q), trail[1..], kind)
  }

  lemma {:induction false} TrailUnique(mem: seq<Byte>, classInfo: nat, p: nat, a: seq<nat>, b: seq<nat>, kind: int)
    requires TrailAt(mem, classInfo, p, a, kind) && TrailAt(mem, classInfo, p, b, kind)
    ensures a == b
    decreases |a|
  {
    if |a| > 1 {
      var q := p + Groups(mem, p);
      TrailUnique(mem, classInfo, q + Signed(mem, q), a[1..], b[1..], kind);
      assert a == [a[0]] + a[1..] && b == [b[0]] + b[1..];
    }
  }

  /** The part of a chain up to its first match, or the whole chain. */
  function TrailOf(mem: seq<Byte>, classInfo: nat, chain: seq<nat>, kind: int): (trail: seq<nat>)
    ensures trail <= chain
    ensures FirstMatch(mem, classInfo, trail, kind) == FirstMatch(mem, classInfo, chain, kind)
  {
    if chain == [] then []
    else if Matches(mem, classInfo, chain[0], kind) then [chain[0]]
    else [chain[0]] + TrailOf(mem, classInfo, chain[1..], kind)
  }

  /** On a whole chain the search reads the part up to the first match. */
  lemma {:induction false} ChainHasTrail(mem: seq<Byte>, classInfo: nat, p: nat, chain: seq<nat>, kind: int)
    requires ChainAt(mem, classInfo, p, chain)
    ensures TrailAt(mem, classInfo, p, TrailOf(mem, classInfo, chain, kind), kind)
    decreases |chain|
  {
    hide TypeAt;
    if !Matches(mem, classInfo, chain[0], kind) {
      if |chain| == 1 {
        assert chain[1..] == [];
      } else {
        var q := p + Groups(mem, p);
        ChainHasTrail(mem, classInfo, q + Signed(mem, q), chain[1..], kind);
        var trail := TrailOf(mem, classInfo, chain, kind);
        assert trail[1..] == TrailOf(mem, classInfo, chain[1..], kind);
      }
    }
  }

  /** The loop of the search: the first record that catches `kind`. */
  method SearchChain(mem: seq<Byte>, classInfo: nat, actionEntry: nat, kind: int, given: int, ghost trail: seq<nat>)
    returns (ret: bool, resultAction: int)
    requires TrailAt(mem, classInfo, actionEntry, trail, kind)
    ensures ret == (FirstMatch(mem, classInfo, trail, kind) > 0)
    ensures resultAction == if ret then FirstMatch(mem, classInfo, trail, kind) else given
  {
    hide TrailAt, Groups, Signed, InInt, FirstMatch, TypeAt, Behind;
    ret, resultAction := false, given;
    var actionPos: nat := actionEntry;
    var i: nat := 0;
    ghost var rest := trail;
    BehindNone(FirstMatch(mem, classInfo, trail, kind));
    while true
      invariant i + |rest| == |trail|
      invariant TrailAt(mem, classInfo, actionPos, rest, kind)
      invariant FirstMatch(mem, classInfo, trail, kind) == Behind(i, FirstMatch(mem, classInfo, rest, kind))
      invariant !ret && resultAction == given
      decreases |rest|
    {
      TrailRecord(mem, classInfo, actionPos, rest, kind);
      RecordDecides(mem, classInfo, rest, kind, i);
      var typeOffset, actionOffset;
      typeOffset, actionOffset, actionPos := ReadRecord(mem, actionPos);
      assert typeOffset >= 0;
      if typeOffset > 0 && TypeAt(mem, classInfo, typeOffset) == Some(kind) {
        resultAction := i + 1;
        ret := true;
        break;
      }
      if actionOffset == 0 {
        break;
      }
      actionPos := actionPos + actionOffset;
      rest := rest[1..];
      i := i + 1;
    }
  }

  /** The search. `given` is what `*resultAction` holds before the call. */
  method HandleActionValue(mem: seq<Byte>, classInfo: nat, actionEntry: nat, exceptionClass: nat,
                           exceptionObject: nat, objects: Objects, given: int, ghost trail: seq<nat>)
    returns (ret: bool, resultAction: int)
    requires exceptionClass == OUR_BASE_EXCEPTION_CLASS && exceptionObject != 0 ==>
               exceptionObject in objects
               && TrailAt(mem, classInfo, actionEntry, trail, objects[exceptionObject].kind)
    ensures exceptionClass != OUR_BASE_EXCEPTION_CLASS || exceptionObject == 0 ==> !ret
    ensures exceptionClass == OUR_BASE_EXCEPTION_CLASS && exceptionObject != 0 ==>
              var first := FirstMatch(mem, classInfo, trail, objects[exceptionObject].kind);
              ret == (first > 0) && (ret ==> resultAction == first)
    ensures !ret ==> resultAction == given
  {
    ret, resultAction := false, given;
    if exceptionObject == 0 || exceptionClass != OUR_BASE_EXCEPTION_CLASS {
      return;
    }
    ret, resultAction := SearchChain(mem, classInfo, actionEntry, objects[exceptionObject].kind, given, trail);
  }

  /** A position in a list of records, seen from `i` records before it. */
  function Behind(i: nat, r: nat): nat {
    if r == 0 then 0 else i + r
  }

  lemma BehindNone(r: nat)
    ensures Behind(0, r) == r
  {
  }

  lemma RecordDecides(mem: seq<Byte>, classInfo: nat, chain: seq<nat>, kind: int, i: nat)
    requires chain != []
    ensures Behind(i, FirstMatch(mem, classInfo, chain, kind)) ==
              if chain[0] > 0 && TypeAt(mem, classInfo, chain[0]) == Some(kind) then i + 1
              else if |chain| == 1 then 0
              else Behind(i + 1, FirstMatch(mem, classInfo, chain[1..], kind))
  {
    assert FirstMatch(mem, classInfo, [], kind) == 0;
    assert |chain| == 1 ==> chain[1..] == [];
  }

  lemma TrailRecord(mem: seq<Byte>, classInfo: nat, p: nat, trail: seq<nat>, kind: int)
    requires TrailAt(mem, classInfo, p, trail, kind)
    ensures trail != [] && InInt(mem, p) && Signed(mem, p) == trail[0]
    ensures var q := p + Groups(mem, p);
            && InInt(mem, q)
            && if (trail[0] > 0 && TypeAt(mem, classInfo, trail[0]) == Some(kind)) || Signed(mem, q) == 0
               then |trail| == 1
               else
                 && |trail| > 1 && q + Signed(mem, q) >= 0
                 && TrailAt(mem, classInfo, q + Signed(mem, q), trail[1..], kind)
  {
  }

  // ----- Positions and clauses -----

  /** The types of the catch records of a chain, in order. */
  function Caught(mem: seq<Byte>, classInfo: nat, chain: seq<nat>): seq<Option<int>> {
    if chain == [] then []
    else (if chain[0] > 0 then [TypeAt(mem, classInfo, chain[0])] else []) + Caught(mem, classInfo, chain[1..])
  }

  /** The 1-based number of the first clause of a list that names a type, or 0. */
  function ClauseOf(clauses: seq<int>, kind: int): (r: nat)
    ensures r <= |clauses|
    ensures r > 0 ==> clauses[r - 1] == kind
    ensures forall j :: 0 <= j < (if r > 0 then r - 1 else |clauses|) ==> clauses[j] != kind
  {
    if clauses == [] then 0
    else if clauses[0] == kind then 1
    else
      var rest := ClauseOf(clauses[1..], kind);
      if rest == 0 then 0 else rest + 1
  }

  function Cleanups(chain: seq<nat>): nat {
    if chain == [] then 0 else (if chain[0] == 0 then 1 else 0) + Cleanups(chain[1..])
  }

  function Somes(clauses: seq<int>): (r: seq<Option<int>>)
    ensures |r| == |clauses| && forall j :: 0 <= j < |r| ==> r[j] == Some(clauses[j])
  {
    if clauses == [] then [] else [Some(clauses[0])] + Somes(clauses[1..])
  }

  /** A chain whose catch records follow the clauses: the position found is the clause number
      plus the cleanup records passed on the way. */
  lemma {:induction false} PositionCounts(mem: seq<Byte>, classInfo: nat, chain: seq<nat>, clauses: seq<int>, kind: int)
    requires Caught(mem, classInfo, chain) == Somes(clauses)
    ensures var r := FirstMatch(mem, classInfo, chain, kind);
            && (r == 0 <==> ClauseOf(clauses, kind) == 0)
            && (r > 0 ==> r == ClauseOf(clauses, kind) + Cleanups(chain[..r - 1]))
    decreases |chain|
  {
    if chain == [] {
      assert clauses == [];
    } else if Matches(mem, classInfo, chain[0], kind) {
      ClausesSkip(mem, classInfo, chain, clauses, kind);
    } else {
      hide TypeAt, Matches, FirstMatch, Cleanups, Somes;
      CleanupsSkip(mem, classInfo, chain, kind);
      if chain[0] == 0 {
        PositionCounts(mem, classInfo, chain[1..], clauses, kind);
      } else {
        ClausesSkip(mem, classInfo, chain, clauses, kind);
        PositionCounts(mem, classInfo, chain[1..], clauses[1..], kind);
      }
    }
  }

  /** The first record of a chain is the first clause. */
  lemma ClausesSkip(mem: seq<Byte>, classInfo: nat, chain: seq<nat>, clauses: seq<int>, kind: int)
    requires chain != [] && chain[0] > 0 && Caught(mem, classInfo, chain) == Somes(clauses)
    ensures clauses != [] && Caught(mem, classInfo, chain[1..]) == Somes(clauses[1..])
    ensures Matches(mem, classInfo, chain[0], kind) <==> clauses[0] == kind
  {
    hide TypeAt;
    assert Somes(clauses) == [TypeAt(mem, classInfo, chain[0])] + Caught(mem, classInfo, chain[1..]);
    assert Somes(clauses)[1..] == Somes(clauses[1..]) && Somes(clauses)[0] == TypeAt(mem, classInfo, chain[0]);
  }

  lemma {:induction false} CleanupsSkip(mem: seq<Byte>, classInfo: nat, chain: seq<nat>, kind: int)
    requires chain != [] && !Matches(mem, classInfo, chain[0], kind)
    ensures var r := FirstMatch(mem, classInfo, chain[1..], kind);
            && FirstMatch(mem, classInfo, chain, kind) == (if r == 0 then 0 else r + 1)
            && (r > 0 ==> Cleanups(chain[..r]) == (if chain[0] == 0 then 1 else 0) + Cleanups(chain[1..][..r - 1]))
  {
    var r := FirstMatch(mem, classInfo, chain[1..], kind);
    if r > 0 {
      assert chain[..r][1..] == chain[1..][..r - 1];
    }
  }

  /** No record matches, or the first one that does comes before every cleanup record. */
  ghost predicate CatchFirst(mem: seq<Byte>, classInfo: nat, chain: seq<nat>, kind: int) {
    || (forall j :: 0 <= j < |chain| ==> !Matches(mem, classInfo, chain[j], kind))
    || exists j :: 0 <= j < |chain| && Matches(mem, classInfo, chain[j], kind) && 0 !in chain[..j]
  }

  lemma CatchFirstIff(mem: seq<Byte>, classInfo: nat, chain: seq<nat>, kind: int)
    ensures var r := FirstMatch(mem, classInfo, chain, kind);
            CatchFirst(mem, classInfo, chain, kind) <==> r == 0 || 0 !in chain[..r - 1]
  {
    hide Matches;
    var r := FirstMatch(mem, classInfo, chain, kind);
    if r > 0 && CatchFirst(mem, classInfo, chain, kind) {
      var j :| 0 <= j < |chain| && Matches(mem, classInfo, chain[j], kind) && 0 !in chain[..j];
      assert chain[..r - 1] == chain[..j][..r - 1];
    }
  }

  /** The position selects the right catch block exactly when the chain has no match or has
      one with no cleanup record before it. */
  lemma {:induction false} PositionIsClauseIff(mem: seq<Byte>, classInfo: nat, chain: seq<nat>, clauses: seq<int>,
                                               kind: int)
    requires Caught(mem, classInfo, chain) == Somes(clauses)
    ensures FirstMatch(mem, classInfo, chain, kind) == ClauseOf(clauses, kind) <==>
        CatchFirst(mem, classInfo, chain, kind)
  {
    hide TypeAt, Matches, FirstMatch, ClauseOf, Caught, Somes, Cleanups, CatchFirst;
    var r := FirstMatch(mem, classInfo, chain, kind);
    PositionCounts(mem, classInfo, chain, clauses, kind);
    CatchFirstIff(mem, classInfo, chain, kind);
    if r > 0 {
      NoCleanups(chain[..r - 1]);
    }
  }

  lemma {:induction false} NoCleanups(chain: seq<nat>)
    ensures Cleanups(chain) == 0 <==> 0 !in chain
  {
    if chain != [] {
      NoCleanups(chain[1..]);
      assert chain == [chain[0]] + chain[1..];
    }
  }
}
