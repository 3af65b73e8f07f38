/** The BrainF compiler itself: a scanner with one symbol of lookahead and a recursive
    emitter that appends instructions to basic blocks in place. */
module BrainFCompiler {
  import opened BrainFSource
  import opened BrainFIr
  import opened BrainFEmitter
  import opened BrainFFrame
  import opened Wrappers

  datatype ParseResult = Module(blocks: seq<Block>) | Abort(error: Error)

  /** Two stretches of straight-line code in a row are one. */
  lemma ExtendTwice(e: Em, a: seq<Instr>, sa: seq<Site>, b: seq<Instr>, sb: seq<Site>)
    requires e.cur < |e.blocks|
    ensures Extend(Extend(e, a, sa), b, sb) == Extend(e, a + b, sa + sb)
  {
    assert e.blocks[e.cur] + a + b == e.blocks[e.cur] + (a + b);
    assert e.cert.defs + sa + sb == e.cert.defs + (sa + sb);
  }

  lemma Three(e: Em, i0: Instr, i1: Instr, i2: Instr)
    requires e.cur < |e.blocks|
    ensures var n := |e.blocks[e.cur]|;
            Extend(Extend(Extend(e, [i0], [Site(e.cur, n)]), [i1], [Site(e.cur, n + 1)]), [i2], [])
            == Extend(e, [i0, i1, i2], SitesHere(e, 2))
  {
    var n := |e.blocks[e.cur]|;
    ExtendTwice(e, [i0], [Site(e.cur, n)], [i1], [Site(e.cur, n + 1)]);
    ExtendTwice(e, [i0] + [i1], [Site(e.cur, n)] + [Site(e.cur, n + 1)], [i2], []);
    assert [i0] + [i1] + [i2] == [i0, i1, i2];
    assert [Site(e.cur, n)] + [Site(e.cur, n + 1)] + [] == SitesHere(e, 2);
  }

  lemma Four(e: Em, r: Reg, i0: Instr, i1: Instr, i2: Instr, i3: Instr)
    requires e.cur < |e.blocks|
    ensures var n, l := |e.blocks[e.cur]|, e.cur;
            Extend(Extend(Extend(Extend(e, [i0], [Site(l, n)]).(head := r), [i1], [Site(l, n + 1)]),
                          [i2], [Site(l, n + 2)]), [i3], [Site(l, n + 3)])
            == Extend(e, [i0, i1, i2, i3], SitesHere(e, 4)).(head := r)
  {
    var n, l := |e.blocks[e.cur]|, e.cur;
    var a := Extend(e, [i0], [Site(l, n)]).(head := r);
    ExtendTwice(a, [i1], [Site(l, n + 1)], [i2], [Site(l, n + 2)]);
    ExtendTwice(a, [i1] + [i2], [Site(l, n + 1)] + [Site(l, n + 2)], [i3], [Site(l, n + 3)]);
    ExtendTwice(e.(head := r), [i0], [Site(l, n)], [i1] + [i2] + [i3],
        [Site(l, n + 1)] + [Site(l, n + 2)] + [Site(l, n + 3)]);
    assert a == Extend(e.(head := r), [i0], [Site(l, n)]);
    assert [i0] + ([i1] + [i2] + [i3]) == [i0, i1, i2, i3];
    assert [Site(l, n)] + ([Site(l, n + 1)] + [Site(l, n + 2)] + [Site(l, n + 3)]) == SitesHere(e, 4);
  }

  /** The current block ends in the bounds test's branch and a fresh block becomes current. */
  ghost function ErrorBranch(e: Em, test: Reg): Em {
    AddBlock(Extend(e, [CondBr(test, ABERRORBB, |e.blocks|)], []), [], e.cur).(cur := |e.blocks|)
  }

  lemma CheckedMove(e: Em, value: int)
    requires e.cur < |e.blocks|
    ensures var r := e.next;
            var tested := Extend(e, [Gep(r, e.head, Low32(value)), ICmpUGE(r + 1, r, ARRMAX), ICmpULT(r + 2, r, ARR),
                                     Or(r + 3, r + 1, r + 2)], SitesHere(e, 4)).(head := r);
            ErrorBranch(tested, r + 3) == EmitSymbol(e, true, Move, value)
  {
    var r := e.next;
    var code := [Gep(r, e.head, Low32(value)), ICmpUGE(r + 1, r, ARRMAX), ICmpULT(r + 2, r, ARR),
        Or(r + 3, r + 1, r + 2)];
    ExtendTwice(e, code, SitesHere(e, 4), [CondBr(r + 3, ABERRORBB, |e.blocks|)], []);
    assert code + [CondBr(r + 3, ABERRORBB, |e.blocks|)] == CheckedMoveCode(r, e.head, value, |e.blocks|);
    assert SitesHere(e, 4) + [] == SitesHere(e, 4);
  }

  lemma AppendThenExtend(g: seq<Block>, cur: Label, i: Instr, b: Block)
    requires cur < |g|
    ensures (g + [b])[cur := (g + [b])[cur] + [i]] == g[cur := g[cur] + [i]] + [b]
  {
  }

  lemma OpenedBlocks(g: seq<Block>, cur: Label, br: Instr, phi: Instr)
    requires cur < |g|
    ensures var g1 := g + [[]];
            var g2 := g1[cur := g1[cur] + [br]] + [[]];
            g2[|g| := g2[|g|] + [phi]] == g[cur := g[cur] + [br]] + [[phi]] + [[]]
  {
    AppendThenExtend(g, cur, br, []);
    var g2 := g[cur := g[cur] + [br]] + [[]] + [[]];
    assert g2[|g|] + [phi] == [phi];
    assert g2[|g| := g2[|g|] + [phi]] == g[cur := g[cur] + [br]] + [[phi]] + [[]];
  }

  /** The builder's order of insertions at ']' gives the blocks of the finished loop. */
  lemma ClosedBlocks(e: Em, f: LoopFrame)
    requires e.cur < |e.blocks| && f.testbb < |e.blocks| && f.testbb != e.cur
    requires |e.blocks[f.testbb]| == 1 && e.blocks[f.testbb][0].Phi? && e.blocks[f.testbb][0].dst == f.phi
    ensures var t, r, after := f.testbb, e.next, |e.blocks|;
            var incoming := e.blocks[t][0].incoming + [(e.head, e.cur)];
            var g1 := e.blocks[e.cur := e.blocks[e.cur] + [Br(t)]];
            var g2 := g1[t := g1[t][0 := Phi(f.phi, incoming)]];
            var g3 := g2[t := g2[t] + [Load(r, f.phi)]];
            var g4 := g3[t := g3[t] + [ICmpEqZero(r + 1, r)]] + [[]];
            var g5 := g4[t := g4[t] + [CondBr(r + 1, after, f.oldbb)]];
            g5[after := g5[after] + [Phi(r + 2, [(f.phi, t)])]] == EmitClose(e, f).blocks
  {
    var t, r, after := f.testbb, e.next, |e.blocks|;
    var incoming := e.blocks[t][0].incoming + [(e.head, e.cur)];
    var b := [Phi(f.phi, incoming)] + [Load(r, f.phi)] + [ICmpEqZero(r + 1, r)] + [CondBr(r + 1, after, f.oldbb)];
    assert b == TestBlock(f.phi, incoming, r, after, f.oldbb);
    assert e.blocks[t][0 := Phi(f.phi, incoming)] == [Phi(f.phi, incoming)];
    var g1 := e.blocks[e.cur := e.blocks[e.cur] + [Br(t)]];
    var g2 := g1[t := g1[t][0 := Phi(f.phi, incoming)]];
    var g3 := g2[t := g2[t] + [Load(r, f.phi)]];
    var g4 := g3[t := g3[t] + [ICmpEqZero(r + 1, r)]] + [[]];
    var g5 := g4[t := g4[t] + [CondBr(r + 1, after, f.oldbb)]];
    assert g5[t] == b && g5[after] + [Phi(r + 2, [(f.phi, t)])] == [Phi(r + 2, [(f.phi, t)])];
    assert g5[after := g5[after] + [Phi(r + 2, [(f.phi, t)])]] == g1[t := b] + [[Phi(r + 2, [(f.phi, t)])]];
  }

  lemma ClosedRest(e: Em, f: LoopFrame)
    requires e.cur < |e.blocks| && f.testbb < |e.blocks| && f.testbb != e.cur
    ensures var t, after := f.testbb, |e.blocks|;
            var cert := e.cert.(defs := e.cert.defs + [Site(t, 1), Site(t, 2), Site(after, 0)],
                                doms := e.cert.doms + [DomsOf(e.cert, t) + {after}]);
            EmitClose(e, f) == Em(EmitClose(e, f).blocks, after, e.next + 2, e.next + 3, cert)
  {
  }

  /** What the scanner holds once it has a symbol: the token at `b`, and the symbol it read beyond. */
  ghost predicate Scanned(src: string, b: nat, pos: nat, cursym: Symbol, curvalue: int, nextsym: Symbol, nextvalue: int)
  {
    && b <= |src| && pos <= |src|
    && var t := TokenAt(src, b);
    && cursym == t.sym && (IsRun(cursym) ==> curvalue == t.value)
    && Ahead(src, t.end, pos, nextsym, nextvalue)
    && (IsRun(cursym) <==> nextsym != NoSym)
  }

  /** The lookahead symbol is the one at `end`; nothing beyond it has been read. */
  ghost predicate Ahead(src: string, end: nat, pos: nat, nextsym: Symbol, nextvalue: int) {
    && end <= |src|
    && if nextsym == NoSym then pos == end
       else if nextsym == Eof then pos == end == |src|
       else end < |src| && pos == end + 1 && SymbolOf(src[end]) == nextsym
            && (IsRun(nextsym) ==> nextvalue == Direction(src[end]))
  }

  /** While scanning at `pos`, the token at `b` is what the scan will end in. */
  ghost predicate Scanning(src: string, b: nat, pos: nat, cursym: Symbol, curvalue: int) {
    && b <= |src| && pos <= |src| && (cursym == NoSym || IsRun(cursym))
    && TokenAt(src, b) == Scan(src, pos, cursym, if cursym == NoSym then 0 else curvalue)
  }

  lemma ScannedIs(src: string, b: nat, pos: nat, cursym: Symbol, curvalue: int, nextsym: Symbol, nextvalue: int)
    requires Scanned(src, b, pos, cursym, curvalue, nextsym, nextvalue)
    ensures b <= |src| && pos <= |src|
    ensures var t := TokenAt(src, b);
            && cursym == t.sym && cursym != NoSym && (IsRun(cursym) ==> curvalue == t.value)
            && (cursym != Eof ==> b < t.end)
            && Ahead(src, t.end, pos, nextsym, nextvalue)
            && (!IsRun(cursym) ==> nextsym == NoSym && pos == t.end)
  {
  }

  lemma AheadAtEnd(src: string, b: nat)
    ensures b <= |src| ==> forall value :: Ahead(src, b, b, NoSym, value)
  {
  }

  /** The lookahead symbol starts the next scan, or is all of it. */
  lemma AheadStarts(src: string, b: nat, pos: nat, sym: Symbol, value: int, nextvalue: int)
    requires Ahead(src, b, pos, sym, value)
    ensures if sym == NoSym || IsRun(sym) then Scanning(src, b, pos, sym, value)
            else Scanned(src, b, pos, sym, value, NoSym, nextvalue)
  {
  }

  /** What one more character does to the scan. */
  lemma CharScans(src: string, b: nat, pos: nat, cursym: Symbol, curvalue: int, nextvalue: int)
    requires pos < |src| && Scanning(src, b, pos, cursym, curvalue)
    ensures var s, d := SymbolOf(src[pos]), Direction(src[pos]);
            if s == NoSym then Scanning(src, b, pos + 1, cursym, curvalue)
            else if cursym == NoSym then
              if IsRun(s) then Scanning(src, b, pos + 1, s, d)
              else Scanned(src, b, pos + 1, s, curvalue, NoSym, nextvalue)
            else if s == cursym then Scanning(src, b, pos + 1, cursym, curvalue + d)
            else Scanned(src, b, pos + 1, cursym, curvalue, s, if IsRun(s) then d else nextvalue)
  {
  }

  lemma EofScans(src: string, b: nat, pos: nat, cursym: Symbol, curvalue: int, nextvalue: int)
    requires pos == |src| && Scanning(src, b, pos, cursym, curvalue)
    ensures if cursym == NoSym then Scanned(src, b, pos, Eof, curvalue, NoSym, nextvalue)
            else Scanned(src, b, pos, cursym, curvalue, Eof, nextvalue)
  {
  }

  /** The enclosing loop's test block holds its phi alone. */
  ghost predicate LoopReady(e: Em, loop: Option<LoopFrame>) {
    loop.Some? ==>
      var f := loop.value;
      && f.testbb < |e.blocks| && f.testbb != e.cur
      && |e.blocks[f.testbb]| == 1 && e.blocks[f.testbb][0].Phi? && e.blocks[f.testbb][0].dst == f.phi
  }

  /** What a call delivers is what the specification `r` says. */
  ghost predicate Delivers(r: Outcome, err: Option<Error>, e: Em, pos: nat) {
    match r
    case Ok(em, p) => err == None && e == em && pos == p
    case Failed(x) => err == Some(x)
  }

  lemma PlainKeepsLoop(e: Em, checked: bool, t: Token, loop: Option<LoopFrame>)
    requires e.cur < |e.blocks| && LoopReady(e, loop)
    ensures var e' := Plain(e, checked, t);
            e'.cur < |e'.blocks| && LoopReady(e', loop)
  {
    PlainFramed(e, checked, t, None);
  }

  lemma OpenKeepsLoop(e: Em, end: nat)
    requires e.cur < |e.blocks|
    ensures var e' := Opened(e, end);
            e'.cur < |e'.blocks| && LoopReady(e', Some(FrameOf(e)))
  {
  }

  lemma {:induction false} NestedKeepsLoop(src: string, checked: bool, b: nat, e: Em, loop: Option<LoopFrame>)
    requires b <= |src| && e.cur < |e.blocks| && LoopReady(e, loop)
    requires TokenAt(src, b).sym == Loop
    ensures var t := TokenAt(src, b);
            var body := Emit(src, checked, t.end, Opened(e, t.end), Some(FrameOf(e)), t.end - 1);
            body.Ok? ==> body.em.cur < |body.em.blocks| && LoopReady(body.em, loop)
  {
    hide Emit, Opened, TokenAt;
    var t := TokenAt(src, b);
    OpenFramed(e, t.end, None);
    EmitFramed(src, checked, t.end, Opened(e, t.end), Some(FrameOf(e)), t.end - 1);
    var body := Emit(src, checked, t.end, Opened(e, t.end), Some(FrameOf(e)), t.end - 1);
    if body.Ok? {
      FramedInner(e, Opened(e, t.end), body.em, None, |e.blocks|);
    }
  }

  lemma EmitPlain(src: string, checked: bool, b: nat, e: Em, loop: Option<LoopFrame>, open: nat)
    requires b <= |src| && TokenAt(src, b).sym in {Read, Write, Change, Move}
    ensures var t := TokenAt(src, b);
            Emit(src, checked, b, e, loop, open) == Emit(src, checked, t.end, Plain(e, checked, t), loop, open)
  {
  }

  lemma EmitNested(src: string, checked: bool, b: nat, e: Em, loop: Option<LoopFrame>, open: nat)
    requires b <= |src| && TokenAt(src, b).sym == Loop
    ensures var t := TokenAt(src, b);
            var body := Emit(src, checked, t.end, Opened(e, t.end), Some(FrameOf(e)), t.end - 1);
            Emit(src, checked, b, e, loop, open)
            == if body.Failed? then body else Emit(src, checked, body.pos, body.em, loop, open)
  {
  }

  lemma EmitLast(src: string, checked: bool, b: nat, e: Em, loop: Option<LoopFrame>, open: nat)
    requires b <= |src| && (TokenAt(src, b).sym == Eof || TokenAt(src, b).sym == EndLoop)
    ensures var t := TokenAt(src, b);
            Emit(src, checked, b, e, loop, open)
            == if t.sym == Eof then if loop.Some? then Failed(MissingClose) else Ok(Extend(e, [Br(ENDBB)], []), t.end)
               else if loop.None? then Failed(ExtraClose) else Ok(Closed(e, loop.value, open, t.end), t.end)
  {
  }

  class BrainF {
    // Set once, before the source is read
    var memtotal: nat
    var comflag: bool
    var input: string
    var pos: nat
    var ptr_arr: Reg
    var ptr_arrmax: Reg
    var endbb: Label
    var aberrorbb: Label

    // The function's blocks, the builder's insertion block, the head
    var blocks: seq<Block>
    var insertbb: Label
    var curhead: Reg
    var nextReg: Reg
    ghost var cert: Cert

    ghost function View(): Em
      reads this
    {
      Em(blocks, insertbb, curhead, nextReg, cert)
    }

    /** The fixed registers and blocks have the numbers the header gives them. */
    ghost predicate Fixed()
      reads this
    {
      && ptr_arr == ARR && (comflag ==> ptr_arrmax == ARRMAX)
      && endbb == ENDBB && (comflag ==> aberrorbb == ABERRORBB)
    }

    // ----- The builder -----

    /** Appends an instruction without a result. */
    method Insert(i: Instr)
      requires insertbb < |blocks| && Dst(i).None?
      modifies this`blocks, this`cert
      ensures View() == Extend(old(View()), [i], [])
    {
      blocks := blocks[insertbb := blocks[insertbb] + [i]];
      cert := cert.(defs := cert.defs + []);
    }

    /** Appends an instruction that defines the next register, and returns that register. */
    method InsertValue(i: Instr) returns (r: Reg)
      requires insertbb < |blocks| && Dst(i) == Some(nextReg)
      modifies this`blocks, this`nextReg, this`cert
      ensures r == old(nextReg)
      ensures View() == Extend(old(View()), [i], [Site(insertbb, |old(blocks)[insertbb]|)])
    {
      r := nextReg;
      cert := cert.(defs := cert.defs + [Site(insertbb, |blocks[insertbb]|)]);
      blocks := blocks[insertbb := blocks[insertbb] + [i]];
      nextReg := nextReg + 1;
    }

    /** Appends an instruction to a block other than the insertion block. */
    method AppendTo(l: Label, i: Instr)
      requires l < |blocks|
      modifies this`blocks
      ensures blocks == old(blocks)[l := old(blocks)[l] + [i]]
    {
      blocks := blocks[l := blocks[l] + [i]];
    }

    // ----- Straight-line commands -----

    method EmitRead()
      requires insertbb < |blocks|
      modifies this`blocks, this`nextReg, this`cert
      ensures View() == EmitSymbol(old(View()), comflag, Read, 0)
    {
      ghost var e := View();
      var tape_0 := InsertValue(GetChar(nextReg));
      var tape_1 := InsertValue(Trunc(nextReg, tape_0));
      Insert(Store(tape_1, curhead));
      Three(e, GetChar(tape_0), Trunc(tape_1, tape_0), Store(tape_1, curhead));
    }

    method EmitWrite()
      requires insertbb < |blocks|
      modifies this`blocks, this`nextReg, this`cert
      ensures View() == EmitSymbol(old(View()), comflag, Write, 0)
    {
      ghost var e := View();
      var tape_0 := InsertValue(Load(nextReg, curhead));
      var tape_1 := InsertValue(SExt(nextReg, tape_0));
      Insert(PutChar(tape_1));
      Three(e, Load(tape_0, curhead), SExt(tape_1, tape_0), PutChar(tape_1));
    }

    method EmitChange(value: int)
      requires insertbb < |blocks|
      modifies this`blocks, this`nextReg, this`cert
      ensures View() == EmitSymbol(old(View()), comflag, Change, value)
    {
      ghost var e := View();
      var tape_0 := InsertValue(Load(nextReg, curhead));
      var tape_1 := InsertValue(AddI8(nextReg, tape_0, Low8(value)));
      Insert(Store(tape_1, curhead));
      Three(e, Load(tape_0, curhead), AddI8(tape_1, tape_0, Low8(value)), Store(tape_1, curhead));
    }

    /** Moves the head; with checks on, tests it against both ends of the tape. */
    method EmitMove(value: int)
      requires insertbb < |blocks| && Fixed()
      modifies this`blocks, this`nextReg, this`cert, this`curhead, this`insertbb
      ensures View() == EmitSymbol(old(View()), comflag, Move, value)
    {
      ghost var e := View();
      var head := InsertValue(Gep(nextReg, curhead, Low32(value)));
      curhead := head;
      if comflag {
        var test_2 := EmitTests();
        Four(e, head, Gep(head, e.head, Low32(value)), ICmpUGE(head + 1, head, ARRMAX),
             ICmpULT(head + 2, head, ARR), Or(head + 3, head + 1, head + 2));
        CheckedMove(e, value);
        EmitErrorBranch(test_2);
      }
    }

    method EmitTests() returns (test_2: Reg)
      requires insertbb < |blocks| && Fixed() && comflag
      modifies this`blocks, this`nextReg, this`cert
      ensures test_2 == old(nextReg) + 2
      ensures var e := old(View());
              var n, l, r := |e.blocks[e.cur]|, e.cur, e.next;
              View() == Extend(Extend(Extend(e, [ICmpUGE(r, e.head, ARRMAX)], [Site(l, n)]),
                                      [ICmpULT(r + 1, e.head, ARR)], [Site(l, n + 1)]),
                               [Or(r + 2, r, r + 1)], [Site(l, n + 2)])
    {
      var test_0 := InsertValue(ICmpUGE(nextReg, curhead, ptr_arrmax));
      var test_1 := InsertValue(ICmpULT(nextReg, curhead, ptr_arr));
      test_2 := InsertValue(Or(nextReg, test_0, test_1));
    }

    /** Ends the block: to the error block if the test holds, otherwise into a fresh block. */
    method EmitErrorBranch(test_2: Reg)
      requires insertbb < |blocks| && Fixed() && comflag
      modifies this`blocks, this`cert, this`insertbb
      ensures View() == ErrorBranch(old(View()), test_2)
    {
      ghost var e := View();
      var nextbb := |blocks|;
      blocks := blocks + [[]];
      Insert(CondBr(test_2, aberrorbb, nextbb));
      cert := cert.(doms := cert.doms + [DomsOf(cert, insertbb) + {nextbb}]);
      insertbb := nextbb;
      AppendThenExtend(e.blocks, e.cur, CondBr(test_2, ABERRORBB, nextbb), []);
    }

    // ----- Loops -----

    /** Ends the current block with a branch to a fresh test block and makes its phi now; the
        phi is finished at the end of the loop. */
    method EmitOpen() returns (f: LoopFrame)
      requires insertbb < |blocks|
      modifies this`blocks, this`nextReg, this`cert, this`curhead, this`insertbb
      ensures f == FrameOf(old(View())) && View() == BrainFEmitter.EmitOpen(old(View()))
    {
      ghost var e := View();
      var testbb := |blocks|;
      blocks := blocks + [[]];
      Insert(Br(testbb));
      var bb_0 := insertbb;
      var bb_1 := |blocks|;
      blocks := blocks + [[]];
      insertbb := bb_1;
      var phi_0 := nextReg;
      AppendTo(testbb, Phi(phi_0, [(curhead, bb_0)]));
      nextReg := nextReg + 1;
      cert := cert.(defs := cert.defs + [Site(testbb, 0)],
                    doms := cert.doms + [DomsOf(cert, bb_0) + {testbb}]);
      cert := cert.(doms := cert.doms + [DomsOf(cert, testbb) + {bb_1}]);
      curhead := phi_0;
      f := LoopFrame(phi_0, bb_1, testbb);
      OpenedBlocks(e.blocks, e.cur, Br(testbb), Phi(phi_0, [(e.head, bb_0)]));
    }

    /** Branches back from the end of the loop's body, and finishes the test block's phi. */
    method FinishPhi(f: LoopFrame)
      requires insertbb < |blocks| && f.testbb < |blocks| && f.testbb != insertbb
      requires |blocks[f.testbb]| == 1 && blocks[f.testbb][0].Phi? && blocks[f.testbb][0].dst == f.phi
      modifies this`blocks, this`cert
      ensures cert == old(cert)
      ensures var t, cur, g := f.testbb, insertbb, old(blocks);
              var incoming := g[t][0].incoming + [(curhead, cur)];
              var g1 := g[cur := g[cur] + [Br(t)]];
              blocks == g1[t := g1[t][0 := Phi(f.phi, incoming)]]
    {
      Insert(Br(f.testbb));
      assert cert.defs == old(cert).defs + [] == old(cert).defs;
      var phi := blocks[f.testbb][0];
      blocks := blocks[f.testbb := blocks[f.testbb][0 := Phi(phi.dst, phi.incoming + [(curhead, insertbb)])]];
    }

    /** Branches back, finishes the test block's phi, writes the loop test into the test block
        and goes on in a fresh block behind the loop. */
    method EmitClose(f: LoopFrame)
      requires insertbb < |blocks| && f.testbb < |blocks| && f.testbb != insertbb
      requires |blocks[f.testbb]| == 1 && blocks[f.testbb][0].Phi? && blocks[f.testbb][0].dst == f.phi
      modifies this`blocks, this`nextReg, this`cert, this`curhead, this`insertbb
      ensures View() == BrainFEmitter.EmitClose(old(View()), f)
    {
      hide BrainFEmitter.EmitClose;
      ghost var e := View();
      FinishPhi(f);
      var head_0 := f.phi;
      var tape_0 := nextReg;
      AppendTo(f.testbb, Load(tape_0, head_0));
      var test_0 := nextReg + 1;
      AppendTo(f.testbb, ICmpEqZero(test_0, tape_0));
      var bb_0 := |blocks|;
      blocks := blocks + [[]];
      AppendTo(f.testbb, CondBr(test_0, bb_0, f.oldbb));
      insertbb := bb_0;
      var phi_1 := nextReg + 2;
      AppendTo(bb_0, Phi(phi_1, [(head_0, f.testbb)]));
      nextReg := nextReg + 3;
      curhead := phi_1;
      cert := cert.(defs := cert.defs + [Site(f.testbb, 1), Site(f.testbb, 2), Site(bb_0, 0)],
                    doms := cert.doms + [DomsOf(cert, f.testbb) + {bb_0}]);
      ClosedBlocks(e, f);
      ClosedRest(e, f);
    }

    /** The code of a one-block command; `end` is the source position behind it. */
    method EmitCommand(sym: Symbol, value: int, ghost end: nat)
      requires insertbb < |blocks| && Fixed() && sym in {Read, Write, Change, Move}
      modifies this`blocks, this`nextReg, this`cert, this`curhead, this`insertbb
      ensures View() == Mark(EmitSymbol(old(View()), comflag, sym, value), end)
    {
      hide EmitSymbol;
      ghost var e := View();
      if sym == Read || sym == Write {
        ValueUnused(e, comflag, sym, value);
      }
      match sym {
        case Read => EmitRead();
        case Write => EmitWrite();
        case Move => EmitMove(value);
        case Change => EmitChange(value);
      }
      MarkHere(end);
    }

    ghost method MarkHere(end: nat)
      modifies this`cert
      ensures View() == Mark(old(View()), end)
    {
      cert := Mark(View(), end).cert;
    }

    // ----- Parsing -----

    /** The reading loop of `readloop`: goes on with the symbol read so far until it is known
        to be complete, looking one symbol ahead behind a run. */
    method ReadSymbol(sym: Symbol, value: int, lookahead: int, ghost b: nat)
      returns (cursym: Symbol, curvalue: int, nextsym: Symbol, nextvalue: int)
      requires pos <= |input| && (sym == NoSym || IsRun(sym)) && Scanning(input, b, pos, sym, value)
      modifies this`pos
      ensures Scanned(input, b, pos, cursym, curvalue, nextsym, nextvalue)
    {
      hide Scan, TokenAt, Scanning, Scanned;
      cursym, curvalue, nextsym, nextvalue := sym, value, NoSym, lookahead;
      var scanning := true;
      while scanning
        invariant pos <= |input| && (scanning ==> cursym == NoSym || IsRun(cursym))
        invariant if scanning then nextsym == NoSym && Scanning(input, b, pos, cursym, curvalue)
                  else Scanned(input, b, pos, cursym, curvalue, nextsym, nextvalue)
        decreases |input| - pos, scanning
      {
        if pos == |input| {
          EofScans(input, b, pos, cursym, curvalue, nextvalue);
          if cursym == NoSym {
            cursym := Eof;
          } else {
            nextsym := Eof;
          }
          scanning := false;
        } else {
          var c := input[pos];
          CharScans(input, b, pos, cursym, curvalue, nextvalue);
          pos := pos + 1;
          var direction := 1;
          if c == '-' || c == '+' {
            if c == '-' {
              direction := -1;
            }
            if cursym == Change {
              curvalue := curvalue + direction;
            } else if cursym == NoSym {
              cursym, curvalue := Change, direction;
            } else {
              nextsym, nextvalue, scanning := Change, direction, false;
            }
          } else if c == '<' || c == '>' {
            if c == '<' {
              direction := -1;
            }
            if cursym == Move {
              curvalue := curvalue + direction;
            } else if cursym == NoSym {
              cursym, curvalue := Move, direction;
            } else {
              nextsym, nextvalue, scanning := Move, direction, false;
            }
          } else if c == ',' || c == '.' || c == '[' || c == ']' {
            var sym := if c == ',' then Read else if c == '.' then Write else if c == '[' then Loop else EndLoop;
            if cursym == NoSym {
              cursym := sym;
            } else {
              nextsym := sym;
            }
            scanning := false;
          }
        }
      }
    }

    /** SYM_LOOP: opens a loop at the '[' just read and compiles its body. */
    method EmitLoop(ghost b: nat) returns (err: Option<Error>)
      requires Fixed() && insertbb < |blocks| && b < pos <= |input|
      requires var t := TokenAt(input, b); t.sym == Loop && t.end == pos
      modifies this`blocks, this`nextReg, this`cert, this`curhead, this`insertbb, this`pos
      ensures var e := old(View());
              Delivers(Emit(input, comflag, old(pos), Opened(e, old(pos)), Some(FrameOf(e)), old(pos) - 1),
                       err, View(), pos)
      decreases |input| - b, 1
    {
      hide Emit, BrainFEmitter.EmitOpen;
      OpenKeepsLoop(View(), pos);
      var f := EmitOpen();
      MarkHere(pos);
      err := ReadLoop(Some(f), pos - 1);
    }

    /** Writes out the symbol `cursym` scanned at source position `b`; `m` is the position the
        source is compiled up to afterwards. */
    method WriteOut(cursym: Symbol, curvalue: int, loop: Option<LoopFrame>, ghost open: nat, ghost b: nat)
      returns (err: Option<Error>, ghost m: nat)
      requires Fixed() && insertbb < |blocks| && LoopReady(View(), loop) && b <= |input| && b <= pos <= |input|
      requires var t := TokenAt(input, b);
               && cursym == t.sym && cursym !in {NoSym, Eof, EndLoop} && (IsRun(cursym) ==> curvalue == t.value)
               && (cursym == Loop ==> pos == t.end)
      modifies this`blocks, this`nextReg, this`cert, this`curhead, this`insertbb, this`pos
      ensures var t := TokenAt(input, b);
              var r := Emit(input, comflag, b, old(View()), loop, open);
              if err.Some? then r == Failed(err.value)
              else
                && b < m <= |input| && insertbb < |blocks| && LoopReady(View(), loop)
                && r == Emit(input, comflag, m, View(), loop, open)
                && if cursym == Loop then m == pos else m == t.end && pos == old(pos)
      decreases |input| - b, 2
    {
      hide Emit, EmitSymbol, Plain, Opened, LoopReady, FrameOf, TokenAt, Mark;
      ghost var e, t := View(), TokenAt(input, b);
      err := None;
      if cursym == Loop {
        EmitNested(input, comflag, b, e, loop, open);
        NestedKeepsLoop(input, comflag, b, e, loop);
        err := EmitLoop(b);
        m := pos;
      } else {
        EmitPlain(input, comflag, b, e, loop, open);
        PlainKeepsLoop(e, comflag, t, loop);
        PlainIs(e, comflag, t, curvalue);
        EmitCommand(cursym, curvalue, t.end);
        m := t.end;
      }
    }

    /** The main loop: writes out the current symbol, then scans the next one. `loop` is the
        frame of the enclosing loop, opened at input[open], or None at top level. */
    method ReadLoop(loop: Option<LoopFrame>, ghost open: nat) returns (err: Option<Error>)
      requires Fixed() && insertbb < |blocks| && pos <= |input| && LoopReady(View(), loop)
      modifies this`blocks, this`nextReg, this`cert, this`curhead, this`insertbb, this`pos
      ensures Delivers(Emit(input, comflag, old(pos), old(View()), loop, open), err, View(), pos)
      decreases |input| - pos, 3
    {
      hide Emit, TokenAt, LoopReady, Scanned, Scanning, Ahead;
      var cursym, curvalue, nextsym, nextvalue := NoSym, 0, NoSym, 0;
      ghost var p0, b := pos, pos;
      ghost var spec := Emit(input, comflag, pos, View(), loop, open);
      err := None;

      while cursym != Eof && cursym != EndLoop
        invariant p0 <= b <= pos <= |input| && insertbb < |blocks| && LoopReady(View(), loop)
        invariant Emit(input, comflag, b, View(), loop, open) == spec
        invariant if cursym == NoSym then b == pos && nextsym == NoSym
                  else Scanned(input, b, pos, cursym, curvalue, nextsym, nextvalue)
        decreases |input| - b, if cursym == NoSym then 1 else 0
      {
        // Code for the symbol read so far
        if cursym != NoSym {
          ScannedIs(input, b, pos, cursym, curvalue, nextsym, nextvalue);
          err, b := WriteOut(cursym, curvalue, loop, open, b);
          if err.Some? {
            return;
          }
        }
        cursym, curvalue, nextsym := nextsym, nextvalue, NoSym;

        // On to the next symbol
        AheadAtEnd(input, b);
        AheadStarts(input, b, pos, cursym, curvalue, nextvalue);
        if cursym == NoSym || cursym == Move || cursym == Change {
          cursym, curvalue, nextsym, nextvalue := ReadSymbol(cursym, curvalue, nextvalue, b);
        }
        ScannedIs(input, b, pos, cursym, curvalue, nextsym, nextvalue);
      }

      ScannedIs(input, b, pos, cursym, curvalue, nextsym, nextvalue);
      err := Finish(loop, cursym, open, b);
    }

    /** Behind the main loop: closes the loop at ']', or ends the program at the end of input. */
    method Finish(loop: Option<LoopFrame>, cursym: Symbol, ghost open: nat, ghost b: nat) returns (err: Option<Error>)
      requires Fixed() && insertbb < |blocks| && LoopReady(View(), loop) && b <= |input|
      requires var t := TokenAt(input, b); cursym == t.sym && t.sym in {Eof, EndLoop} && pos == t.end
      modifies this`blocks, this`nextReg, this`cert, this`curhead, this`insertbb
      ensures Delivers(Emit(input, comflag, b, old(View()), loop, open), err, View(), pos)
    {
      hide Emit, TokenAt, Extend, Closed, LoopReady;
      EmitLast(input, comflag, b, View(), loop, open);
      err := None;
      if cursym == EndLoop {
        if loop.None? {
          err := Some(ExtraClose);
        } else {
          FinishLoop(loop.value, open);
        }
      } else {
        // Top level: leave through the end block
        Insert(Br(endbb));
        if loop.Some? {
          err := Some(MissingClose);
        }
      }
    }

    /** Writes the loop test at the ']' just read. */
    method FinishLoop(f: LoopFrame, ghost open: nat)
      requires insertbb < |blocks| && LoopReady(View(), Some(f)) && pos > 0
      modifies this`blocks, this`nextReg, this`cert, this`curhead, this`insertbb
      ensures View() == Closed(old(View()), f, open, pos)
    {
      hide BrainFEmitter.EmitClose;
      ghost var e := View();
      EmitClose(f);
      cert := MarkLoop(View(), f, e.next, open, pos - 1).cert;
      MarkHere(pos);
    }

    /** The function's entry block, its end block and, with checks on, its error block. */
    method BuildHeader()
      modifies this`blocks, this`nextReg, this`cert, this`curhead, this`insertbb
      modifies this`ptr_arr, this`ptr_arrmax, this`endbb, this`aberrorbb
      ensures View() == Header(comflag, memtotal) && Fixed()
    {
      BuildEntry();
      BuildEnd();
      if comflag {
        BuildError();
      }
    }

    method BuildEntry()
      modifies this`blocks, this`nextReg, this`cert, this`curhead, this`insertbb, this`ptr_arr, this`ptr_arrmax
      ensures ptr_arr == ARR && (comflag ==> ptr_arrmax == ARRMAX)
      ensures View() == EntryOnly(comflag, memtotal)
    {
      hide EntryOnly, Extend;
      BuildAlloc();
      ghost var e := View();
      if comflag {
        ptr_arrmax := InsertValue(Gep(nextReg, ptr_arr, Low32(memtotal)));
        PointerCode(e, memtotal);
      }
      curhead := InsertValue(Gep(nextReg, ptr_arr, Low32(memtotal / 2)));
      HeadCode(e, comflag, memtotal);
    }

    /** Allocates the tape and sets it to zero. */
    method BuildAlloc()
      modifies this`blocks, this`nextReg, this`cert, this`insertbb, this`ptr_arr
      ensures ptr_arr == ARR && View() == Allocated(curhead, memtotal)
    {
      blocks, insertbb, nextReg := [[]], ENTRYBB, 0;
      cert := Cert(map[], map[], map[], [], [{ENTRYBB}]);
      ptr_arr := InsertValue(Malloc(nextReg, memtotal));
      Insert(Memset(ptr_arr, memtotal));
      assert blocks[ENTRYBB] == [Malloc(ARR, memtotal), Memset(ARR, memtotal)];
    }

    /** The function's footer: frees the tape and returns. */
    method BuildEnd()
      requires |blocks| == 1
      modifies this`blocks, this`cert, this`endbb
      ensures endbb == ENDBB
      ensures blocks == old(blocks) + [[Free(ptr_arr), Ret]]
      ensures cert == old(cert).(doms := old(cert).doms + [{ENTRYBB, ENDBB}])
    {
      endbb := |blocks|;
      blocks := blocks + [[]];
      AppendTo(endbb, Free(ptr_arr));
      AppendTo(endbb, Ret);
      cert := cert.(doms := cert.doms + [{ENTRYBB, endbb}]);
      assert blocks[endbb] == [Free(ptr_arr), Ret];
    }

    /** The block that reports a head off the tape and leaves through the end block. */
    method BuildError()
      requires |blocks| == 2
      modifies this`blocks, this`cert, this`aberrorbb
      ensures aberrorbb == ABERRORBB
      ensures blocks == old(blocks) + [[Puts(ERROR_TEXT), Br(endbb)]]
      ensures cert == old(cert).(doms := old(cert).doms + [{ENTRYBB, ABERRORBB}])
    {
      aberrorbb := |blocks|;
      blocks := blocks + [[]];
      AppendTo(aberrorbb, Puts(ERROR_TEXT));
      AppendTo(aberrorbb, Br(endbb));
      cert := cert.(doms := cert.doms + [{ENTRYBB, aberrorbb}]);
      assert blocks[aberrorbb] == [Puts(ERROR_TEXT), Br(endbb)];
    }

    /** Compiles the source text `in1` for a tape of `mem` cells. On error there is no module. */
    method Parse(in1: string, mem: nat, cf: bool) returns (r: ParseResult)
      modifies this
      ensures r == match Compile(in1, cf, mem)
                   case Ok(em, _) => Module(em.blocks)
                   case Failed(error) => Abort(error)
    {
      hide Emit, Header, Mark;
      input, pos, memtotal, comflag := in1, 0, mem, cf;
      BuildHeader();
      HeaderCurrent(cf, mem);
      MarkHere(0);
      var err := ReadLoop(None, 0);
      r := if err.Some? then Abort(err.value) else Module(blocks);
    }
  }

  /** The header when only the entry block is there. */
  ghost function EntryOnly(checked: bool, memtotal: nat): Em {
    var e := Header(checked, memtotal);
    e.(blocks := e.blocks[..1], cert := e.cert.(doms := e.cert.doms[..1]))
  }

  ghost function Allocated(head: Reg, memtotal: nat): Em {
    Em([[Malloc(ARR, memtotal), Memset(ARR, memtotal)]], ENTRYBB, head, 1,
       Cert(map[], map[], map[], [Site(ENTRYBB, 0)], [{ENTRYBB}]))
  }

  lemma PointerCode(e: Em, memtotal: nat)
    requires e == Allocated(e.head, memtotal)
    ensures var e' := Extend(e, [Gep(ARRMAX, ARR, Low32(memtotal))], [Site(ENTRYBB, 2)]);
            e'.cur < |e'.blocks| && |e'.blocks[e'.cur]| == 3 && e'.next == 2 && e'.head == e.head
  {
  }

  lemma HeadCode(e: Em, checked: bool, memtotal: nat)
    requires e == Allocated(e.head, memtotal)
    ensures var e3 := if checked then Extend(e, [Gep(ARRMAX, ARR, Low32(memtotal))], [Site(ENTRYBB, 2)]) else e;
            var e4 := Extend(e3, [Gep(e3.next, ARR, Low32(memtotal / 2))], [Site(ENTRYBB, if checked then 3 else 2)]);
            e4.(head := e3.next) == EntryOnly(checked, memtotal)
  {
    var code := e.blocks[ENTRYBB];
    var head := [Gep(if checked then 2 else 1, ARR, Low32(memtotal / 2))];
    if checked {
      var bound := [Gep(ARRMAX, ARR, Low32(memtotal))];
      ExtendTwice(e, bound, [Site(ENTRYBB, 2)], head, [Site(ENTRYBB, 3)]);
      assert code + (bound + head) == EntryBlock(checked, memtotal);
    } else {
      assert code + head == EntryBlock(checked, memtotal);
    }
  }

  lemma HeaderCurrent(checked: bool, memtotal: nat)
    ensures var e := Mark(Header(checked, memtotal), 0);
            e.cur < |e.blocks|
  {
  }

  lemma PlainIs(e: Em, checked: bool, t: Token, value: int)
    requires t.sym in {Read, Write, Change, Move} && (IsRun(t.sym) ==> value == t.value)
    ensures Plain(e, checked, t) == Mark(EmitSymbol(e, checked, t.sym, value), t.end)
  {
  }

  lemma ValueUnused(e: Em, checked: bool, sym: Symbol, value: int)
    requires sym == Read || sym == Write
    ensures EmitSymbol(e, checked, sym, value) == EmitSymbol(e, checked, sym, 0)
  {
  }
}
