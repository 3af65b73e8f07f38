/** The emitted graph and the source text run in step with each other: from any recorded
    source position, one token of source and its code reach corresponding states. */
module BrainFSimulation {
  import opened BrainFSource
  import opened BrainFIr
  import opened BrainFEmitter
  import opened BrainFFrame
  import opened BrainFLinks
  import opened BrainFLinking
  import opened BrainFBrackets
  import opened BrainFAcceptance
  import opened BrainFReferenceRuns
  import opened BrainFGraphRuns
  import opened Wrappers
  import R = BrainFReference

  // ----- What compilation leaves behind -----

  ghost predicate FixedBlocks(g: seq<Block>, checked: bool, memtotal: nat) {
    && 2 < |g| + (if checked then 0 else 1)
    && EntryBlock(checked, memtotal) <= g[ENTRYBB]
    && g[ENDBB] == [Free(ARR), Ret]
    && (checked ==> g[ABERRORBB] == [Puts(ERROR_TEXT), Br(ENDBB)])
  }

  function FirstHead(checked: bool): Reg {
    if checked then ARRMAX + 1 else ARR + 1
  }

  /** `g` is a complete translation of `src`, as certified by `c`. */
  ghost predicate Compiled(g: seq<Block>, src: string, checked: bool, memtotal: nat, c: Cert) {
    && FixedBlocks(g, checked, memtotal)
    && RunsTo(c, 0, Point(ENTRYBB, |EntryBlock(checked, memtotal)|, FirstHead(checked), FirstHead(checked) + 1))
    && (forall b :: b in c.points ==> Implements(g, src, checked, c, b))
    && LoopsMatch(src, c)
  }

  lemma HeaderGood(src: string, checked: bool, memtotal: nat)
    ensures var e := Mark(Header(checked, memtotal), 0);
            && Good(e, src, checked, 0, None, 0, 0) && LoopsMatch(src, e.cert)
            && FixedBlocks(e.blocks, checked, memtotal) && e.cur == ENTRYBB
            && RunsTo(e.cert, 0,
                Point(ENTRYBB, |EntryBlock(checked, memtotal)|, FirstHead(checked), FirstHead(checked) + 1))
  {
  }

  lemma CompileCompiles(src: string, checked: bool, memtotal: nat)
    ensures var r := Compile(src, checked, memtotal);
            r.Ok? ==> Compiled(r.em.blocks, src, checked, memtotal, r.em.cert)
  {
    hide Header, Mark, Emit, Good, LoopsMatch, Implements, RestsOn;
    var e := Mark(Header(checked, memtotal), 0);
    HeaderGood(src, checked, memtotal);
    GoodParts(e, src, checked);
    EmitFramed(src, checked, 0, e, None, 0);
    EmitRecords(src, checked, 0, e, None, 0);
    EmitLinks(src, checked, 0, e, None, 0, 0);
    EmitMatches(src, checked, 0, e, None, 0);
  }

  lemma GoodParts(e: Em, src: string, checked: bool)
    requires Good(e, src, checked, 0, None, 0, 0)
    ensures e.cur < |e.blocks| && UpTo(e.cert, 0)
  {
  }

  // ----- Corresponding states -----

  /** Runs fit the scanner's `int`, the tape size is a positive `int`, and malloc delivers that much. */
  ghost predicate World(src: string, memtotal: nat, env: Env) {
    ShortRuns(src) && 1 <= memtotal < 0x8000_0000 && |env.garbage| == memtotal
  }

  /** Same tape, same input consumed, same log of reads and writes. */
  ghost predicate Alike(m: R.Machine, cfg: Config) {
    cfg.tape == m.tape && cfg.consumed == m.consumed && cfg.log == m.log
  }

  /** The pointers into the tape hold what they stand for. */
  ghost predicate Pointers(env: Env, checked: bool, memtotal: nat, m: R.Machine, cfg: Config, head: Reg) {
    && cfg.live && |m.tape| == memtotal
    && head in cfg.regs && cfg.regs[head] == env.base + m.head
    && ARR in cfg.regs && cfg.regs[ARR] == env.base
    && (checked ==> ARRMAX in cfg.regs && cfg.regs[ARRMAX] == env.base + memtotal)
  }

  /** The machine stands at source position `b` and the graph at point `p`. With checks on
      the head is on the tape. */
  ghost predicate SyncedAt(p: Point, env: Env, checked: bool, memtotal: nat, b: nat, m: R.Machine, cfg: Config) {
    && m.status == R.Running(b)
    && cfg.loc.At? && cfg.loc.block == p.block && cfg.loc.pc == p.pc
    && Alike(m, cfg) && Pointers(env, checked, memtotal, m, cfg, p.head)
    && (checked ==> R.OnTape(m))
  }

  /** Both stand at the recorded source position `b`. */
  ghost predicate Synced(c: Cert, env: Env, checked: bool, memtotal: nat, b: nat, m: R.Machine, cfg: Config) {
    b in c.points && SyncedAt(c.points[b], env, checked, memtotal, b, m, cfg)
  }

  /** Both have stopped the same way; a normal return has freed the tape. */
  ghost predicate Stopped(checked: bool, m: R.Machine, cfg: Config) {
    && Alike(m, cfg)
    && (if cfg.loc == Returned then (m.status == R.Done || m.status == R.OffTape) && !cfg.live
        else cfg.loc == Faulted && m.status == R.Fault && !checked)
  }

  ghost predicate Related(c: Cert, env: Env, checked: bool, memtotal: nat, m: R.Machine, cfg: Config) {
    Stopped(checked, m, cfg) || exists b :: Synced(c, env, checked, memtotal, b, m, cfg)
  }

  // ----- The reference side of one-command tokens -----

  /** Comments in front of a one-command token, then the command. */
  lemma SingleRuns(src: string, checked: bool, input: seq<Byte>, m: R.Machine, b: nat)
    requires b <= |src| && m.status == R.Running(b)
    requires var t := TokenAt(src, b); t.sym != Eof && !IsRun(t.sym)
    ensures var t := TokenAt(src, b);
            R.Run(src, checked, input, m, t.end - b) == R.Step(src, checked, input, m.(status := R.Running(t.end - 1)))
  {
    TokenCovers(src, b);
    hide TokenAt, R.Step;
    var at := TokenAt(src, b).end - 1;
    Comments(src, checked, input, m, b, at);
    RefRunAdd(src, checked, input, m, at - b, 1);
    var m' := m.(status := R.Running(at));
    assert R.Run(src, checked, input, m', 1) == R.Run(src, checked, input, R.Step(src, checked, input, m'), 0);
  }

  lemma OnTapeIffAddressable(env: Env, checked: bool, memtotal: nat, m: R.Machine, cfg: Config, head: Reg)
    requires Alike(m, cfg) && Pointers(env, checked, memtotal, m, cfg, head)
    ensures head in cfg.regs && (R.OnTape(m) <==> Addressable(env, cfg, cfg.regs[head]))
    ensures cfg.regs[head] - env.base == m.head
  {
  }

  /** Defining registers above the head register disturbs no pointer. */
  lemma PointersStay(env: Env, checked: bool, memtotal: nat, m: R.Machine, cfg: Config, head: Reg, m': R.Machine,
                     cfg': Config, r: Reg, x: int, y: int)
    requires Pointers(env, checked, memtotal, m, cfg, head) && HeadOk(checked, head, r)
    requires cfg'.regs == cfg.regs[r := x][r + 1 := y] && cfg'.live == cfg.live
    requires m'.head == m.head && |m'.tape| == |m.tape|
    ensures Pointers(env, checked, memtotal, m', cfg', head)
  {
  }

  // ----- Straight-line tokens -----

  lemma SameTape(m: R.Machine, m': R.Machine)
    requires m'.head == m.head && |m'.tape| == |m.tape|
    ensures R.OnTape(m') <==> R.OnTape(m)
    ensures R.OnTape(m) ==> 0 <= m.head < |m.tape|
  {
  }

  lemma RefRead(src: string, checked: bool, input: seq<Byte>, m: R.Machine, i: nat)
    requires i < |src| && SymbolOf(src[i]) == Read && m.status == R.Running(i)
    ensures var consumed := if m.consumed < |input| then m.consumed + 1 else m.consumed;
            var v := if m.consumed < |input| then input[m.consumed] else 255;
            var asked := m.(consumed := consumed, log := m.log + [Asked]);
            R.Step(src, checked, input, m) ==
            if R.OnTape(m) then asked.(tape := m.tape[m.head := v], status := R.Running(i + 1))
            else asked.(status := R.Fault)
  {
  }

  lemma RefWrite(src: string, checked: bool, input: seq<Byte>, m: R.Machine, i: nat)
    requires i < |src| && SymbolOf(src[i]) == Write && m.status == R.Running(i)
    ensures R.Step(src, checked, input, m) ==
            if R.OnTape(m) then m.(log := m.log + [Char(m.tape[m.head])], status := R.Running(i + 1))
            else m.(status := R.Fault)
  {
  }

  /** The outcome of a token without a branch: on to `end` at `q`, or a fault off the tape. */
  ghost predicate TokenDone(q: Point, env: Env, checked: bool, memtotal: nat, end: nat, m: R.Machine, m': R.Machine,
                            cfg': Config) {
    if R.OnTape(m) then SyncedAt(q, env, checked, memtotal, end, m', cfg') else Stopped(checked, m', cfg')
  }

  lemma ReadToken(g: seq<Block>, src: string, checked: bool, memtotal: nat, env: Env, p: Point, b: nat, m: R.Machine,
                  cfg: Config)
    requires b <= |src| && TokenAt(src, b).sym == Read && HeadOk(checked, p.head, p.nextReg)
    requires SyncedAt(p, env, checked, memtotal, b, m, cfg) && CodeAt(g, p.block, p.pc, ReadCode(p.nextReg, p.head))
    ensures var end := TokenAt(src, b).end;
            TokenDone(Point(p.block, p.pc + 3, p.head, p.nextReg + 2), env, checked, memtotal, end, m,
                      R.Run(src, checked, env.input, m, end - b), Run(g, env, cfg, 3))
  {
    hide TokenAt, R.Run, R.Step, Run, CodeAt, Only, Addressable, R.OnTape, Pointers;
    var end := TokenAt(src, b).end;
    var m' := R.Run(src, checked, env.input, m, end - b);
    var cfg' := Run(g, env, cfg, 3);
    TokenCovers(src, b);
    SingleRuns(src, checked, env.input, m, b);
    RefRead(src, checked, env.input, m.(status := R.Running(end - 1)), end - 1);
    OnTapeIffAddressable(env, checked, memtotal, m, cfg, p.head);
    ReadRuns(g, env, cfg, cfg.loc.prev, p.block, p.pc, p.nextReg, p.head);
    SameTape(m, m.(status := R.Running(end - 1)));
    if R.OnTape(m) {
      var x := ReadChar(env, cfg.consumed);
      PointersStay(env, checked, memtotal, m, cfg, p.head, m', cfg', p.nextReg, x, Low8(x));
      SameTape(m, m');
    }
  }

  lemma WriteToken(g: seq<Block>, src: string, checked: bool, memtotal: nat, env: Env, p: Point, b: nat, m: R.Machine,
                   cfg: Config)
    requires b <= |src| && TokenAt(src, b).sym == Write && HeadOk(checked, p.head, p.nextReg)
    requires SyncedAt(p, env, checked, memtotal, b, m, cfg) && CodeAt(g, p.block, p.pc, WriteCode(p.nextReg, p.head))
    ensures var end := TokenAt(src, b).end;
            TokenDone(Point(p.block, p.pc + 3, p.head, p.nextReg + 2), env, checked, memtotal, end, m,
                      R.Run(src, checked, env.input, m, end - b), Run(g, env, cfg, 3))
  {
    hide TokenAt, R.Run, R.Step, Run, CodeAt, Only, Addressable, R.OnTape, Pointers;
    var end := TokenAt(src, b).end;
    var m' := R.Run(src, checked, env.input, m, end - b);
    var cfg' := Run(g, env, cfg, 3);
    TokenCovers(src, b);
    SingleRuns(src, checked, env.input, m, b);
    SameTape(m, m.(status := R.Running(end - 1)));
    RefWrite(src, checked, env.input, m.(status := R.Running(end - 1)), end - 1);
    OnTapeIffAddressable(env, checked, memtotal, m, cfg, p.head);
    WriteRuns(g, env, cfg, cfg.loc.prev, p.block, p.pc, p.nextReg, p.head);
    if R.OnTape(m) {
      var x := m.tape[m.head];
      PointersStay(env, checked, memtotal, m, cfg, p.head, m', cfg', p.nextReg, x, SignExtend8(x));
      SameTape(m, m');
    }
  }

  lemma {:induction false} SomeCount(src: string, i: nat, j: nat, s: Symbol)
    requires i <= j <= |src| && exists k :: i <= k < j && SymbolOf(src[k]) == s
    ensures Count(src, i, j, s) > 0
    decreases j - i
  {
    if SymbolOf(src[i]) != s {
      SomeCount(src, i + 1, j, s);
    }
  }

  /** A whole run of changes against the reference machine: its net sum, from its first character. */
  lemma RunOfChanges(src: string, checked: bool, input: seq<Byte>, m: R.Machine, b: nat)
    requires b <= |src| && TokenAt(src, b).sym == Change && m.status == R.Running(b)
    ensures var t := TokenAt(src, b);
            R.Run(src, checked, input, m, t.end - b) == Changed(m, t.value, t.end)
  {
    TokenCovers(src, b);
    SomeCount(src, b, TokenAt(src, b).end, Change);
    ChangesAddUp(src, checked, input, m, b, TokenAt(src, b).end);
  }

  lemma ChangeToken(g: seq<Block>, src: string, checked: bool, memtotal: nat, env: Env, p: Point, b: nat,
                    m: R.Machine, cfg: Config)
    requires b <= |src| && TokenAt(src, b).sym == Change && HeadOk(checked, p.head, p.nextReg)
    requires SyncedAt(p, env, checked, memtotal, b, m, cfg)
    requires CodeAt(g, p.block, p.pc, ChangeCode(p.nextReg, p.head, TokenAt(src, b).value))
    ensures var end := TokenAt(src, b).end;
            TokenDone(Point(p.block, p.pc + 3, p.head, p.nextReg + 2), env, checked, memtotal, end, m,
                      R.Run(src, checked, env.input, m, end - b), Run(g, env, cfg, 3))
  {
    hide TokenAt, R.Run, Run, CodeAt, Addressable, R.OnTape, Pointers;
    var t := TokenAt(src, b);
    var m' := R.Run(src, checked, env.input, m, t.end - b);
    var cfg' := Run(g, env, cfg, 3);
    RunOfChanges(src, checked, env.input, m, b);
    OnTapeIffAddressable(env, checked, memtotal, m, cfg, p.head);
    ChangeRuns(g, env, cfg, cfg.loc.prev, p.block, p.pc, p.nextReg, p.head, t.value);
    if R.OnTape(m) {
      SameTape(m, m);
      var x := m.tape[m.head];
      PointersStay(env, checked, memtotal, m, cfg, p.head, m', cfg', p.nextReg, x, Low8(x + t.value));
      SameTape(m, m');
    }
  }

  // ----- Moves -----

  /** The index constant reads back as the net sum, for runs shorter than 2^31. */
  lemma MoveFits(src: string, b: nat)
    requires ShortRuns(src) && b <= |src| && TokenAt(src, b).sym == Move
    ensures Signed32(Low32(TokenAt(src, b).value)) == TokenAt(src, b).value
  {
    TokenCovers(src, b);
    hide TokenAt, Net, Count;
    var t := TokenAt(src, b);
    NetBounded(src, b, t.end, Move);
    assert Count(src, b, t.end, Move) < 0x8000_0000;
  }

  lemma RunOfMoves(src: string, checked: bool, input: seq<Byte>, m: R.Machine, b: nat)
    requires b <= |src| && TokenAt(src, b).sym == Move && m.status == R.Running(b)
    ensures var t := TokenAt(src, b);
            R.Run(src, checked, input, m, t.end - b) == MovedBy(m, t.value, t.end, checked)
  {
    TokenCovers(src, b);
    SomeCount(src, b, TokenAt(src, b).end, Move);
    MovesAddUp(src, checked, input, m, b, TokenAt(src, b).end);
  }

  lemma MoveToken(g: seq<Block>, src: string, memtotal: nat, env: Env, p: Point, b: nat, m: R.Machine, cfg: Config)
    requires b <= |src| && TokenAt(src, b).sym == Move && HeadOk(false, p.head, p.nextReg) && ShortRuns(src)
    requires SyncedAt(p, env, false, memtotal, b, m, cfg)
    requires CodeAt(g, p.block, p.pc, MoveCode(p.nextReg, p.head, TokenAt(src, b).value))
    ensures var end := TokenAt(src, b).end;
            SyncedAt(Point(p.block, p.pc + 1, p.nextReg, p.nextReg + 1), env, false, memtotal, end,
                     R.Run(src, false, env.input, m, end - b), Run(g, env, cfg, 1))
  {
    hide TokenAt, R.Run, Run, CodeAt, Signed32, Low32, ShortRuns;
    MoveFits(src, b);
    RunOfMoves(src, false, env.input, m, b);
    MoveRuns(g, env, cfg, cfg.loc.prev, p.block, p.pc, p.nextReg, p.head, TokenAt(src, b).value);
  }

  /** A checked move: on to the next block on the tape, to the error report off it. */
  lemma CheckedMoveToken(g: seq<Block>, src: string, memtotal: nat, env: Env, p: Point, b: nat, m: R.Machine,
                         cfg: Config, nextbb: Label)
    returns (j: nat)
    requires b <= |src| && TokenAt(src, b).sym == Move && HeadOk(true, p.head, p.nextReg) && ShortRuns(src)
    requires SyncedAt(p, env, true, memtotal, b, m, cfg) && FixedBlocks(g, true, memtotal)
    requires CodeAt(g, p.block, p.pc, CheckedMoveCode(p.nextReg, p.head, TokenAt(src, b).value, nextbb))
    ensures var end := TokenAt(src, b).end;
            var m' := R.Run(src, true, env.input, m, end - b);
            && j >= 1
            && if m'.status.Running? then
                 SyncedAt(Point(nextbb, 0, p.nextReg, p.nextReg + 4), env, true, memtotal, end, m', Run(g, env, cfg, j))
               else Stopped(true, m', Run(g, env, cfg, j))
  {
    hide TokenAt, R.Run, Run, CodeAt, Signed32, Low32, ShortRuns;
    var t := TokenAt(src, b);
    MoveFits(src, b);
    RunOfMoves(src, true, env.input, m, b);
    CheckedMoveRuns(g, env, cfg, cfg.loc.prev, p.block, p.pc, p.nextReg, p.head, t.value, nextbb);
    var cfg' := Run(g, env, cfg, 5);
    if R.OnTape(m.(head := m.head + t.value)) {
      j := 5;
    } else {
      j := 9;
      ErrorRuns(g, env, cfg', p.block);
      RunAdd(g, env, cfg, 5, 4);
    }
  }

  // ----- Loops -----

  lemma RefTest(src: string, checked: bool, input: seq<Byte>, m: R.Machine, o: nat, c: nat)
    requires Matching(src, o, c) && m.status == R.Running(o)
    ensures R.Step(src, checked, input, m) ==
            if !R.OnTape(m) then m.(status := R.Fault)
            else m.(status := R.Running(if m.tape[m.head] == 0 then c + 1 else o + 1))
  {
    FindCloseFrom(src, o + 1, c, 0);
  }

  lemma RefBack(src: string, checked: bool, input: seq<Byte>, m: R.Machine, o: nat, c: nat)
    requires Matching(src, o, c) && m.status == R.Running(c)
    ensures R.Step(src, checked, input, m) == m.(status := R.Running(o))
  {
    FindOpenFrom(src, o, c, 0);
  }

  /** The loop test at '[', reached from either side: to the body, behind the loop, or a fault. */
  lemma TestToken(g: seq<Block>, src: string, checked: bool, memtotal: nat, c: Cert, env: Env, p: Point, o: nat, i: nat,
                  m: R.Machine, cfg: Config)
    returns (j: nat)
    requires EntersAt(g, checked, c, p, o, i) && Matching(src, o, c.loops[o].close)
    requires SyncedAt(p, env, checked, memtotal, o, m, cfg)
    ensures j >= 1
    ensures Related(c, env, checked, memtotal, R.Step(src, checked, env.input, m), Run(g, env, cfg, j))
  {
    hide R.Step, Run, CodeAt, Matching, Incoming;
    var l := c.loops[o];
    var entries := EntriesOf(g, l.test);
    var m' := R.Step(src, checked, env.input, m);
    RefTest(src, checked, env.input, m, o, l.close);
    IncomingEntry(entries, i);
    LoopRuns(g, env, cfg, cfg.loc.prev, p.block, p.pc, p.head, l.test, l.phi, entries, l.testReg, l.after, l.body);
    var cfg' := Run(g, env, cfg, 5);
    OnTapeIffAddressable(env, checked, memtotal, m, cfg, p.head);
    if !R.OnTape(m) {
      j := 5;
      assert Stopped(checked, m', cfg');
    } else if m.tape[m.head] != 0 {
      j := 5;
      assert Synced(c, env, checked, memtotal, o + 1, m', cfg');
    } else {
      j := 6;
      ExitRuns(g, env, cfg', l.test, l.after, l.testReg + 2, l.phi);
      RunAdd(g, env, cfg, 5, 1);
      assert Synced(c, env, checked, memtotal, l.close + 1, m', Run(g, env, cfg, 6));
    }
  }

  // ----- Any token -----

  lemma EofToken(g: seq<Block>, src: string, checked: bool, memtotal: nat, env: Env, p: Point, b: nat, m: R.Machine,
                 cfg: Config)
    requires b <= |src| && TokenAt(src, b).sym == Eof && FixedBlocks(g, checked, memtotal)
    requires SyncedAt(p, env, checked, memtotal, b, m, cfg) && CodeAt(g, p.block, p.pc, [Br(ENDBB)])
    ensures Stopped(checked, R.Run(src, checked, env.input, m, |src| - b + 1), Run(g, env, cfg, 3))
  {
    hide TokenAt, Run, R.Run, CodeAt;
    RefEof(src, checked, env.input, m, b);
    EofRuns(g, env, cfg, cfg.loc.prev, p.block, p.pc);
  }

  lemma RefEof(src: string, checked: bool, input: seq<Byte>, m: R.Machine, b: nat)
    requires b <= |src| && TokenAt(src, b).sym == Eof && m.status == R.Running(b)
    ensures R.Run(src, checked, input, m, |src| - b + 1) == m.(status := R.Done)
  {
    TokenCovers(src, b);
    hide TokenAt;
    Comments(src, checked, input, m, b, |src|);
    RefRunAdd(src, checked, input, m, |src| - b, 1);
    var m1 := m.(status := R.Running(|src|));
    assert R.Run(src, checked, input, m1, 1) == R.Run(src, checked, input, m.(status := R.Done), 0);
  }

  /** From '[' or ']' up to and through the loop test. */
  lemma BracketToken(g: seq<Block>, src: string, checked: bool, memtotal: nat, c: Cert, env: Env, b: nat,
                     m: R.Machine, cfg: Config)
    returns (i: nat, j: nat)
    requires Implements(g, src, checked, c, b) && LoopsMatch(src, c)
    requires TokenAt(src, b).sym == Loop || TokenAt(src, b).sym == EndLoop
    requires Synced(c, env, checked, memtotal, b, m, cfg)
    ensures i >= 1 && j >= 1
    ensures Related(c, env, checked, memtotal, R.Run(src, checked, env.input, m, i), Run(g, env, cfg, j))
  {
    hide TokenAt, R.Step, Run, CodeAt, Matching, Only, R.OnTape, Related;
    var t := TokenAt(src, b);
    var p := c.points[b];
    var at := t.end - 1;
    TokenCovers(src, b);
    SingleRuns(src, checked, env.input, m, b);
    SameTape(m, m.(status := R.Running(at)));
    i := t.end - b;
    if t.sym == Loop {
      j := TestToken(g, src, checked, memtotal, c, env, p, at, 0, m.(status := R.Running(at)), cfg);
    } else {
      var o := c.opens[at];
      var back := m.(status := R.Running(o));
      SameTape(m, back);
      RefBack(src, checked, env.input, m.(status := R.Running(at)), o, at);
      j := TestToken(g, src, checked, memtotal, c, env, p, o, 1, back, cfg);
      RefRunAdd(src, checked, env.input, m, i, 1);
      assert R.Run(src, checked, env.input, back, 1)
          == R.Run(src, checked, env.input, R.Step(src, checked, env.input, back), 0);
      i := i + 1;
    }
  }

  /** Straight-line tokens. */
  lemma PlainToken(g: seq<Block>, src: string, checked: bool, memtotal: nat, c: Cert, env: Env, b: nat, m: R.Machine,
                   cfg: Config)
    returns (i: nat, j: nat)
    requires Implements(g, src, checked, c, b) && FixedBlocks(g, checked, memtotal) && ShortRuns(src)
    requires TokenAt(src, b).sym in {Read, Write, Move, Change}
    requires Synced(c, env, checked, memtotal, b, m, cfg)
    ensures i >= 1 && j >= 1
    ensures Related(c, env, checked, memtotal, R.Run(src, checked, env.input, m, i), Run(g, env, cfg, j))
  {
    hide TokenAt, R.Run, Run, CodeAt, FixedBlocks, ShortRuns, SyncedAt, Stopped;
    var t := TokenAt(src, b);
    var p := c.points[b];
    i, j := t.end - b, 3;
    if t.sym == Read {
      ReadToken(g, src, checked, memtotal, env, p, b, m, cfg);
    } else if t.sym == Write {
      WriteToken(g, src, checked, memtotal, env, p, b, m, cfg);
    } else if t.sym == Change {
      ChangeToken(g, src, checked, memtotal, env, p, b, m, cfg);
    } else if checked {
      j := CheckedMoveToken(g, src, memtotal, env, p, b, m, cfg, c.points[t.end].block);
    } else {
      j := 1;
      MoveToken(g, src, memtotal, env, p, b, m, cfg);
    }
    var m', cfg' := R.Run(src, checked, env.input, m, i), Run(g, env, cfg, j);
    assert Synced(c, env, checked, memtotal, t.end, m', cfg') || Stopped(checked, m', cfg');
  }

  /** From related states both sides make progress to related states. */
  lemma TokenStep(g: seq<Block>, src: string, checked: bool, memtotal: nat, c: Cert, env: Env, m: R.Machine,
                  cfg: Config)
    returns (i: nat, j: nat)
    requires Compiled(g, src, checked, memtotal, c) && World(src, memtotal, env)
    requires Related(c, env, checked, memtotal, m, cfg)
    ensures i >= 1 && j >= 1
    ensures Related(c, env, checked, memtotal, R.Run(src, checked, env.input, m, i), Run(g, env, cfg, j))
  {
    hide Stopped, R.Run, Run, TokenAt, FixedBlocks, LoopsMatch, ShortRuns, EntersAt, PlainAt;
    if Stopped(checked, m, cfg) {
      i, j := 1, 1;
      StoppedStays(g, src, checked, env, m, cfg, 1, 1);
    } else {
      var b :| Synced(c, env, checked, memtotal, b, m, cfg);
      assert Implements(g, src, checked, c, b);
      hide SyncedAt;
      var t := TokenAt(src, b);
      if t.sym == Eof {
        i, j := |src| - b + 1, 3;
        EofToken(g, src, checked, memtotal, env, c.points[b], b, m, cfg);
      } else if t.sym == Loop || t.sym == EndLoop {
        i, j := BracketToken(g, src, checked, memtotal, c, env, b, m, cfg);
      } else {
        i, j := PlainToken(g, src, checked, memtotal, c, env, b, m, cfg);
      }
    }
  }

  lemma StoppedStays(g: seq<Block>, src: string, checked: bool, env: Env, m: R.Machine, cfg: Config, i: nat, j: nat)
    requires Stopped(checked, m, cfg)
    ensures Stopped(checked, R.Run(src, checked, env.input, m, i), Run(g, env, cfg, j))
  {
    RefRunStopped(src, checked, env.input, m, i);
    RunStopped(g, env, cfg, j);
  }

  /** Arbitrarily far into both runs there are related states. */
  lemma {:induction false} RelatedFar(g: seq<Block>, src: string, checked: bool, memtotal: nat, c: Cert, env: Env,
                                      m: R.Machine, cfg: Config, n: nat)
    returns (i: nat, j: nat)
    requires Compiled(g, src, checked, memtotal, c) && World(src, memtotal, env)
    requires Related(c, env, checked, memtotal, m, cfg)
    ensures i >= n && j >= n
    ensures Related(c, env, checked, memtotal, R.Run(src, checked, env.input, m, i), Run(g, env, cfg, j))
    decreases n
  {
    hide Compiled, World, Related, R.Step, Step;
    if n == 0 {
      i, j := 0, 0;
    } else {
      var i1, j1 := TokenStep(g, src, checked, memtotal, c, env, m, cfg);
      var m1, cfg1 := R.Run(src, checked, env.input, m, i1), Run(g, env, cfg, j1);
      var i2, j2 := RelatedFar(g, src, checked, memtotal, c, env, m1, cfg1, n - 1);
      i, j := i1 + i2, j1 + j2;
      RefRunAdd(src, checked, env.input, m, i1, i2);
      RunAdd(g, env, cfg, j1, j2);
    }
  }

  // ----- The beginning -----

  lemma AllocRuns(g: seq<Block>, env: Env, memtotal: nat, code: Block)
    requires CodeAt(g, ENTRYBB, 0, code) && |code| > 2
    requires code[0] == Malloc(ARR, memtotal) && code[1] == Memset(ARR, memtotal) && |env.garbage| == memtotal
    ensures Run(g, env, INITIAL_CONFIG, 2)
        == Config(map[ARR := env.base], Zeros(memtotal), true, 0, [], At(0, ENTRYBB, 2))
  {
    Fetch(g, env, INITIAL_CONFIG, 0, ENTRYBB, 0, code, 0);
    var c1 := Step(g, env, INITIAL_CONFIG);
    assert c1 == Config(map[ARR := env.base], env.garbage, true, 0, [], At(0, ENTRYBB, 1));
    Fetch(g, env, c1, 0, ENTRYBB, 0, code, 1);
    assert Zeros(memtotal) + env.garbage[memtotal..] == Zeros(memtotal);
    assert Run(g, env, INITIAL_CONFIG, 2) == Step(g, env, c1);
  }

  function EntrySteps(checked: bool): nat {
    if checked then 4 else 3
  }

  /** The entry block brings `memtotal` cells that are all 0, whatever the allocator has left in
      them, and the head in their middle; and so does the start of the machine. */
  lemma {:induction false} EntryRuns(g: seq<Block>, src: string, checked: bool, memtotal: nat, c: Cert, env: Env)
    requires Compiled(g, src, checked, memtotal, c) && World(src, memtotal, env)
    ensures Synced(c, env, checked, memtotal, 0, R.Start(memtotal), Run(g, env, INITIAL_CONFIG, EntrySteps(checked)))
    ensures var cfg := Run(g, env, INITIAL_CONFIG, EntrySteps(checked));
            var m := R.Start(memtotal);
            && |cfg.tape| == |m.tape| == memtotal && m.head == memtotal / 2
            && forall i :: 0 <= i < memtotal ==> cfg.tape[i] == m.tape[i] == 0
  {
    hide Exec, Step, CodeAt, Run, ShortRuns, Implements, LoopsMatch;
    var code := EntryBlock(checked, memtotal);
    EntryCodeAt(g, checked, memtotal);
    AllocRuns(g, env, memtotal, code);
    var c2 := Run(g, env, INITIAL_CONFIG, 2);
    Fetch(g, env, c2, 0, ENTRYBB, 0, code, 2);
    OneMore(g, env, INITIAL_CONFIG, 2);
    var c3 := Step(g, env, c2);
    if checked {
      ExecGep(env, c2, ARRMAX, ARR, Low32(memtotal));
      Fetch(g, env, c3, 0, ENTRYBB, 0, code, 3);
      OneMore(g, env, INITIAL_CONFIG, 3);
      ExecGep(env, c3, ARRMAX + 1, ARR, Low32(memtotal / 2));
    } else {
      ExecGep(env, c2, ARR + 1, ARR, Low32(memtotal / 2));
    }
  }

  lemma EntryCodeAt(g: seq<Block>, checked: bool, memtotal: nat)
    requires FixedBlocks(g, checked, memtotal)
    ensures CodeAt(g, ENTRYBB, 0, EntryBlock(checked, memtotal))
  {
    var code := EntryBlock(checked, memtotal);
    assert forall k :: 0 <= k < |code| ==> g[ENTRYBB][0 + k] == code[k];
  }

  lemma OneMore(g: seq<Block>, env: Env, c: Config, n: nat)
    ensures Run(g, env, c, n + 1) == Step(g, env, Run(g, env, c, n))
  {
    RunAdd(g, env, c, n, 1);
    var c1 := Run(g, env, c, n);
    assert Run(g, env, c1, 1) == Run(g, env, Step(g, env, c1), 0);
  }
}
