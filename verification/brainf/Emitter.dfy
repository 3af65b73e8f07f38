/** What the compiler emits, as functions on an emitter state. Beside the block list and
    the insertion point, the state carries a certificate that maps source positions to
    places in the emitted graph; the proofs read it, the emitted code does not depend on it. */
module BrainFEmitter {
  import opened BrainFSource
  import opened BrainFIr
  import opened Wrappers

  const ARR: Reg := 0        // %arr
  const ARRMAX: Reg := 1     // %arrmax, with bounds checks on
  const ENTRYBB: Label := 0
  const ENDBB: Label := 1
  const ABERRORBB: Label := 2

  /** Where execution stands in the graph when it stands at some source position:
      the block, the next instruction, the current head and the next free register. */
  datatype Point = Point(block: Label, pc: nat, head: Reg, nextReg: Reg)

  /** A compiled loop: its closing bracket, its blocks, its phi, and its first test register. */
  datatype LoopRec = LoopRec(close: nat, test: Label, body: Label, after: Label, phi: Reg, testReg: Reg)

  datatype Site = Site(block: Label, pc: nat)

  datatype Cert = Cert(
    points: map<nat, Point>,    // source position -> graph position
    loops: map<nat, LoopRec>,   // '[' position -> loop
    opens: map<nat, nat>,       // ']' position -> its '['
    defs: seq<Site>,            // register -> defining instruction
    doms: seq<set<Label>>)      // block -> blocks on every path to it

  datatype Em = Em(blocks: seq<Block>, cur: Label, head: Reg, next: Reg, cert: Cert)

  /** The arguments `readloop` takes for a nested loop. */
  datatype LoopFrame = LoopFrame(phi: Reg, oldbb: Label, testbb: Label)

  datatype Error = ExtraClose | MissingClose

  datatype Outcome = Ok(em: Em, pos: nat) | Failed(error: Error)

  // ----- Graph updates -----

  function BlockOf(g: seq<Block>, l: Label): Block {
    if l < |g| then g[l] else []
  }

  function DomsOf(c: Cert, l: Label): set<Label> {
    if l < |c.doms| then c.doms[l] else {}
  }

  /** Appends `code` to the current block; `sites` lists where its registers are defined. */
  function Extend(e: Em, code: seq<Instr>, sites: seq<Site>): Em {
    if e.cur >= |e.blocks| then e
    else e.(blocks := e.blocks[e.cur := e.blocks[e.cur] + code],
            next := e.next + |sites|,
            cert := e.cert.(defs := e.cert.defs + sites))
  }

  /** Appends a block that is reached only through block `via`. */
  function AddBlock(e: Em, block: Block, via: Label): Em {
    e.(blocks := e.blocks + [block],
       cert := e.cert.(doms := e.cert.doms + [DomsOf(e.cert, via) + {|e.blocks|}]))
  }

  /** Records that source position `b` is compiled from here on. */
  function Mark(e: Em, b: nat): Em {
    e.(cert := e.cert.(points := e.cert.points[b := Point(e.cur, |BlockOf(e.blocks, e.cur)|, e.head, e.next)]))
  }

  // ----- Straight-line commands -----

  function ReadCode(r: Reg, head: Reg): seq<Instr> {
    [GetChar(r), Trunc(r + 1, r), Store(r + 1, head)]
  }

  function WriteCode(r: Reg, head: Reg): seq<Instr> {
    [Load(r, head), SExt(r + 1, r), PutChar(r + 1)]
  }

  function ChangeCode(r: Reg, head: Reg, value: int): seq<Instr> {
    [Load(r, head), AddI8(r + 1, r, Low8(value)), Store(r + 1, head)]
  }

  function MoveCode(r: Reg, head: Reg, value: int): seq<Instr> {
    [Gep(r, head, Low32(value))]
  }

  /** A move with its bounds test: off the tape to the error block, otherwise on to `nextbb`. */
  function CheckedMoveCode(r: Reg, head: Reg, value: int, nextbb: Label): seq<Instr> {
    [Gep(r, head, Low32(value)), ICmpUGE(r + 1, r, ARRMAX), ICmpULT(r + 2, r, ARR), Or(r + 3, r + 1, r + 2),
     CondBr(r + 3, ABERRORBB, nextbb)]
  }

  /** `n` registers defined one per instruction from the end of the current block on. */
  function SitesHere(e: Em, n: nat): (s: seq<Site>)
    ensures |s| == n
    ensures forall k :: 0 <= k < n ==> s[k] == Site(e.cur, |BlockOf(e.blocks, e.cur)| + k)
  {
    seq(n, i requires 0 <= i < n => Site(e.cur, |BlockOf(e.blocks, e.cur)| + i))
  }

  function EmitSymbol(e: Em, checked: bool, sym: Symbol, value: int): Em {
    match sym
    case Read => Extend(e, ReadCode(e.next, e.head), SitesHere(e, 2))
    case Write => Extend(e, WriteCode(e.next, e.head), SitesHere(e, 2))
    case Change => Extend(e, ChangeCode(e.next, e.head, value), SitesHere(e, 2))
    case Move =>
      if !checked then
        Extend(e, MoveCode(e.next, e.head, value), SitesHere(e, 1)).(head := e.next)
      else
        var moved := Extend(e, CheckedMoveCode(e.next, e.head, value, |e.blocks|), SitesHere(e, 4));
        AddBlock(moved, [], e.cur).(cur := |e.blocks|, head := e.next)
    case _ => e
  }

  // ----- Loops -----

  /** At '[': a branch to a fresh test block that starts with a phi, and a fresh body block. */
  function EmitOpen(e: Em): Em {
    var testbb := |e.blocks|;
    var branched := Extend(e, [Br(testbb)], [Site(testbb, 0)]).(head := e.next);
    var test := AddBlock(branched, [Phi(e.next, [(e.head, e.cur)])], e.cur);
    AddBlock(test, [], testbb).(cur := testbb + 1)
  }

  function FrameOf(e: Em): LoopFrame {
    LoopFrame(e.next, |e.blocks| + 1, |e.blocks|)
  }

  /** Where the phi of test block `testbb` may come from so far. */
  function EntriesOf(g: seq<Block>, testbb: Label): seq<(Reg, Label)> {
    var block := BlockOf(g, testbb);
    if block != [] && block[0].Phi? then block[0].incoming else []
  }

  /** A finished loop test: to `after` when the cell is zero, otherwise into `body`. */
  function TestBlock(phi: Reg, entries: seq<(Reg, Label)>, r: Reg, after: Label, body: Label): Block {
    [Phi(phi, entries), Load(r, phi), ICmpEqZero(r + 1, r), CondBr(r + 1, after, body)]
  }

  /** At ']': a branch back to the test block, the loop test, and a fresh block behind the loop. */
  function EmitClose(e: Em, f: LoopFrame): Em {
    var r := e.next;
    var after := |e.blocks|;
    var entries := EntriesOf(e.blocks, f.testbb) + [(e.head, e.cur)];
    var back := Extend(e, [Br(f.testbb)], [Site(f.testbb, 1), Site(f.testbb, 2), Site(after, 0)]);
    if f.testbb >= |e.blocks| then back
    else
      var tested := back.(blocks := back.blocks[f.testbb := TestBlock(f.phi, entries, r, after, f.oldbb)]);
      AddBlock(tested, [Phi(r + 2, [(f.phi, f.testbb)])], f.testbb).(cur := after, head := r + 2)
  }

  /** Records the loop src[open..close+1]. */
  function MarkLoop(e: Em, f: LoopFrame, r: Reg, open: nat, close: nat): Em {
    e.(cert := e.cert.(
       loops := e.cert.loops[open := LoopRec(close, f.testbb, f.oldbb, e.cur, f.phi, r)],
       opens := e.cert.opens[close := open]))
  }

  // ----- The same, with the source position behind the token recorded -----

  function Plain(e: Em, checked: bool, t: Token): Em {
    Mark(EmitSymbol(e, checked, t.sym, t.value), t.end)
  }

  function Opened(e: Em, end: nat): Em {
    Mark(EmitOpen(e), end)
  }

  function Closed(e: Em, f: LoopFrame, open: nat, end: nat): Em {
    Mark(MarkLoop(EmitClose(e, f), f, e.next, open, if end > 0 then end - 1 else 0), end)
  }

  /** `readloop` from source position `b` on. `loop` is None at top level; otherwise it is
      the frame of the loop opened at src[open]. Returns behind the closing bracket. */
  function Emit(src: string, checked: bool, b: nat, e: Em, loop: Option<LoopFrame>, open: nat): (r: Outcome)
    requires b <= |src|
    ensures r.Ok? ==> b <= r.pos <= |src| && (loop.Some? ==> b < r.pos)
    decreases |src| - b
  {
    var t := TokenAt(src, b);
    if t.sym == Eof then
      if loop.Some? then Failed(MissingClose) else Ok(Extend(e, [Br(ENDBB)], []), t.end)
    else if t.sym == EndLoop then
      if loop.None? then Failed(ExtraClose)
      else Ok(Closed(e, loop.value, open, t.end), t.end)
    else if t.sym == Loop then
      var body := Emit(src, checked, t.end, Opened(e, t.end), Some(FrameOf(e)), t.end - 1);
      if body.Failed? then body else Emit(src, checked, body.pos, body.em, loop, open)
    else
      Emit(src, checked, t.end, Plain(e, checked, t), loop, open)
  }

  // ----- The whole function -----

  function EntryBlock(checked: bool, memtotal: nat): Block {
    var head := if checked then ARRMAX + 1 else ARR + 1;
    [Malloc(ARR, memtotal), Memset(ARR, memtotal)]
    + (if checked then [Gep(ARRMAX, ARR, Low32(memtotal))] else [])
    + [Gep(head, ARR, Low32(memtotal / 2))]
  }

  /** The entry block, the end block and, with bounds checks on, the error block. */
  function Header(checked: bool, memtotal: nat): Em {
    var blocks := [EntryBlock(checked, memtotal), [Free(ARR), Ret]];
    if checked then
      Em(blocks + [[Puts(ERROR_TEXT), Br(ENDBB)]], ENTRYBB, 2, 3,
         Cert(map[], map[], map[], [Site(ENTRYBB, 0), Site(ENTRYBB, 2), Site(ENTRYBB, 3)],
              [{ENTRYBB}, {ENTRYBB, ENDBB}, {ENTRYBB, ABERRORBB}]))
    else
      Em(blocks, ENTRYBB, 1, 2,
         Cert(map[], map[], map[], [Site(ENTRYBB, 0), Site(ENTRYBB, 2)],
              [{ENTRYBB}, {ENTRYBB, ENDBB}]))
  }

  function Compile(src: string, checked: bool, memtotal: nat): Outcome {
    Emit(src, checked, 0, Mark(Header(checked, memtotal), 0), None, 0)
  }
}
