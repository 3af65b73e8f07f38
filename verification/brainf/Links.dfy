/** The link between source positions and the graph: at every recorded position the graph
    holds the code of the token that starts there, and that code leads to the place recorded
    for the position behind the token. */
module BrainFLinks {
  import opened BrainFSource
  import opened BrainFIr
  import opened BrainFEmitter
  import opened BrainFFrame
  import opened Wrappers

  ghost predicate RunsTo(c: Cert, b: nat, p: Point) {
    b in c.points && c.points[b] == p
  }

  /** The head register is not one of the fixed pointers, and new registers lie above it. */
  ghost predicate HeadOk(checked: bool, head: Reg, next: Reg) {
    ARR < head < next && (checked ==> ARRMAX < head)
  }

  /** Straight-line code at `p` for token `t`, leading on to t.end. */
  ghost predicate PlainAt(g: seq<Block>, checked: bool, c: Cert, p: Point, t: Token) {
    var r := p.nextReg;
    match t.sym
    case Read =>
      CodeAt(g, p.block, p.pc, ReadCode(r, p.head)) && RunsTo(c, t.end, Point(p.block, p.pc + 3, p.head, r + 2))
    case Write =>
      CodeAt(g, p.block, p.pc, WriteCode(r, p.head)) && RunsTo(c, t.end, Point(p.block, p.pc + 3, p.head, r + 2))
    case Change =>
      && CodeAt(g, p.block, p.pc, ChangeCode(r, p.head, t.value))
      && RunsTo(c, t.end, Point(p.block, p.pc + 3, p.head, r + 2))
    case Move =>
      if !checked then
        CodeAt(g, p.block, p.pc, MoveCode(r, p.head, t.value)) && RunsTo(c, t.end, Point(p.block, p.pc + 1, r, r + 1))
      else
        && t.end in c.points
        && CodeAt(g, p.block, p.pc, CheckedMoveCode(r, p.head, t.value, c.points[t.end].block))
        && RunsTo(c, t.end, Point(c.points[t.end].block, 0, r, r + 4))
    case _ => false
  }

  /** The blocks of the loop opened at `o`: a two-entry phi and the zero test, a phi on exit. */
  ghost predicate LoopAt(g: seq<Block>, checked: bool, c: Cert, o: nat) {
    && o in c.loops
    && var l := c.loops[o];
    var entries := EntriesOf(g, l.test);
    && l.test < |g| && l.after < |g|
    && |entries| == 2 && entries[0].1 != entries[1].1
    && TestBlock(l.phi, entries, l.testReg, l.after, l.body) <= g[l.test]
    && [Phi(l.testReg + 2, [(l.phi, l.test)])] <= g[l.after]
    && HeadOk(checked, l.phi, l.testReg)
    && RunsTo(c, o + 1, Point(l.body, 0, l.phi, l.phi + 1))
    && RunsTo(c, l.close + 1, Point(l.after, 1, l.testReg + 2, l.testReg + 3))
  }

  /** A branch at `p` into the test block of loop `o`; the phi's entry number `i` is for it. */
  ghost predicate EntersAt(g: seq<Block>, checked: bool, c: Cert, p: Point, o: nat, i: nat) {
    && LoopAt(g, checked, c, o)
    && CodeAt(g, p.block, p.pc, [Br(c.loops[o].test)])
    && i < 2 && EntriesOf(g, c.loops[o].test)[i] == (p.head, p.block)
  }

  /** Source position `b` is implemented by the graph. */
  ghost predicate Implements(g: seq<Block>, src: string, checked: bool, c: Cert, b: nat) {
    && b <= |src| && b in c.points
    && var p := c.points[b];
    var t := TokenAt(src, b);
    && HeadOk(checked, p.head, p.nextReg)
    && (if t.sym == Eof then CodeAt(g, p.block, p.pc, [Br(ENDBB)])
        else if t.sym == Loop then EntersAt(g, checked, c, p, t.end - 1, 0)
        else if t.sym == EndLoop then
          t.end - 1 in c.opens && EntersAt(g, checked, c, p, c.opens[t.end - 1], 1)
          && c.loops[c.opens[t.end - 1]].close == t.end - 1
        else PlainAt(g, checked, c, p, t))
  }

  /** The blocks that position `b` relies on all lie at or above `lo`. */
  ghost predicate RestsOn(src: string, c: Cert, b: nat, lo: nat) {
    && b <= |src| && b in c.points && c.points[b].block >= lo
    && var t := TokenAt(src, b);
    && (t.sym == Loop ==> t.end - 1 in c.loops && LoopFrom(c, t.end - 1, lo))
    && (t.sym == EndLoop ==>
        t.end - 1 in c.opens && c.opens[t.end - 1] in c.loops && LoopFrom(c, c.opens[t.end - 1], lo))
  }

  ghost predicate LoopFrom(c: Cert, o: nat, lo: nat)
    requires o in c.loops
  {
    c.loops[o].test >= lo && c.loops[o].after >= lo
  }

  /** Position `b` does not rely on block `x`. */
  ghost predicate Avoids(src: string, c: Cert, b: nat, x: Label) {
    && b <= |src| && b in c.points && c.points[b].block != x
    && var t := TokenAt(src, b);
    && (t.sym == Loop ==> t.end - 1 in c.loops && LoopAvoids(c, t.end - 1, x))
    && (t.sym == EndLoop ==>
        t.end - 1 in c.opens && c.opens[t.end - 1] in c.loops && LoopAvoids(c, c.opens[t.end - 1], x))
  }

  ghost predicate LoopAvoids(c: Cert, o: nat, x: Label)
    requires o in c.loops
  {
    c.loops[o].test != x && c.loops[o].after != x
  }

  /** Blocks other than `test` keep their code as a prefix. */
  ghost predicate Grows(g: seq<Block>, g': seq<Block>, test: Option<Label>) {
    |g| <= |g'| && forall l :: 0 <= l < |g| && Some(l) != test ==> g[l] <= g'[l]
  }

  lemma CodeStays(g: seq<Block>, g': seq<Block>, test: Option<Label>, b: Label, pc: nat, code: seq<Instr>)
    requires CodeAt(g, b, pc, code) && Grows(g, g', test) && Some(b) != test
    ensures CodeAt(g', b, pc, code)
  {
    assert g[b] <= g'[b];
  }

  lemma PlainStays(g: seq<Block>, g': seq<Block>, checked: bool, c: Cert, c': Cert, p: Point, t: Token,
                   test: Option<Label>)
    requires PlainAt(g, checked, c, p, t) && Grows(g, g', test) && Later(c, c') && Some(p.block) != test
    ensures PlainAt(g', checked, c', p, t)
  {
    assert g[p.block] <= g'[p.block];
    assert forall i :: 0 <= i < |g[p.block]| ==> g'[p.block][i] == g[p.block][i];
  }

  lemma LoopStays(g: seq<Block>, g': seq<Block>, checked: bool, c: Cert, c': Cert, o: nat, test: Option<Label>)
    requires LoopAt(g, checked, c, o) && Grows(g, g', test) && Later(c, c')
    requires test.Some? ==> LoopAvoids(c, o, test.value)
    ensures LoopAt(g', checked, c', o) && c'.loops[o] == c.loops[o]
    ensures EntriesOf(g', c.loops[o].test) == EntriesOf(g, c.loops[o].test)
  {
    var l := c.loops[o];
    assert g[l.test] <= g'[l.test] && g[l.after] <= g'[l.after];
    assert g'[l.test][0] == g[l.test][0];
  }

  lemma EntersStays(g: seq<Block>, g': seq<Block>, checked: bool, c: Cert, c': Cert, p: Point, o: nat, i: nat,
                    test: Option<Label>)
    requires EntersAt(g, checked, c, p, o, i) && Grows(g, g', test) && Later(c, c') && Some(p.block) != test
    requires test.Some? ==> LoopAvoids(c, o, test.value)
    ensures EntersAt(g', checked, c', p, o, i) && c'.loops[o] == c.loops[o]
  {
    LoopStays(g, g', checked, c, c', o, test);
    CodeStays(g, g', test, p.block, p.pc, [Br(c.loops[o].test)]);
  }

  /** What implements a position keeps doing so while the graph grows elsewhere. */
  lemma {:induction false} ImplementsStays(g: seq<Block>, g': seq<Block>, src: string, checked: bool, c: Cert,
                                           c': Cert, b: nat, test: Option<Label>)
    requires Implements(g, src, checked, c, b) && Grows(g, g', test) && Later(c, c')
    requires test.Some? ==> Avoids(src, c, b, test.value)
    ensures Implements(g', src, checked, c', b)
  {
    hide PlainAt, LoopAt, EntersAt, Grows, CodeAt, TokenAt;
    var p := c.points[b];
    var t := TokenAt(src, b);
    if t.sym == Eof {
      CodeStays(g, g', test, p.block, p.pc, [Br(ENDBB)]);
    } else if t.sym == Loop {
      EntersStays(g, g', checked, c, c', p, t.end - 1, 0, test);
    } else if t.sym == EndLoop {
      EntersStays(g, g', checked, c, c', p, c.opens[t.end - 1], 1, test);
    } else {
      PlainStays(g, g', checked, c, c', p, t, test);
    }
  }

  lemma RestsOnStays(src: string, c: Cert, c': Cert, b: nat, lo: nat, lo': nat)
    requires RestsOn(src, c, b, lo) && Later(c, c') && lo' <= lo
    ensures RestsOn(src, c', b, lo')
    ensures forall x: Label :: x < lo ==> Avoids(src, c, b, x)
  {
  }
}
