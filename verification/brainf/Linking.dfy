/** Emission establishes the link between source positions and the graph. */
module BrainFLinking {
  import opened BrainFSource
  import opened BrainFIr
  import opened BrainFEmitter
  import opened BrainFFrame
  import opened BrainFLinks
  import opened Wrappers

  /** The emitter stands at source position `b`, at the end of its current block. */
  ghost predicate Ready(e: Em, checked: bool, b: nat) {
    && e.cur < |e.blocks|
    && HeadOk(checked, e.head, e.next)
    && UpTo(e.cert, b)
    && RunsTo(e.cert, b, Point(e.cur, |e.blocks[e.cur]|, e.head, e.next))
  }

  /** The enclosing loop's test block holds only its phi, entered once so far. */
  ghost predicate Pending(e: Em, checked: bool, f: LoopFrame, open: nat, b: nat) {
    && f.testbb < |e.blocks| && f.testbb < e.cur
    && |EntriesOf(e.blocks, f.testbb)| == 1
    && EntriesOf(e.blocks, f.testbb)[0].1 < f.testbb
    && HeadOk(checked, f.phi, e.next)
    && open < b && open !in e.cert.loops
    && RunsTo(e.cert, open + 1, Point(f.oldbb, 0, f.phi, f.phi + 1))
  }

  ghost predicate PendingOpt(e: Em, checked: bool, loop: Option<LoopFrame>, open: nat, b: nat) {
    loop.Some? ==> Pending(e, checked, loop.value, open, b)
  }

  /** The enclosing loop is complete in `e'`, first entered as in `e`, closed just before `pos`. */
  ghost predicate Completed(e: Em, e': Em, checked: bool, f: LoopFrame, open: nat, pos: nat) {
    && pos > 0
    && LoopAt(e'.blocks, checked, e'.cert, open)
    && var l := e'.cert.loops[open];
    && l.test == f.testbb && l.close == pos - 1 && l.after >= |e.blocks|
    && EntriesOf(e.blocks, f.testbb) != []
    && EntriesOf(e'.blocks, f.testbb)[0] == EntriesOf(e.blocks, f.testbb)[0]
  }

  /** Every position recorded in [b, pos) is implemented, on blocks from `lo` on. */
  ghost predicate Linked(g: seq<Block>, src: string, checked: bool, c: Cert, b: nat, pos: nat, lo: nat) {
    forall k :: k in c.points && b <= k < pos ==> Implements(g, src, checked, c, k) && RestsOn(src, c, k, lo)
  }

  ghost predicate LowEnough(e: Em, loop: Option<LoopFrame>, lo: nat) {
    lo <= |e.blocks| && lo <= e.cur && (loop.Some? ==> lo <= loop.value.testbb)
  }

  // ----- One token -----

  lemma PlainLinks(e: Em, src: string, checked: bool, b: nat, t: Token)
    requires b <= |src| && t == TokenAt(src, b) && t.sym in {Read, Write, Move, Change}
    requires Ready(e, checked, b)
    ensures var e' := Plain(e, checked, t);
            Ready(e', checked, t.end) && PlainAt(e'.blocks, checked, e'.cert, e.cert.points[b], t)
  {
    var e' := Plain(e, checked, t);
    var n := |e.blocks[e.cur]|;
    if t.sym == Read {
      assert CodeAt(e'.blocks, e.cur, n, ReadCode(e.next, e.head));
    } else if t.sym == Write {
      assert CodeAt(e'.blocks, e.cur, n, WriteCode(e.next, e.head));
    } else if t.sym == Change {
      assert CodeAt(e'.blocks, e.cur, n, ChangeCode(e.next, e.head, t.value));
    } else if !checked {
      assert CodeAt(e'.blocks, e.cur, n, MoveCode(e.next, e.head, t.value));
    } else {
      assert CodeAt(e'.blocks, e.cur, n, CheckedMoveCode(e.next, e.head, t.value, |e.blocks|));
    }
  }

  lemma OpenLinks(e: Em, checked: bool, b: nat, end: nat)
    requires Ready(e, checked, b) && b < end
    ensures var e' := Opened(e, end);
            && Ready(e', checked, end) && Pending(e', checked, FrameOf(e), end - 1, end)
            && CodeAt(e'.blocks, e.cur, |e.blocks[e.cur]|, [Br(|e.blocks|)])
            && EntriesOf(e'.blocks, |e.blocks|) == [(e.head, e.cur)]
  {
  }

  lemma CloseLinks(e: Em, checked: bool, b: nat, f: LoopFrame, open: nat, end: nat)
    requires Ready(e, checked, b) && b < end && Pending(e, checked, f, open, b)
    ensures var e' := Closed(e, f, open, end);
            && Ready(e', checked, end) && Completed(e, e', checked, f, open, end)
            && EntersAt(e'.blocks, checked, e'.cert, e.cert.points[b], open, 1)
            && end - 1 in e'.cert.opens && e'.cert.opens[end - 1] == open
  {
    var e' := Closed(e, f, open, end);
    var entries := EntriesOf(e.blocks, f.testbb) + [(e.head, e.cur)];
    assert e'.blocks[f.testbb] == TestBlock(f.phi, entries, e.next, |e.blocks|, f.oldbb);
    assert e'.blocks[e.cur] == e.blocks[e.cur] + [Br(f.testbb)];
  }

  // ----- Putting tokens together -----

  lemma FramedGrows(e: Em, e': Em, test: Option<Label>)
    requires Framed(e, e', test)
    ensures Grows(e.blocks, e'.blocks, test)
  {
  }

  /** Work outside the test block leaves the enclosing loop pending. */
  lemma PendingStays(e: Em, e': Em, checked: bool, loop: Option<LoopFrame>, open: nat, b: nat, b': nat)
    requires PendingOpt(e, checked, loop, open, b) && e.cur < |e.blocks| && b <= b'
    requires Framed(e, e', None) && Later(e.cert, e'.cert) && NewFrom(e.cert, e'.cert, b, None)
    ensures PendingOpt(e', checked, loop, open, b')
    ensures loop.Some? ==> EntriesOf(e'.blocks, loop.value.testbb) == EntriesOf(e.blocks, loop.value.testbb)
  {
  }

  /** No position strictly between `b` and `m` is recorded. */
  ghost predicate NoneBetween(c: Cert, b: nat, m: nat) {
    forall k :: k in c.points ==> k <= b || m <= k
  }

  lemma NoneBetweenStays(c: Cert, c': Cert, b: nat, m: nat, from: nat, open: Option<nat>)
    requires NoneBetween(c, b, m) && NewFrom(c, c', from, open) && m <= from
    ensures NoneBetween(c', b, m)
  {
  }

  /** Positions linked in `g` on blocks above the pending test block stay linked as the graph grows. */
  lemma {:induction false} LinkedStays(g: seq<Block>, g': seq<Block>, src: string, checked: bool, c: Cert, c': Cert,
                    b: nat, m: nat, high: nat, lo: nat, test: Option<Label>)
    requires Linked(g, src, checked, c, b, m, high) && Grows(g, g', test) && Later(c, c')
    requires lo <= high && (test.Some? ==> test.value < high)
    requires forall k :: k in c'.points && k !in c.points ==> k > m
    ensures Linked(g', src, checked, c', b, m, lo)
  {
    hide Implements, RestsOn, Grows, Avoids, Later;
    forall k | k in c'.points && b <= k < m
      ensures Implements(g', src, checked, c', k) && RestsOn(src, c', k, lo)
    {
      assert k in c.points;
      RestsOnStays(src, c, c', k, high, lo);
      ImplementsStays(g, g', src, checked, c, c', k, test);
    }
  }

  lemma LinkedJoin(g: seq<Block>, src: string, checked: bool, c: Cert, b: nat, m: nat, pos: nat, lo: nat)
    requires Linked(g, src, checked, c, b, m, lo) && Linked(g, src, checked, c, m, pos, lo)
    ensures Linked(g, src, checked, c, b, pos, lo)
  {
  }

  /** Position `b` is done in `m` and does not rely on the pending test block. */
  ghost predicate Done(m: Em, src: string, checked: bool, b: nat, lo: nat, test: Option<Label>) {
    && Implements(m.blocks, src, checked, m.cert, b) && RestsOn(src, m.cert, b, lo)
    && (test.Some? ==> Avoids(src, m.cert, b, test.value))
  }

  /** One implemented token in front of a linked stretch. */
  lemma {:induction false} LinkedFirst(m: Em, r: Em, src: string, checked: bool, b: nat, mid: nat, lo: nat,
                                       test: Option<Label>)
    requires Done(m, src, checked, b, lo, test)
    requires Framed(m, r, test) && Later(m.cert, r.cert) && NoneBetween(r.cert, b, mid)
    ensures Linked(r.blocks, src, checked, r.cert, b, mid, lo)
  {
    hide Implements, RestsOn, Avoids, Later, Framed, Frame;
    FramedGrows(m, r, test);
    ImplementsStays(m.blocks, r.blocks, src, checked, m.cert, r.cert, b, test);
    RestsOnStays(src, m.cert, r.cert, b, lo, lo);
  }

  /** The last position a stretch of source covers: behind ']', or past the end of input. */
  function Limit(src: string, loop: Option<LoopFrame>, pos: nat): nat {
    if loop.Some? then pos else |src| + 1
  }

  /** What the recursion keeps at every token boundary. */
  ghost predicate Good(e: Em, src: string, checked: bool, b: nat, loop: Option<LoopFrame>, open: nat, lo: nat) {
    Ready(e, checked, b) && PendingOpt(e, checked, loop, open, b) && LowEnough(e, loop, lo)
  }

  lemma PlainStep(e: Em, src: string, checked: bool, b: nat, loop: Option<LoopFrame>, open: nat, lo: nat)
    requires b <= |src| && Good(e, src, checked, b, loop, open, lo)
    requires TokenAt(src, b).sym in {Read, Write, Move, Change}
    ensures var t := TokenAt(src, b);
            var e' := Plain(e, checked, t);
            && Good(e', src, checked, t.end, loop, open, lo)
            && Done(e', src, checked, b, lo, TestOf(loop))
            && NoneBetween(e'.cert, b, t.end)
  {
    var t := TokenAt(src, b);
    var e' := Plain(e, checked, t);
    PlainLinks(e, src, checked, b, t);
    PlainFramed(e, checked, t, None);
    PlainRecords(e, checked, t, b);
    PendingStays(e, e', checked, loop, open, b, t.end);
    hide Plain, PlainAt, TokenAt;
    assert Implements(e'.blocks, src, checked, e'.cert, b);
  }

  /** The nested call took the body of the loop at `b` up to `pos` and ended in state `m`. */
  ghost predicate Nested(e: Em, m: Em, src: string, checked: bool, b: nat, pos: nat)
    requires b <= |src|
  {
    var t := TokenAt(src, b);
    var inner := Opened(e, t.end);
    && t.sym == Loop && t.end <= pos
    && Framed(inner, m, Some(|e.blocks|)) && m.cur >= |e.blocks|
    && Later(inner.cert, m.cert) && NewFrom(inner.cert, m.cert, t.end, Some(t.end - 1))
    && Ready(m, checked, pos) && Completed(inner, m, checked, FrameOf(e), t.end - 1, pos)
  }

  lemma LoopKeeps(e: Em, m: Em, src: string, checked: bool, b: nat, pos: nat, loop: Option<LoopFrame>, open: nat,
                  lo: nat)
    requires b <= |src| && Good(e, src, checked, b, loop, open, lo) && Nested(e, m, src, checked, b, pos)
    ensures Good(m, src, checked, pos, loop, open, lo)
    ensures Framed(e, m, None) && Later(e.cert, m.cert) && NewFrom(e.cert, m.cert, b, None)
    ensures loop.Some? ==> EntriesOf(m.blocks, loop.value.testbb) == EntriesOf(e.blocks, loop.value.testbb)
  {
    hide Frame, Later, NewFrom, Completed, TokenAt, LoopAt;
    var t := TokenAt(src, b);
    var inner := Opened(e, t.end);
    OpenFramed(e, t.end, None);
    OpenRecords(e, b, t.end);
    hide Opened;
    FramedInner(e, inner, m, None, |e.blocks|);
    LaterTrans(e.cert, inner.cert, m.cert);
    NewFromInner(e.cert, inner.cert, m.cert, b, t.end, t.end - 1);
    hide Pending;
    PendingStays(e, m, checked, loop, open, b, pos);
  }

  lemma LoopEnters(e: Em, m: Em, src: string, checked: bool, b: nat, pos: nat)
    requires b <= |src| && Ready(e, checked, b) && Nested(e, m, src, checked, b, pos)
    ensures var t := TokenAt(src, b);
            && EntersAt(m.blocks, checked, m.cert, e.cert.points[b], t.end - 1, 0)
            && LoopFrom(m.cert, t.end - 1, |e.blocks|)
            && Later(e.cert, m.cert) && NoneBetween(m.cert, b, t.end)
  {
    hide Opened, TokenAt, Pending, CodeAt, LoopAt, Frame, Later, NewFrom, HeadOk;
    var t := TokenAt(src, b);
    var inner := Opened(e, t.end);
    var code := [Br(|e.blocks|)];
    OpenLinks(e, checked, b, t.end);
    OpenFramed(e, t.end, None);
    OpenRecords(e, b, t.end);
    FramedGrows(inner, m, Some(|e.blocks|));
    CodeStays(inner.blocks, m.blocks, Some(|e.blocks|), e.cur, |e.blocks[e.cur]|, code);
    LaterTrans(e.cert, inner.cert, m.cert);
    NoneBetweenStays(inner.cert, m.cert, b, t.end, t.end, Some(t.end - 1));
  }

  lemma LoopDone(e: Em, m: Em, src: string, checked: bool, b: nat, pos: nat, loop: Option<LoopFrame>, open: nat,
                 lo: nat)
    requires b <= |src| && Good(e, src, checked, b, loop, open, lo) && Nested(e, m, src, checked, b, pos)
    ensures Done(m, src, checked, b, lo, TestOf(loop)) && NoneBetween(m.cert, b, TokenAt(src, b).end)
  {
    var t := TokenAt(src, b);
    LoopEnters(e, m, src, checked, b, pos);
    hide Nested, TokenAt, EntersAt;
    assert Implements(m.blocks, src, checked, m.cert, b);
  }

  lemma CloseStep(e: Em, src: string, checked: bool, b: nat, f: LoopFrame, open: nat, lo: nat)
    requires b <= |src| && Good(e, src, checked, b, Some(f), open, lo)
    requires TokenAt(src, b).sym == EndLoop
    ensures var t := TokenAt(src, b);
            var m := Closed(e, f, open, t.end);
            && Ready(m, checked, t.end) && Completed(e, m, checked, f, open, t.end)
            && Linked(m.blocks, src, checked, m.cert, b, t.end, lo)
  {
    var t := TokenAt(src, b);
    var m := Closed(e, f, open, t.end);
    CloseLinks(e, checked, b, f, open, t.end);
    CloseRecords(e, f, open, b, t.end);
    hide LoopAt, TokenAt, EntersAt;
    assert Implements(m.blocks, src, checked, m.cert, b);
    assert RestsOn(src, m.cert, b, lo);
    assert forall k :: k in m.cert.points ==> k in e.cert.points || k == t.end;
  }

  lemma EofStep(e: Em, src: string, checked: bool, b: nat, lo: nat)
    requires b <= |src| && Good(e, src, checked, b, None, 0, lo)
    requires TokenAt(src, b).sym == Eof
    ensures var m := Extend(e, [Br(ENDBB)], []);
            Linked(m.blocks, src, checked, m.cert, b, |src| + 1, lo)
  {
    var m := Extend(e, [Br(ENDBB)], []);
    hide TokenAt;
    assert Implements(m.blocks, src, checked, m.cert, b);
  }

  /** A loop and what follows it, once both are linked. */
  lemma {:induction false} LoopCombines(e: Em, m: Em, r: Em, src: string, checked: bool, b: nat, pos: nat, rpos: nat,
                     loop: Option<LoopFrame>, open: nat, lo: nat)
    requires b <= |src| && Good(e, src, checked, b, loop, open, lo) && Nested(e, m, src, checked, b, pos)
    requires Linked(m.blocks, src, checked, m.cert, TokenAt(src, b).end, pos, |e.blocks|)
    requires Framed(m, r, TestOf(loop)) && Later(m.cert, r.cert) && NewFrom(m.cert, r.cert, pos, OpenOf(loop, open))
    requires Linked(r.blocks, src, checked, r.cert, pos, Limit(src, loop, rpos), lo)
    requires loop.Some? ==> Completed(m, r, checked, loop.value, open, rpos)
    ensures Linked(r.blocks, src, checked, r.cert, b, Limit(src, loop, rpos), lo)
    ensures loop.Some? ==> Completed(e, r, checked, loop.value, open, rpos)
  {
    var end := TokenAt(src, b).end;
    var test := TestOf(loop);
    LoopKeeps(e, m, src, checked, b, pos, loop, open, lo);
    LoopDone(e, m, src, checked, b, pos, loop, open, lo);
    NoneBetweenStays(m.cert, r.cert, b, end, pos, OpenOf(loop, open));
    LinkedFirst(m, r, src, checked, b, end, lo, test);
    FramedGrows(m, r, test);
    hide Implements, RestsOn, Frame, Grows, Later, LoopAt, Linked, Done, TokenAt, Opened;
    LinkedStays(m.blocks, r.blocks, src, checked, m.cert, r.cert, end, pos, |e.blocks|, lo, test);
    LinkedJoin(r.blocks, src, checked, r.cert, b, end, pos, lo);
    LinkedJoin(r.blocks, src, checked, r.cert, b, pos, Limit(src, loop, rpos), lo);
  }

  lemma {:induction false} PlainCombines(e: Em, m: Em, r: Em, src: string, checked: bool, b: nat, rpos: nat,
                      loop: Option<LoopFrame>, open: nat, lo: nat)
    requires b <= |src| && Good(e, src, checked, b, loop, open, lo)
    requires TokenAt(src, b).sym in {Read, Write, Move, Change} && m == Plain(e, checked, TokenAt(src, b))
    requires Framed(m, r, TestOf(loop)) && Later(m.cert, r.cert)
    requires NewFrom(m.cert, r.cert, TokenAt(src, b).end, OpenOf(loop, open))
    requires Linked(r.blocks, src, checked, r.cert, TokenAt(src, b).end, Limit(src, loop, rpos), lo)
    requires loop.Some? ==> Completed(m, r, checked, loop.value, open, rpos)
    ensures Linked(r.blocks, src, checked, r.cert, b, Limit(src, loop, rpos), lo)
    ensures loop.Some? ==> Completed(e, r, checked, loop.value, open, rpos)
  {
    var t := TokenAt(src, b);
    PlainStep(e, src, checked, b, loop, open, lo);
    PlainFramed(e, checked, t, None);
    hide Plain, TokenAt, Implements, RestsOn, LoopAt, Linked, Done;
    NoneBetweenStays(m.cert, r.cert, b, t.end, t.end, OpenOf(loop, open));
    LinkedFirst(m, r, src, checked, b, t.end, lo, TestOf(loop));
    LinkedJoin(r.blocks, src, checked, r.cert, b, t.end, Limit(src, loop, rpos), lo);
  }

  /** Whatever compiles, every position recorded on the way is implemented by the result. */
  lemma {:induction false} EmitLinks(src: string, checked: bool, b: nat, e: Em, loop: Option<LoopFrame>, open: nat,
                                     lo: nat)
    requires b <= |src| && Good(e, src, checked, b, loop, open, lo)
    ensures var r := Emit(src, checked, b, e, loop, open);
            r.Ok? ==>
              && Linked(r.em.blocks, src, checked, r.em.cert, b, Limit(src, loop, r.pos), lo)
              && (loop.Some? ==> Ready(r.em, checked, r.pos) && Completed(e, r.em, checked, loop.value, open, r.pos))
    decreases |src| - b
  {
    hide Plain, Opened, Closed, Extend, TokenAt, Linked, Implements, RestsOn, Avoids, Frame, Later, NewFrom,
        NoneBetween, LoopAt;
    var t := TokenAt(src, b);
    var r := Emit(src, checked, b, e, loop, open);
    var test := TestOf(loop);
    if r.Failed? {
    } else if t.sym == Eof {
      EofStep(e, src, checked, b, lo);
    } else if t.sym == EndLoop {
      CloseStep(e, src, checked, b, loop.value, open, lo);
    } else if t.sym == Loop {
      var inner := Opened(e, t.end);
      OpenLinks(e, checked, b, t.end);
      OpenFramed(e, t.end, None);
      OpenRecords(e, b, t.end);
      var body := Emit(src, checked, t.end, inner, Some(FrameOf(e)), t.end - 1);
      EmitFramed(src, checked, t.end, inner, Some(FrameOf(e)), t.end - 1);
      EmitRecords(src, checked, t.end, inner, Some(FrameOf(e)), t.end - 1);
      EmitLinks(src, checked, t.end, inner, Some(FrameOf(e)), t.end - 1, |e.blocks|);
      LoopKeeps(e, body.em, src, checked, b, body.pos, loop, open, lo);
      EmitFramed(src, checked, body.pos, body.em, loop, open);
      EmitRecords(src, checked, body.pos, body.em, loop, open);
      EmitLinks(src, checked, body.pos, body.em, loop, open, lo);
      LoopCombines(e, body.em, r.em, src, checked, b, body.pos, r.pos, loop, open, lo);
    } else {
      var e' := Plain(e, checked, t);
      PlainStep(e, src, checked, b, loop, open, lo);
      EmitFramed(src, checked, t.end, e', loop, open);
      EmitRecords(src, checked, t.end, e', loop, open);
      EmitLinks(src, checked, t.end, e', loop, open, lo);
      PlainCombines(e, e', r.em, src, checked, b, r.pos, loop, open, lo);
    }
  }
}
