/** What emission leaves alone: blocks outside the insertion point and the enclosing
    test block, and everything already recorded about earlier source text. */
module BrainFFrame {
  import opened BrainFSource
  import opened BrainFIr
  import opened BrainFEmitter
  import opened Wrappers

  /** From `g` to `g'`: block `cur` may be extended at its end, block `test` may change,
      every other block of `g` is untouched. */
  ghost predicate Frame(g: seq<Block>, g': seq<Block>, cur: Label, test: Option<Label>) {
    && |g| <= |g'|
    && forall l :: 0 <= l < |g| && Some(l) != test ==> if l == cur then g[l] <= g'[l] else g'[l] == g[l]
  }

  /** The current block is still the same one or a new one, and registers only grow. */
  ghost predicate Moved(e: Em, e': Em) {
    e'.cur < |e'.blocks| && (e'.cur == e.cur || e'.cur >= |e.blocks|) && e.next <= e'.next
  }

  ghost predicate Framed(e: Em, e': Em, test: Option<Label>) {
    Moved(e, e') && |e.blocks| <= |e'.blocks| && Frame(e.blocks, e'.blocks, e.cur, test)
  }

  lemma FramedTrans(e0: Em, e1: Em, e2: Em, test: Option<Label>)
    requires Framed(e0, e1, test) && Framed(e1, e2, test)
    ensures Framed(e0, e2, test)
  {
  }

  /** A frame around a nested loop's fresh test block is a frame outright. */
  lemma FramedInner(e0: Em, e1: Em, e2: Em, test: Option<Label>, inner: Label)
    requires Framed(e0, e1, test) && Framed(e1, e2, Some(inner)) && inner >= |e0.blocks| && e1.cur >= |e0.blocks|
    ensures Framed(e0, e2, test)
  {
  }

  ghost predicate PendingTest(e: Em, test: Option<Label>) {
    test.Some? ==> test.value < |e.blocks| && test.value != e.cur
  }

  function TestOf(loop: Option<LoopFrame>): Option<Label> {
    if loop.Some? then Some(loop.value.testbb) else None
  }

  lemma PlainFramed(e: Em, checked: bool, t: Token, test: Option<Label>)
    requires e.cur < |e.blocks|
    ensures Framed(e, Plain(e, checked, t), test)
  {
  }

  lemma EofFramed(e: Em, test: Option<Label>)
    requires e.cur < |e.blocks|
    ensures Framed(e, Extend(e, [Br(ENDBB)], []), test)
  {
  }

  lemma OpenFramed(e: Em, end: nat, test: Option<Label>)
    requires e.cur < |e.blocks|
    ensures Framed(e, Opened(e, end), test)
    ensures Opened(e, end).cur == |e.blocks| + 1 && |Opened(e, end).blocks| == |e.blocks| + 2
  {
  }

  lemma CloseFramed(e: Em, f: LoopFrame, open: nat, end: nat)
    requires e.cur < |e.blocks| && PendingTest(e, Some(f.testbb))
    ensures Framed(e, Closed(e, f, open, end), Some(f.testbb))
    ensures Closed(e, f, open, end).cur == |e.blocks| && |Closed(e, f, open, end).blocks| == |e.blocks| + 1
  {
  }

  /** Emitting any stretch of source touches no block but the insertion block, the test block
      of the enclosing loop, and fresh blocks; a nested call ends in a fresh block. */
  lemma {:induction false} EmitFramed(src: string, checked: bool, b: nat, e: Em, loop: Option<LoopFrame>, open: nat)
    requires b <= |src| && e.cur < |e.blocks| && PendingTest(e, TestOf(loop))
    ensures var r := Emit(src, checked, b, e, loop, open);
            r.Ok? ==> Framed(e, r.em, TestOf(loop)) && (loop.Some? ==> r.em.cur >= |e.blocks|)
    decreases |src| - b
  {
    hide Plain, Opened, Closed, Extend, TokenAt, Frame;
    var t := TokenAt(src, b);
    var test := TestOf(loop);
    var r := Emit(src, checked, b, e, loop, open);
    if t.sym == Eof {
      EofFramed(e, test);
    } else if t.sym == EndLoop {
      if loop.Some? {
        CloseFramed(e, loop.value, open, t.end);
      }
    } else if t.sym == Loop {
      var inner := Opened(e, t.end);
      OpenFramed(e, t.end, test);
      var body := Emit(src, checked, t.end, inner, Some(FrameOf(e)), t.end - 1);
      EmitFramed(src, checked, t.end, inner, Some(FrameOf(e)), t.end - 1);
      if body.Ok? {
        FramedInner(e, inner, body.em, test, |e.blocks|);
        EmitFramed(src, checked, body.pos, body.em, loop, open);
        if r.Ok? {
          FramedTrans(e, body.em, r.em, test);
        }
      }
    } else {
      var e' := Plain(e, checked, t);
      PlainFramed(e, checked, t, test);
      EmitFramed(src, checked, t.end, e', loop, open);
      if r.Ok? {
        FramedTrans(e, e', r.em, test);
      }
    }
  }

  // ----- The certificate only grows -----

  ghost predicate Submap<K, V>(m: map<K, V>, m': map<K, V>) {
    forall k :: k in m ==> k in m' && m'[k] == m[k]
  }

  ghost predicate Later(c: Cert, c': Cert) {
    Submap(c.points, c'.points) && Submap(c.loops, c'.loops) && Submap(c.opens, c'.opens)
  }

  /** Everything recorded concerns source text before `b`. */
  ghost predicate UpTo(c: Cert, b: nat) {
    && (forall k :: k in c.points ==> k <= b)
    && (forall k :: k in c.loops ==> k < b)
    && (forall k :: k in c.opens ==> k < b)
  }

  /** What `c'` records beyond `c` concerns source text from `b` on, or the loop at `open`. */
  ghost predicate NewFrom(c: Cert, c': Cert, b: nat, open: Option<nat>) {
    && (forall k :: k in c'.points && k !in c.points ==> k > b)
    && (forall k :: k in c'.loops && k !in c.loops ==> k >= b || Some(k) == open)
    && (forall k :: k in c'.opens && k !in c.opens ==> k >= b)
  }

  function OpenOf(loop: Option<LoopFrame>, open: nat): Option<nat> {
    if loop.Some? then Some(open) else None
  }

  lemma LaterTrans(c0: Cert, c1: Cert, c2: Cert)
    requires Later(c0, c1) && Later(c1, c2)
    ensures Later(c0, c2)
  {
  }

  lemma NewFromTrans(c0: Cert, c1: Cert, c2: Cert, b: nat, m: nat, open: Option<nat>)
    requires NewFrom(c0, c1, b, None) && b <= m && NewFrom(c1, c2, m, open)
    ensures NewFrom(c0, c2, b, open)
  {
  }

  lemma NewFromInner(c0: Cert, c1: Cert, c2: Cert, b: nat, m: nat, inner: nat)
    requires NewFrom(c0, c1, b, None) && b <= m && NewFrom(c1, c2, m, Some(inner)) && b <= inner
    ensures NewFrom(c0, c2, b, None)
  {
  }

  lemma NotNew(c: Cert, c': Cert, b: nat, open: nat)
    requires NewFrom(c, c', b, None) && open < b && open !in c.loops
    ensures open !in c'.loops
  {
  }

  lemma EofRecords(e: Em, b: nat, end: nat, open: Option<nat>)
    requires UpTo(e.cert, b) && b <= end
    ensures var c := Extend(e, [Br(ENDBB)], []).cert;
            Later(e.cert, c) && UpTo(c, end) && NewFrom(e.cert, c, b, open)
  {
  }

  lemma PlainRecords(e: Em, checked: bool, t: Token, b: nat)
    requires UpTo(e.cert, b) && b < t.end
    ensures var c := Plain(e, checked, t).cert;
            Later(e.cert, c) && UpTo(c, t.end) && NewFrom(e.cert, c, b, None)
  {
  }

  lemma OpenRecords(e: Em, b: nat, end: nat)
    requires UpTo(e.cert, b) && b < end
    ensures var c := Opened(e, end).cert;
            && Later(e.cert, c) && UpTo(c, end) && NewFrom(e.cert, c, b, None) && c.loops == e.cert.loops
            && forall k :: k in c.points ==> k in e.cert.points || k == end
  {
  }

  lemma CloseRecords(e: Em, f: LoopFrame, open: nat, b: nat, end: nat)
    requires UpTo(e.cert, b) && b < end && open < b && open !in e.cert.loops
    ensures var c := Closed(e, f, open, end).cert;
            Later(e.cert, c) && UpTo(c, end) && NewFrom(e.cert, c, b, Some(open))
  {
  }

  /** `Emit` records new positions only, and keeps what was recorded. */
  lemma {:induction false} EmitRecords(src: string, checked: bool, b: nat, e: Em, loop: Option<LoopFrame>, open: nat)
    requires b <= |src| && UpTo(e.cert, b)
    requires loop.Some? ==> open < b && open !in e.cert.loops
    ensures var r := Emit(src, checked, b, e, loop, open);
            r.Ok? ==>
                Later(e.cert, r.em.cert) && UpTo(r.em.cert, r.pos) && NewFrom(e.cert, r.em.cert, b, OpenOf(loop, open))
    decreases |src| - b
  {
    hide Plain, Opened, Closed, Extend, TokenAt, FrameOf, Submap, NewFrom;
    var t := TokenAt(src, b);
    var r := Emit(src, checked, b, e, loop, open);
    if t.sym == Eof {
      EofRecords(e, b, t.end, OpenOf(loop, open));
    } else if t.sym == EndLoop {
      if loop.Some? {
        CloseRecords(e, loop.value, open, b, t.end);
      }
    } else if t.sym == Loop {
      var inner := Opened(e, t.end);
      OpenRecords(e, b, t.end);
      var body := Emit(src, checked, t.end, inner, Some(FrameOf(e)), t.end - 1);
      EmitRecords(src, checked, t.end, inner, Some(FrameOf(e)), t.end - 1);
      if body.Ok? {
        LaterTrans(e.cert, inner.cert, body.em.cert);
        NewFromInner(e.cert, inner.cert, body.em.cert, b, t.end, t.end - 1);
        if loop.Some? {
          NotNew(e.cert, body.em.cert, b, open);
        }
        EmitRecords(src, checked, body.pos, body.em, loop, open);
        if r.Ok? {
          LaterTrans(e.cert, body.em.cert, r.em.cert);
          NewFromTrans(e.cert, body.em.cert, r.em.cert, b, body.pos, OpenOf(loop, open));
        }
      }
    } else {
      var e' := Plain(e, checked, t);
      PlainRecords(e, checked, t, b);
      if loop.Some? {
        NotNew(e.cert, e'.cert, b, open);
      }
      EmitRecords(src, checked, t.end, e', loop, open);
      if r.Ok? {
        LaterTrans(e.cert, e'.cert, r.em.cert);
        NewFromTrans(e.cert, e'.cert, r.em.cert, b, t.end, OpenOf(loop, open));
      }
    }
  }
}
