/** Every graph the compiler hands out is well formed. */
module BrainFWellFormedEmit {
  import opened BrainFSource
  import opened BrainFIr
  import opened BrainFEmitter
  import opened BrainFFrame
  import opened BrainFWellFormed
  import opened BrainFWellFormedSteps
  import opened BrainFWellFormedLoops
  import opened Wrappers

  lemma {:induction false} PlainSound(e: Em, checked: bool, pending: set<Label>, t: Token)
    requires Sound(e, checked, pending) && t.sym in {Read, Write, Change, Move}
    ensures Sound(Plain(e, checked, t), checked, pending) && Onward(e, Plain(e, checked, t))
  {
    hide Sound, Plain, Onward;
    if t.sym != Move {
      CellSound(e, checked, pending, t);
    } else if checked {
      CheckedMoveSound(e, pending, t);
    } else {
      MoveSound(e, pending, t);
    }
  }

  ghost predicate LoopPendingOpt(e: Em, loop: Option<LoopFrame>, pending: set<Label>) {
    loop.Some? ==> LoopPending(e, loop.value) && loop.value.testbb in pending
  }

  /** Work outside its test block leaves an enclosing loop pending. */
  lemma LoopPendingStays(e: Em, e': Em, loop: Option<LoopFrame>, pending: set<Label>)
    requires LoopPendingOpt(e, loop, pending) && Framed(e, e', None) && Onward(e, e') && |e'.cert.doms| == |e'.blocks|
    ensures LoopPendingOpt(e', loop, pending)
    ensures loop.Some? ==> e'.cert.doms[loop.value.testbb] == e.cert.doms[loop.value.testbb]
  {
    if loop.Some? {
      var f := loop.value;
      assert BlockGrows(e.blocks, e'.blocks, f.oldbb);
      assert e'.blocks[f.testbb] == e.blocks[f.testbb];
      assert e'.cert.doms[f.oldbb] == e.cert.doms[f.oldbb];
      assert e'.cert.defs[f.phi] == e.cert.defs[f.phi];
    }
  }

  /** How far emission from `e` to `e'` has come: done at top level, behind the loop otherwise. */
  ghost predicate Reached(e: Em, e': Em, checked: bool, loop: Option<LoopFrame>, pending: set<Label>) {
    if loop.None? then Certified(e'.blocks, e'.cert) && OpenBlocks(e'.blocks, pending)
    else
      var test := loop.value.testbb;
      && Sound(e', checked, pending - {test})
      && GraphGrows(e.blocks, e'.blocks) && TablesGrow(e.cert, e'.cert)
      && test < |e.cert.doms| && e'.cur < |e'.cert.doms| && e.cert.doms[test] <= e'.cert.doms[e'.cur]
  }

  lemma ReachedTrans(e: Em, m: Em, r: Em, checked: bool, loop: Option<LoopFrame>, pending: set<Label>)
    requires Onward(e, m) && Reached(m, r, checked, loop, pending)
    requires loop.Some? ==>
               (loop.value.testbb < |e.cert.doms| && m.cert.doms[loop.value.testbb] == e.cert.doms[loop.value.testbb])
    ensures Reached(e, r, checked, loop, pending)
  {
    hide Sound, Certified, OpenBlocks, GraphGrows;
    if loop.Some? {
      GrowsTrans(e, m, r);
    }
  }

  lemma {:induction false} LoopOnward(e: Em, inner: Em, m: Em, checked: bool, pending: set<Label>)
    requires Sound(e, checked, pending) && Onward(e, inner)
    requires |e.blocks| < |inner.cert.doms| && e.cert.doms[e.cur] <= inner.cert.doms[|e.blocks|]
    requires Reached(inner, m, checked, Some(FrameOf(e)), pending + {|e.blocks|})
    ensures Sound(m, checked, pending) && Onward(e, m)
  {
    assert pending + {|e.blocks|} - {|e.blocks|} == pending;
    hide Sound, Certified, OpenBlocks, GraphGrows;
    GrowsTrans(e, inner, m);
  }

  lemma SoundSize(e: Em, checked: bool, pending: set<Label>)
    requires Sound(e, checked, pending)
    ensures e.cur < |e.blocks| == |e.cert.doms|
  {
  }

  lemma PendingBelow(e: Em, loop: Option<LoopFrame>, pending: set<Label>)
    requires LoopPendingOpt(e, loop, pending)
    ensures PendingTest(e, TestOf(loop)) && (loop.Some? ==> loop.value.testbb < |e.cert.doms|)
  {
  }

  /** Emission keeps the graph certified, whatever it emits and however loops nest. */
  lemma {:induction false} EmitSound(src: string, checked: bool, b: nat, e: Em, loop: Option<LoopFrame>, open: nat,
                                     pending: set<Label>)
    requires b <= |src| && Sound(e, checked, pending) && LoopPendingOpt(e, loop, pending)
    ensures var r := Emit(src, checked, b, e, loop, open);
            r.Ok? ==> Reached(e, r.em, checked, loop, pending)
    decreases |src| - b
  {
    hide TokenAt, Plain, Opened, Closed, Extend, Sound, Onward, Certified, OpenBlocks, GraphGrows, TablesGrow,
        LoopPending;
    hide Frame, Reached;
    var t := TokenAt(src, b);
    var r := Emit(src, checked, b, e, loop, open);
    SoundSize(e, checked, pending);
    PendingBelow(e, loop, pending);
    if r.Failed? {
    } else if t.sym == Eof {
      EofReached(e, checked, pending);
    } else if t.sym == EndLoop {
      CloseReached(e, loop.value, open, t.end, checked, pending);
    } else if t.sym == Loop {
      var inner := Opened(e, t.end);
      OpenSound(e, t.end, checked, pending);
      OpenFramed(e, t.end, None);
      SoundSize(inner, checked, pending + {|e.blocks|});
      var body := Emit(src, checked, t.end, inner, Some(FrameOf(e)), t.end - 1);
      EmitFramed(src, checked, t.end, inner, Some(FrameOf(e)), t.end - 1);
      EmitSound(src, checked, t.end, inner, Some(FrameOf(e)), t.end - 1, pending + {|e.blocks|});
      FramedInner(e, inner, body.em, None, |e.blocks|);
      LoopOnward(e, inner, body.em, checked, pending);
      SoundSize(body.em, checked, pending);
      LoopPendingStays(e, body.em, loop, pending);
      EmitSound(src, checked, body.pos, body.em, loop, open, pending);
      ReachedTrans(e, body.em, r.em, checked, loop, pending);
    } else {
      var e' := Plain(e, checked, t);
      PlainSound(e, checked, pending, t);
      PlainFramed(e, checked, t, None);
      SoundSize(e', checked, pending);
      LoopPendingStays(e, e', loop, pending);
      EmitSound(src, checked, t.end, e', loop, open, pending);
      ReachedTrans(e, e', r.em, checked, loop, pending);
    }
  }

  lemma {:induction false} EofReached(e: Em, checked: bool, pending: set<Label>)
    requires Sound(e, checked, pending)
    ensures Reached(e, Extend(e, [Br(ENDBB)], []), checked, None, pending)
  {
    hide Sound, Extend;
    EofSound(e, checked, pending);
  }

  lemma {:induction false} CloseReached(e: Em, f: LoopFrame, open: nat, end: nat, checked: bool, pending: set<Label>)
    requires Sound(e, checked, pending) && LoopPendingOpt(e, Some(f), pending)
    ensures Reached(e, Closed(e, f, open, end), checked, Some(f), pending)
  {
    PendingBelow(e, Some(f), pending);
    hide Sound, Closed, LoopPending;
    CloseSound(e, f, open, end, checked, pending);
  }

  // ----- The whole function -----

  lemma HeaderEntry(checked: bool, memtotal: nat, k: nat)
    requires k < |EntryBlock(checked, memtotal)|
    ensures var e := Header(checked, memtotal);
            InstrOk(e.blocks, e.cert, ENTRYBB, k, EntryBlock(checked, memtotal)[k])
  {
    var e := Header(checked, memtotal);
    SimpleOk(e.blocks, e.cert, ENTRYBB, k, EntryBlock(checked, memtotal)[k]);
  }

  lemma HeaderOthers(checked: bool, memtotal: nat, l: Label, k: nat)
    requires 0 < l < |Header(checked, memtotal).blocks| && k < |Header(checked, memtotal).blocks[l]|
    ensures var e := Header(checked, memtotal);
            InstrOk(e.blocks, e.cert, l, k, e.blocks[l][k])
  {
  }

  lemma {:induction false} HeaderCertified(checked: bool, memtotal: nat)
    ensures var e := Header(checked, memtotal);
            Certified(e.blocks, e.cert)
  {
    var e := Header(checked, memtotal);
    assert DefsOk(e.blocks, e.cert);
    hide InstrOk;
    forall l, k | 0 <= l < |e.blocks| && 0 <= k < |e.blocks[l]|
      ensures InstrOk(e.blocks, e.cert, l, k, e.blocks[l][k])
    {
      if l == 0 {
        HeaderEntry(checked, memtotal, k);
      } else {
        HeaderOthers(checked, memtotal, l, k);
      }
    }
  }

  lemma {:induction false} HeaderSound(checked: bool, memtotal: nat)
    ensures Sound(Mark(Header(checked, memtotal), 0), checked, {})
  {
    HeaderCertified(checked, memtotal);
    hide Certified;
    var e := Header(checked, memtotal);
    assert Mark(e, 0).cert.defs == e.cert.defs && Mark(e, 0).cert.doms == e.cert.doms;
    CertifiedTables(e.blocks, e.cert, Mark(e, 0).cert);
  }

  lemma CertifiedTables(g: seq<Block>, c: Cert, c': Cert)
    requires Certified(g, c) && c'.defs == c.defs && c'.doms == c.doms
    ensures Certified(g, c')
  {
    assert GraphGrows(g, g);
    forall l, k | 0 <= l < |g| && 0 <= k < |g[l]|
      ensures InstrOk(g, c', l, k, g[l][k])
    {
      InstrStays(g, g, c, c', l, k, g[l][k]);
    }
  }

  /** The error message is printed in the error block only. */
  ghost predicate PutsOnlyInErrorBlock(g: seq<Block>) {
    forall l, k :: 0 <= l < |g| && 0 <= k < |g[l]| && g[l][k].Puts? ==> l == ABERRORBB
  }

  lemma CertifiedPuts(g: seq<Block>, c: Cert)
    requires Certified(g, c)
    ensures PutsOnlyInErrorBlock(g)
  {
    forall l, k | 0 <= l < |g| && 0 <= k < |g[l]| && g[l][k].Puts?
      ensures l == ABERRORBB
    {
      assert InstrOk(g, c, l, k, g[l][k]);
    }
  }

  /** When compilation succeeds the function is well formed. */
  lemma {:induction false} CompileWellFormed(src: string, checked: bool, memtotal: nat)
    ensures var r := Compile(src, checked, memtotal);
            r.Ok? ==> WellFormed(r.em.blocks) && PutsOnlyInErrorBlock(r.em.blocks)
  {
    hide Header, Mark, Emit, Sound, Certified, WellFormed, OneTerminator, PutsOnlyInErrorBlock;
    HeaderSound(checked, memtotal);
    EmitSound(src, checked, 0, Mark(Header(checked, memtotal), 0), None, 0, {});
    var r := Compile(src, checked, memtotal);
    if r.Ok? {
      CertifiedIsWellFormed(r.em.blocks, r.em.cert);
      CertifiedPuts(r.em.blocks, r.em.cert);
    }
  }
}
