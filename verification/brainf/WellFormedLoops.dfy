/** Opening and closing a loop keep the graph certified. */
module BrainFWellFormedLoops {
  import opened BrainFIr
  import opened BrainFEmitter
  import opened BrainFWellFormed
  import opened BrainFWellFormedSteps

  /** The frame of an enclosing loop: its test block holds the phi alone, dominates the current
      block, and may branch back to the body. */
  ghost predicate LoopPending(e: Em, f: LoopFrame) {
    && f.testbb < |e.blocks| == |e.cert.doms| && f.oldbb < |e.blocks| && ENTRYBB < f.testbb < e.cur && ENTRYBB < f.oldbb
    && |e.blocks[f.testbb]| == 1 && e.blocks[f.testbb][0].Phi? && e.blocks[f.testbb][0].dst == f.phi
    && |EntriesOf(e.blocks, f.testbb)| == 1 && EntriesOf(e.blocks, f.testbb)[0].1 < f.testbb
    && f.phi < |e.cert.defs| && e.cert.defs[f.phi] == Site(f.testbb, 0)
    && e.cur < |e.cert.doms| && e.cert.doms[f.testbb] <= e.cert.doms[e.cur]
    && e.cert.doms[f.oldbb] <= e.cert.doms[f.testbb] + {f.oldbb}
    && !StartsWithPhi(e.blocks, f.oldbb)
  }

  // ----- '[' -----

  ghost predicate OpenTo(e: Em, e': Em) {
    var test := |e.blocks|;
    && e.cur < |e.cert.doms| == |e.blocks|
    && Extends(e, e', [Br(test)], [[Phi(e.next, [(e.head, e.cur)])], []])
    && e'.cur == test + 1 && e'.head == e.next && e'.next == e.next + 1
    && e'.cert.defs == e.cert.defs + [Site(test, 0)]
    && e'.cert.doms == e.cert.doms + [e.cert.doms[e.cur] + {test}, e.cert.doms[e.cur] + {test} + {test + 1}]
  }

  lemma OpenShape(e: Em, end: nat)
    requires e.cur < |e.blocks| == |e.cert.doms|
    ensures OpenTo(e, Opened(e, end))
  {
    var g' := Opened(e, end).blocks;
    var test := |e.blocks|;
    assert g' == e.blocks[e.cur := e.blocks[e.cur] + [Br(test)]] + [[Phi(e.next, [(e.head, e.cur)])], []];
  }

  lemma OpenGraph(e: Em, e': Em)
    requires OpenTo(e, e')
    ensures var test := |e.blocks|;
            && |e'.blocks| == test + 2
            && e'.blocks[test] == [Phi(e.next, [(e.head, e.cur)])] && e'.blocks[test + 1] == []
            && e'.blocks[e.cur] == e.blocks[e.cur] + [Br(test)]
            && EntriesOf(e'.blocks, test) == [(e.head, e.cur)] && Labels([(e.head, e.cur)]) == {e.cur}
            && Successors(e'.blocks[e.cur]) == {test}
  {
    assert (e.blocks[e.cur] + [Br(|e.blocks|)])[|e.blocks[e.cur]|] == Br(|e.blocks|);
    LabelsOne((e.head, e.cur));
  }

  lemma LabelsOne(entry: (Reg, Label))
    ensures Labels([entry]) == {entry.1}
  {
    assert [entry][0] == entry;
  }

  lemma OpenInstrs(e: Em, e': Em, checked: bool, pending: set<Label>)
    requires Sound(e, checked, pending) && OpenTo(e, e')
    ensures InstrOk(e'.blocks, e'.cert, e.cur, |e.blocks[e.cur]|, Br(|e.blocks|))
    ensures InstrOk(e'.blocks, e'.cert, |e.blocks|, 0, Phi(e.next, [(e.head, e.cur)]))
  {
    var g', c', test := e'.blocks, e'.cert, |e.blocks|;
    OpenGraph(e, e');
    CertifiedDoms(e.blocks, e.cert);
    assert c'.doms[e.cur] == e.cert.doms[e.cur] && c'.doms[test] == e.cert.doms[e.cur] + {test};
    assert c'.defs[e.head] == e.cert.defs[e.head] && c'.defs[e.next] == Site(test, 0);
    hide Certified, FixedOk, OpenBlocks, Extends;
    assert TargetOk(g', c', e.cur, test);
    assert EntryOk(g', c', test, (e.head, e.cur));
  }

  lemma {:induction false} OpenCertified(e: Em, e': Em, checked: bool, pending: set<Label>)
    requires Sound(e, checked, pending) && OpenTo(e, e')
    ensures Certified(e'.blocks, e'.cert) && Onward(e, e')
  {
    var test := |e.blocks|;
    var code, more := [Br(test)], [[Phi(e.next, [(e.head, e.cur)])], []];
    OpenInstrs(e, e', checked, pending);
    OpenGraph(e, e');
    CertifiedDoms(e.blocks, e.cert);
    assert DomsOk(e'.blocks, e'.cert);
    assert DefinedAt(e'.blocks, e.next, test, 0);
    hide InstrOk, DomsOk, Certified;
    assert DomsOk(e'.blocks, e'.cert);
    ExtendsCertified(e, e', code, more);
  }

  lemma OpenKeeps(e: Em, e': Em, checked: bool, pending: set<Label>)
    requires Sound(e, checked, pending) && OpenTo(e, e')
    ensures FixedOk(e', checked) && OpenBlocks(e'.blocks, pending + {|e.blocks|} + {e'.cur})
    ensures Available(e'.cert, e'.head, e'.cur, 0)
  {
    var test := |e.blocks|;
    var code, more := [Br(test)], [[Phi(e.next, [(e.head, e.cur)])], []];
    OpenGraph(e, e');
    CertifiedDoms(e.blocks, e.cert);
    BranchSeals(e, e', checked, pending, code, more);
    hide Certified, Extends;
    assert e'.cert.defs[e.next] == Site(test, 0);
  }

  lemma {:induction false} OpenSound(e: Em, end: nat, checked: bool, pending: set<Label>)
    requires Sound(e, checked, pending)
    ensures var e' := Opened(e, end);
            && Sound(e', checked, pending + {|e.blocks|}) && Onward(e, e')
            && LoopPending(e', FrameOf(e)) && e.cert.doms[e.cur] <= e'.cert.doms[|e.blocks|]
  {
    hide Opened, Certified, Onward;
    var e' := Opened(e, end);
    CertifiedDoms(e.blocks, e.cert);
    OpenShape(e, end);
    OpenCertified(e, e', checked, pending);
    OpenKeeps(e, e', checked, pending);
    OpenGraph(e, e');
    hide FixedOk, OpenBlocks, Extends;
  }

  // ----- ']' -----

  ghost predicate CloseTo(e: Em, e': Em, f: LoopFrame) {
    var r, after, test := e.next, |e.blocks|, f.testbb;
    var entries := EntriesOf(e.blocks, test) + [(e.head, e.cur)];
    && test < |e.cert.doms| == |e.blocks| && e.cur < |e.blocks| && test < |e.blocks| && test != e.cur
    && |e'.blocks| == after + 1 && e'.cur == after && e'.head == r + 2 && e'.next == r + 3
    && (forall l :: 0 <= l < after && l != test && l != e.cur ==> e'.blocks[l] == e.blocks[l])
    && e'.blocks[e.cur] == e.blocks[e.cur] + [Br(test)]
    && e'.blocks[test] == TestBlock(f.phi, entries, r, after, f.oldbb)
    && e'.blocks[after] == [Phi(r + 2, [(f.phi, test)])]
    && e'.cert.defs == e.cert.defs + [Site(test, 1), Site(test, 2), Site(after, 0)]
    && e'.cert.doms == e.cert.doms + [e.cert.doms[test] + {after}]
  }

  lemma CloseShape(e: Em, f: LoopFrame, open: nat, end: nat)
    requires e.cur < |e.blocks| == |e.cert.doms| && f.testbb < |e.blocks| && f.testbb != e.cur
    ensures CloseTo(e, Closed(e, f, open, end), f)
  {
  }

  /** The state in which a loop is closed. */
  ghost predicate Closing(e: Em, e': Em, f: LoopFrame, checked: bool, pending: set<Label>) {
    Sound(e, checked, pending) && LoopPending(e, f) && f.testbb in pending && CloseTo(e, e', f)
  }

  lemma CloseTables(e: Em, e': Em, f: LoopFrame, checked: bool, pending: set<Label>)
    requires Closing(e, e', f, checked, pending)
    ensures TablesGrow(e.cert, e'.cert) && DomsOk(e'.blocks, e'.cert)
    ensures var r, after, test, c' := e.next, |e.blocks|, f.testbb, e'.cert;
            && c'.doms[e.cur] == e.cert.doms[e.cur] && c'.doms[test] == e.cert.doms[test]
            && c'.doms[f.oldbb] == e.cert.doms[f.oldbb] && c'.doms[after] == e.cert.doms[test] + {after}
            && test in c'.doms[test] && |c'.defs| == r + 3 && f.phi < r
            && c'.defs[f.phi] == Site(test, 0) && c'.defs[r] == Site(test, 1) && c'.defs[r + 1] == Site(test, 2)
            && c'.defs[r + 2] == Site(after, 0) && c'.defs[e.head] == e.cert.defs[e.head]
  {
    CertifiedDoms(e.blocks, e.cert);
    hide Certified, FixedOk, OpenBlocks;
  }

  lemma LabelsAdd(s: seq<(Reg, Label)>, entry: (Reg, Label))
    ensures Labels(s + [entry]) == Labels(s) + {entry.1}
  {
    var t := s + [entry];
    assert t[|s|] == entry;
    assert forall i :: 0 <= i < |s| ==> t[i] == s[i];
  }

  /** A block without a terminator leads nowhere yet. */
  lemma OpenLeadsNowhere(b: Block)
    requires NoTerminator(b)
    ensures Successors(b) == {}
  {
    if b != [] {
      assert !IsTerminator(b[|b| - 1]);
    }
  }

  lemma ClosingOpen(e: Em, e': Em, f: LoopFrame, checked: bool, pending: set<Label>)
    requires Closing(e, e', f, checked, pending)
    ensures NoTerminator(e.blocks[e.cur]) && NoTerminator(e.blocks[f.testbb])
  {
    hide Certified, FixedOk, CloseTo, Available;
  }

  lemma CloseTargets(e: Em, e': Em, f: LoopFrame)
    requires LoopPending(e, f) && CloseTo(e, e', f)
    ensures var g', test := e'.blocks, f.testbb;
            var entries := EntriesOf(e.blocks, test) + [(e.head, e.cur)];
            && EntriesOf(g', test) == entries && Labels(entries) == Labels(EntriesOf(e.blocks, test)) + {e.cur}
            && Successors(g'[e.cur]) == {test} && Successors(g'[test]) == {|e.blocks|, f.oldbb}
  {
    hide Labels;
    LabelsAdd(EntriesOf(e.blocks, f.testbb), (e.head, e.cur));
    assert e'.blocks[e.cur][|e.blocks[e.cur]|] == Br(f.testbb);
  }

  lemma ClosePhis(e: Em, e': Em, f: LoopFrame, t: Label)
    requires LoopPending(e, f) && CloseTo(e, e', f) && t < |e.blocks|
    ensures StartsWithPhi(e'.blocks, t) ==> StartsWithPhi(e.blocks, t)
    ensures t != f.testbb && StartsWithPhi(e.blocks, t) ==> EntriesOf(e'.blocks, t) == EntriesOf(e.blocks, t)
  {
    if t == e.cur && e.blocks[t] != [] {
      assert e'.blocks[t][0] == e.blocks[t][0];
    }
  }

  lemma CloseGraph(e: Em, e': Em, f: LoopFrame, checked: bool, pending: set<Label>)
    requires Closing(e, e', f, checked, pending)
    ensures GraphGrows(e.blocks, e'.blocks)
  {
    var g, g', test := e.blocks, e'.blocks, f.testbb;
    hide Sound, StartsWithPhi, Successors, EntriesOf, Labels, TestBlock, LoopPending;
    ClosingOpen(e, e', f, checked, pending);
    CloseTargets(e, e', f);
    OpenLeadsNowhere(g[e.cur]);
    OpenLeadsNowhere(g[test]);
    forall t | 0 <= t < |g|
      ensures BlockGrows(g, g', t)
    {
      ClosePhis(e, e', f, t);
      if t != test && !StartsWithPhi(g, t) {
        NoEntries(g, t);
      }
    }
  }

  lemma NoEntries(g: seq<Block>, t: Label)
    requires !StartsWithPhi(g, t)
    ensures Labels(EntriesOf(g, t)) == {}
  {
  }

  lemma CloseBranches(e: Em, e': Em, f: LoopFrame, checked: bool, pending: set<Label>)
    requires Closing(e, e', f, checked, pending)
    ensures var after, test, g', c' := |e.blocks|, f.testbb, e'.blocks, e'.cert;
            && TargetOk(g', c', e.cur, test) && TargetOk(g', c', test, after) && TargetOk(g', c', test, f.oldbb)
            && EntryOk(g', c', after, (f.phi, test)) && EntryOk(g', c', test, (e.head, e.cur))
  {
    hide Sound, TestBlock, Labels, DomsOk, TablesGrow, EntriesOf, Successors;
    CloseTables(e, e', f, checked, pending);
    CloseTargets(e, e', f);
    ClosePhis(e, e', f, f.oldbb);
    LabelsOne((f.phi, f.testbb));
    AfterEntries(e', e.next + 2, (f.phi, f.testbb));
    HeadOf(e, checked, pending);
  }

  lemma AfterEntries(e': Em, d: Reg, entry: (Reg, Label))
    requires e'.cur < |e'.blocks| && e'.blocks[e'.cur] == [Phi(d, [entry])]
    ensures EntriesOf(e'.blocks, e'.cur) == [entry]
  {
  }

  lemma HeadOf(e: Em, checked: bool, pending: set<Label>)
    requires Sound(e, checked, pending)
    ensures e.head < |e.cert.defs| && e.cur < |e.cert.doms| && e.cert.defs[e.head].block in e.cert.doms[e.cur]
  {
  }

  lemma CloseInstrs(e: Em, e': Em, f: LoopFrame, checked: bool, pending: set<Label>)
    requires Closing(e, e', f, checked, pending)
    ensures var r, after, test, g', c' := e.next, |e.blocks|, f.testbb, e'.blocks, e'.cert;
            && InstrOk(g', c', e.cur, |e.blocks[e.cur]|, Br(test))
            && InstrOk(g', c', test, 1, Load(r, f.phi)) && InstrOk(g', c', test, 2, ICmpEqZero(r + 1, r))
            && InstrOk(g', c', test, 3, CondBr(r + 1, after, f.oldbb))
            && InstrOk(g', c', after, 0, Phi(r + 2, [(f.phi, test)]))
  {
    hide Sound, TestBlock, DomsOk, TablesGrow, TargetOk, EntryOk, EntriesOf, LoopPending;
    CloseTables(e, e', f, checked, pending);
    CloseBranches(e, e', f, checked, pending);
  }

  /** The entry the test block's phi already has is still in order. */
  lemma OldEntry(e: Em, e': Em, f: LoopFrame, checked: bool, pending: set<Label>)
    requires Closing(e, e', f, checked, pending)
    ensures EntryOk(e'.blocks, e'.cert, f.testbb, EntriesOf(e.blocks, f.testbb)[0])
  {
    CloseTables(e, e', f, checked, pending);
    CloseGraph(e, e', f, checked, pending);
    CertifiedDoms(e.blocks, e.cert);
    var phi := e.blocks[f.testbb][0];
    assert InstrOk(e.blocks, e.cert, f.testbb, 0, phi);
    hide Certified, FixedOk, OpenBlocks, GraphGrows, TablesGrow;
    InstrStays(e.blocks, e'.blocks, e.cert, e'.cert, f.testbb, 0, phi);
  }

  lemma {:induction false} ClosePhi(e: Em, e': Em, f: LoopFrame, checked: bool, pending: set<Label>)
    requires Closing(e, e', f, checked, pending)
    ensures InstrOk(e'.blocks, e'.cert, f.testbb, 0, Phi(f.phi, EntriesOf(e.blocks, f.testbb) + [(e.head, e.cur)]))
  {
    hide Sound, EntryOk, TablesGrow, DomsOk;
    var before := EntriesOf(e.blocks, f.testbb);
    var entries := before + [(e.head, e.cur)];
    CloseTables(e, e', f, checked, pending);
    OldEntry(e, e', f, checked, pending);
    CloseBranches(e, e', f, checked, pending);
    assert entries == [before[0], (e.head, e.cur)];
  }

  lemma {:induction false} CloseNew(e: Em, e': Em, f: LoopFrame, checked: bool, pending: set<Label>, l: Label, k: nat)
    requires Closing(e, e', f, checked, pending) && l < |e'.blocks| && k < |e'.blocks[l]|
    ensures OldOrOk(e.blocks, e'.blocks, e'.cert, l, k)
  {
    hide Sound, LoopPending, InstrOk;
    CloseInstrs(e, e', f, checked, pending);
    ClosePhi(e, e', f, checked, pending);
    if l == f.testbb {
      assert k == 0 || k == 1 || k == 2 || k == 3;
    }
  }

  lemma CloseDefs(e: Em, e': Em, f: LoopFrame, checked: bool, pending: set<Label>, r: Reg)
    requires Closing(e, e', f, checked, pending) && |e.cert.defs| <= r < |e'.cert.defs|
    ensures DefinedAt(e'.blocks, r, e'.cert.defs[r].block, e'.cert.defs[r].pc)
  {
    CloseTables(e, e', f, checked, pending);
    hide Certified, FixedOk, OpenBlocks, Available, LoopPending, DomsOk, TablesGrow;
  }

  lemma {:induction false} CloseCertified(e: Em, e': Em, f: LoopFrame, checked: bool, pending: set<Label>)
    requires Closing(e, e', f, checked, pending)
    ensures Certified(e'.blocks, e'.cert)
  {
    CloseTables(e, e', f, checked, pending);
    CloseGraph(e, e', f, checked, pending);
    hide Closing, OldOrOk, GraphGrows, DstKeeps, TablesGrow, DomsOk, DefinedAt, Certified;
    forall l, k | 0 <= l < |e'.blocks| && 0 <= k < |e'.blocks[l]|
      ensures OldOrOk(e.blocks, e'.blocks, e'.cert, l, k)
    {
      CloseNew(e, e', f, checked, pending, l, k);
    }
    forall r | |e.cert.defs| <= r < |e'.cert.defs|
      ensures DefinedAt(e'.blocks, r, e'.cert.defs[r].block, e'.cert.defs[r].pc)
    {
      CloseDefs(e, e', f, checked, pending, r);
    }
    GrowCertified(e.blocks, e'.blocks, e.cert, e'.cert);
  }

  lemma CloseBlocks(e: Em, e': Em, f: LoopFrame, checked: bool, pending: set<Label>)
    requires Closing(e, e', f, checked, pending)
    ensures OpenBlocks(e'.blocks, pending - {f.testbb} + {e'.cur})
  {
    hide Certified, FixedOk, Available, LoopPending, NoTerminator, OneTerminator;
    ClosingOpen(e, e', f, checked, pending);
    BranchEnds(e.blocks[e.cur], f.testbb);
    TestEnds(f.phi, EntriesOf(e.blocks, f.testbb) + [(e.head, e.cur)], e.next, |e.blocks|, f.oldbb);
    PhiOpen(e.next + 2, [(f.phi, f.testbb)]);
  }

  lemma BranchEnds(b: Block, t: Label)
    requires NoTerminator(b)
    ensures OneTerminator(b + [Br(t)])
  {
  }

  lemma TestEnds(phi: Reg, entries: seq<(Reg, Label)>, r: Reg, after: Label, body: Label)
    ensures OneTerminator(TestBlock(phi, entries, r, after, body))
  {
  }

  lemma PhiOpen(d: Reg, entries: seq<(Reg, Label)>)
    ensures NoTerminator([Phi(d, entries)])
  {
  }

  lemma CloseFixed(e: Em, e': Em, f: LoopFrame, checked: bool, pending: set<Label>)
    requires Closing(e, e', f, checked, pending)
    ensures FixedOk(e', checked) && Available(e'.cert, e'.head, e'.cur, |e'.blocks[e'.cur]|)
  {
    CloseTables(e, e', f, checked, pending);
    ClosePhis(e, e', f, ENDBB);
    if checked {
      ClosePhis(e, e', f, ABERRORBB);
    }
    hide Certified, OpenBlocks, DomsOk, LoopPending, StartsWithPhi;
    assert |e'.blocks[ENTRYBB]| >= |e.blocks[ENTRYBB]|;
  }

  lemma {:induction false} CloseSound(e: Em, f: LoopFrame, open: nat, end: nat, checked: bool, pending: set<Label>)
    requires Sound(e, checked, pending) && LoopPending(e, f) && f.testbb in pending
    ensures var e' := Closed(e, f, open, end);
            && Sound(e', checked, pending - {f.testbb})
            && GraphGrows(e.blocks, e'.blocks) && TablesGrow(e.cert, e'.cert)
            && e'.cur < |e'.cert.doms| && e.cert.doms[f.testbb] <= e'.cert.doms[e'.cur]
  {
    hide Closed, Certified, OpenBlocks, FixedOk, Available, GraphGrows, TablesGrow, DomsOk;
    var e' := Closed(e, f, open, end);
    CertifiedDoms(e.blocks, e.cert);
    CloseShape(e, f, open, end);
    CloseTables(e, e', f, checked, pending);
    CloseGraph(e, e', f, checked, pending);
    CloseCertified(e, e', f, checked, pending);
    CloseBlocks(e, e', f, checked, pending);
    CloseFixed(e, e', f, checked, pending);
  }
}
