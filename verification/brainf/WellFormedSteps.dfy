/** Each emission step keeps the graph certified. */
module BrainFWellFormedSteps {
  import opened BrainFSource
  import opened BrainFIr
  import opened BrainFEmitter
  import opened BrainFWellFormed
  import opened Wrappers

  ghost predicate NoTerminator(b: Block) {
    forall k :: 0 <= k < |b| ==> !IsTerminator(b[k])
  }

  /** Blocks in `open` still lack their terminator; all others are finished. */
  ghost predicate OpenBlocks(g: seq<Block>, open: set<Label>) {
    forall l :: 0 <= l < |g| ==> if l in open then NoTerminator(g[l]) else OneTerminator(g[l])
  }

  /** Blocks gain successors, phis gain entries, and no block starts with a phi late. */
  ghost predicate GraphGrows(g: seq<Block>, g': seq<Block>) {
    |g| <= |g'| && forall t :: 0 <= t < |g| ==> BlockGrows(g, g', t)
  }

  ghost predicate BlockGrows(g: seq<Block>, g': seq<Block>, t: Label)
    requires t < |g| <= |g'|
  {
    && (StartsWithPhi(g', t) ==> StartsWithPhi(g, t))
    && Labels(EntriesOf(g, t)) <= Labels(EntriesOf(g', t))
    && Successors(g[t]) <= Successors(g'[t])
  }

  ghost predicate TablesGrow(c: Cert, c': Cert) {
    c.defs <= c'.defs && c.doms <= c'.doms
  }

  lemma GrowsTrans(e0: Em, e1: Em, e2: Em)
    requires GraphGrows(e0.blocks, e1.blocks) && GraphGrows(e1.blocks, e2.blocks)
    requires TablesGrow(e0.cert, e1.cert) && TablesGrow(e1.cert, e2.cert)
    ensures GraphGrows(e0.blocks, e2.blocks) && TablesGrow(e0.cert, e2.cert)
  {
    forall t | 0 <= t < |e0.blocks|
      ensures BlockGrows(e0.blocks, e2.blocks, t)
    {
      assert BlockGrows(e0.blocks, e1.blocks, t) && BlockGrows(e1.blocks, e2.blocks, t);
    }
  }

  lemma InstrStays(g: seq<Block>, g': seq<Block>, c: Cert, c': Cert, l: Label, k: nat, i: Instr)
    requires InstrOk(g, c, l, k, i) && GraphGrows(g, g') && TablesGrow(c, c') && |c.doms| == |g| && |c'.doms| == |g'|
    ensures InstrOk(g', c', l, k, i)
  {
    forall t | t in Targets(i)
      ensures TargetOk(g', c', l, t)
    {
      assert TargetOk(g, c, l, t) && BlockGrows(g, g', t);
      assert c'.doms[t] == c.doms[t] && c'.doms[l] == c.doms[l];
    }
    if i.Phi? {
      forall j | 0 <= j < |i.incoming|
        ensures EntryOk(g', c', l, i.incoming[j])
      {
        assert EntryOk(g, c, l, i.incoming[j]) && BlockGrows(g, g', i.incoming[j].1);
        assert c'.doms[i.incoming[j].1] == c.doms[i.incoming[j].1];
      }
    }
  }

  /** The instruction at (l, k) of g' is an old one, or it is certified as it stands. */
  ghost predicate OldOrOk(g: seq<Block>, g': seq<Block>, c': Cert, l: Label, k: nat)
    requires l < |g'| && k < |g'[l]|
  {
    (l < |g| && k < |g[l]| && g'[l][k] == g[l][k]) || InstrOk(g', c', l, k, g'[l][k])
  }

  ghost predicate DstKeeps(g: seq<Block>, g': seq<Block>) {
    |g| <= |g'| && forall l :: 0 <= l < |g| ==>
      |g[l]| <= |g'[l]| && forall k :: 0 <= k < |g[l]| ==> Dst(g'[l][k]) == Dst(g[l][k])
  }

  lemma GrowCertified(g: seq<Block>, g': seq<Block>, c: Cert, c': Cert)
    requires Certified(g, c) && GraphGrows(g, g') && TablesGrow(c, c') && DomsOk(g', c') && DstKeeps(g, g')
    requires forall r :: |c.defs| <= r < |c'.defs| ==> DefinedAt(g', r, c'.defs[r].block, c'.defs[r].pc)
    requires forall l, k :: 0 <= l < |g'| && 0 <= k < |g'[l]| ==> OldOrOk(g, g', c', l, k)
    ensures Certified(g', c')
  {
    forall l, k | 0 <= l < |g'| && 0 <= k < |g'[l]|
      ensures InstrOk(g', c', l, k, g'[l][k])
    {
      assert OldOrOk(g, g', c', l, k);
      if l < |g| && k < |g[l]| && g'[l][k] == g[l][k] {
        InstrStays(g, g', c, c', l, k, g[l][k]);
      }
    }
    forall r | 0 <= r < |c'.defs|
      ensures DefinedAt(g', r, c'.defs[r].block, c'.defs[r].pc)
    {
      if r < |c.defs| {
        assert c'.defs[r] == c.defs[r] && DefinedAt(g, r, c.defs[r].block, c.defs[r].pc);
      }
    }
  }

  // ----- The emitter's state between tokens -----

  /** The fixed registers and blocks are where the header put them. */
  ghost predicate FixedOk(e: Em, checked: bool) {
    && |e.blocks| == |e.cert.doms| && |e.blocks| > (if checked then ABERRORBB else ENDBB)
    && ARR < |e.cert.defs| && e.cert.defs[ARR] == Site(ENTRYBB, 0)
    && e.cert.doms[ENDBB] == {ENTRYBB, ENDBB} && !StartsWithPhi(e.blocks, ENDBB)
    && |e.blocks[ENTRYBB]| > 2
    && (checked ==>
          && ARRMAX < |e.cert.defs| && e.cert.defs[ARRMAX] == Site(ENTRYBB, 2) && |e.blocks[ENTRYBB]| > 3
          && e.cert.doms[ABERRORBB] == {ENTRYBB, ABERRORBB} && !StartsWithPhi(e.blocks, ABERRORBB))
  }

  /** The graph is certified so far; the current block and the pending test blocks are open. */
  ghost predicate Sound(e: Em, checked: bool, pending: set<Label>) {
    && Certified(e.blocks, e.cert) && FixedOk(e, checked)
    && e.cur < |e.blocks| && e.cur !in pending && (forall l :: l in pending ==> l < |e.blocks|)
    && OpenBlocks(e.blocks, pending + {e.cur})
    && |e.cert.defs| == e.next
    && Available(e.cert, e.head, e.cur, |e.blocks[e.cur]|)
  }

  /** `e'` is `e` with `code` appended to the current block and `more` fresh blocks. */
  ghost predicate Extends(e: Em, e': Em, code: seq<Instr>, more: seq<Block>) {
    && e.cur < |e.blocks|
    && e'.blocks == e.blocks[e.cur := e.blocks[e.cur] + code] + more
    && code != [] && forall k :: 0 <= k < |code| ==> !code[k].Phi?
  }

  lemma ExtendsGrows(e: Em, e': Em, code: seq<Instr>, more: seq<Block>)
    requires Extends(e, e', code, more) && NoTerminator(e.blocks[e.cur])
    ensures GraphGrows(e.blocks, e'.blocks) && DstKeeps(e.blocks, e'.blocks)
  {
    var g, g' := e.blocks, e'.blocks;
    assert |g'| == |g| + |more|;
    assert forall l :: 0 <= l < |g| && l != e.cur ==> g'[l] == g[l];
    assert g'[e.cur] == g[e.cur] + code;
    assert Successors(g[e.cur]) == {} by {
      if g[e.cur] != [] {
        assert !IsTerminator(g[e.cur][|g[e.cur]| - 1]);
      }
    }
    forall t | 0 <= t < |g|
      ensures BlockGrows(g, g', t)
    {
      if t == e.cur && g[t] != [] {
        assert g'[t][0] == g[t][0];
      }
    }
  }

  /** The certificate of an extension: check the new instructions, definitions and blocks. */
  lemma ExtendsCertified(e: Em, e': Em, code: seq<Instr>, more: seq<Block>)
    requires Certified(e.blocks, e.cert) && Extends(e, e', code, more) && NoTerminator(e.blocks[e.cur])
    requires TablesGrow(e.cert, e'.cert) && DomsOk(e'.blocks, e'.cert)
    requires forall r :: |e.cert.defs| <= r < |e'.cert.defs| ==>
               DefinedAt(e'.blocks, r, e'.cert.defs[r].block, e'.cert.defs[r].pc)
    requires forall k :: 0 <= k < |code| ==> InstrOk(e'.blocks, e'.cert, e.cur, |e.blocks[e.cur]| + k, code[k])
    requires forall l, k :: 0 <= l < |more| && 0 <= k < |more[l]| ==>
               InstrOk(e'.blocks, e'.cert, |e.blocks| + l, k, more[l][k])
    ensures Certified(e'.blocks, e'.cert) && GraphGrows(e.blocks, e'.blocks)
  {
    var g, g', n := e.blocks, e'.blocks, |e.blocks[e.cur]|;
    ExtendsGrows(e, e', code, more);
    forall l, k | 0 <= l < |g'| && 0 <= k < |g'[l]|
      ensures OldOrOk(g, g', e'.cert, l, k)
    {
      if l >= |g| {
        assert g'[l] == more[l - |g|];
        assert InstrOk(g', e'.cert, |g| + (l - |g|), k, more[l - |g|][k]);
      } else if l == e.cur && k >= n {
        assert g'[l][k] == code[k - n];
        assert InstrOk(g', e'.cert, e.cur, n + (k - n), code[k - n]);
      }
    }
    GrowCertified(g, g', e.cert, e'.cert);
  }

  lemma AvailableStays(c: Cert, c': Cert, r: Reg, l: Label, k: nat, k': nat)
    requires Available(c, r, l, k) && TablesGrow(c, c') && k <= k'
    ensures Available(c', r, l, k')
  {
    assert c'.defs[r] == c.defs[r] && c'.doms[l] == c.doms[l];
  }

  /** What every step keeps besides soundness. */
  ghost predicate Onward(e: Em, e': Em) {
    && GraphGrows(e.blocks, e'.blocks) && TablesGrow(e.cert, e'.cert)
    && e.cur < |e.cert.doms| && e'.cur < |e'.cert.doms| && e.cert.doms[e.cur] <= e'.cert.doms[e'.cur]
  }

  // ----- Straight-line code -----

  /** `e'` is `e` with straight-line `code` whose first `m` instructions define the next registers. */
  ghost predicate Straight(e: Em, e': Em, code: seq<Instr>, m: nat) {
    && Extends(e, e', code, []) && m <= |code|
    && e'.cur == e.cur && e'.next == e.next + m
    && e'.cert.doms == e.cert.doms && e'.cert.defs == e.cert.defs + SitesHere(e, m)
    && (forall k :: 0 <= k < |code| ==> !IsTerminator(code[k]))
    && (forall k :: 0 <= k < m ==> Dst(code[k]) == Some(e.next + k))
  }

  lemma {:induction false} StraightSound(e: Em, e': Em, checked: bool, pending: set<Label>, code: seq<Instr>, m: nat)
    requires Sound(e, checked, pending) && Straight(e, e', code, m)
    requires forall k :: 0 <= k < |code| ==> InstrOk(e'.blocks, e'.cert, e.cur, |e.blocks[e.cur]| + k, code[k])
    requires Available(e'.cert, e'.head, e.cur, |e.blocks[e.cur]| + |code|)
    ensures Sound(e', checked, pending) && Onward(e, e')
  {
    var n := |e.blocks[e.cur]|;
    assert e'.blocks[e.cur] == e.blocks[e.cur] + code;
    forall r | |e.cert.defs| <= r < |e'.cert.defs|
      ensures DefinedAt(e'.blocks, r, e'.cert.defs[r].block, e'.cert.defs[r].pc)
    {
      var k := r - |e.cert.defs|;
      assert e'.cert.defs[r] == Site(e.cur, n + k);
      assert e'.blocks[e.cur][n + k] == code[k];
    }
    ExtendsCertified(e, e', code, []);
    StraightKeeps(e, e', checked, pending, code, m);
  }

  lemma StraightKeeps(e: Em, e': Em, checked: bool, pending: set<Label>, code: seq<Instr>, m: nat)
    requires Sound(e, checked, pending) && Straight(e, e', code, m)
    ensures FixedOk(e', checked) && OpenBlocks(e'.blocks, pending + {e.cur})
  {
    assert e'.blocks[e.cur] == e.blocks[e.cur] + code;
    assert forall l :: 0 <= l < |e.blocks| && l != e.cur ==> e'.blocks[l] == e.blocks[l];
  }

  /** The register defined by the `k`-th instruction is available to later ones. */
  lemma StraightAvailable(e: Em, e': Em, checked: bool, pending: set<Label>, code: seq<Instr>, m: nat, k: nat, l: nat)
    requires Sound(e, checked, pending) && Straight(e, e', code, m) && k < m && k < l
    ensures e'.cert.defs[e.next + k] == Site(e.cur, |e.blocks[e.cur]| + k)
    ensures Available(e'.cert, e.next + k, e.cur, |e.blocks[e.cur]| + l)
  {
  }

  /** A register available before the code is available throughout. */
  lemma StraightOld(e: Em, e': Em, checked: bool, pending: set<Label>, code: seq<Instr>, m: nat, r: Reg, k: nat)
    requires Sound(e, checked, pending) && Straight(e, e', code, m) && Available(e.cert, r, e.cur, |e.blocks[e.cur]|)
    ensures Available(e'.cert, r, e.cur, |e.blocks[e.cur]| + k)
  {
    AvailableStays(e.cert, e'.cert, r, e.cur, |e.blocks[e.cur]|, |e.blocks[e.cur]| + k);
  }

  /** An instruction that is no branch and no phi needs its operands and its definition. */
  lemma SimpleOk(g: seq<Block>, c: Cert, l: Label, k: nat, i: Instr)
    requires !IsTerminator(i) && !i.Phi? && !i.Puts?
    requires Dst(i).Some? ==> Dst(i).value < |c.defs| && c.defs[Dst(i).value] == Site(l, k)
    requires forall r :: r in Uses(i) ==> Available(c, r, l, k)
    ensures InstrOk(g, c, l, k, i)
  {
  }

  ghost predicate Simple(i: Instr, d: Option<Reg>, uses: set<Reg>) {
    !IsTerminator(i) && !i.Phi? && !i.Puts? && Dst(i) == d && Uses(i) <= uses
  }

  /** Three instructions: one defines a register, the next converts it, the last consumes it. */
  lemma {:induction false} ThreeSound(e: Em, e': Em, checked: bool, pending: set<Label>, i0: Instr, i1: Instr,
                                      i2: Instr)
    requires Sound(e, checked, pending)
    requires e'.blocks == e.blocks[e.cur := e.blocks[e.cur] + [i0, i1, i2]]
    requires e'.cur == e.cur && e'.head == e.head && e'.next == e.next + 2
    requires e'.cert.doms == e.cert.doms && e'.cert.defs == e.cert.defs + SitesHere(e, 2)
    requires Simple(i0, Some(e.next), {e.head}) && Simple(i1, Some(e.next + 1), {e.next})
    requires Simple(i2, None, {e.next + 1, e.head})
    ensures Sound(e', checked, pending) && Onward(e, e')
  {
    hide Onward, InstrOk, Available, Certified, FixedOk, OpenBlocks;
    var code, n := [i0, i1, i2], |e.blocks[e.cur]|;
    assert Straight(e, e', code, 2);
    StraightAvailable(e, e', checked, pending, code, 2, 0, 1);
    StraightAvailable(e, e', checked, pending, code, 2, 1, 2);
    StraightOld(e, e', checked, pending, code, 2, e.head, 0);
    StraightOld(e, e', checked, pending, code, 2, e.head, 2);
    StraightOld(e, e', checked, pending, code, 2, e.head, 3);
    SimpleOk(e'.blocks, e'.cert, e.cur, n, i0);
    SimpleOk(e'.blocks, e'.cert, e.cur, n + 1, i1);
    SimpleOk(e'.blocks, e'.cert, e.cur, n + 2, i2);
    StraightSound(e, e', checked, pending, code, 2);
  }

  lemma PlainShape(e: Em, checked: bool, t: Token)
    requires e.cur < |e.blocks| && t.sym in {Read, Write, Change}
    ensures var e' := Plain(e, checked, t);
            var code := if t.sym == Read then ReadCode(e.next, e.head)
                        else if t.sym == Write then WriteCode(e.next, e.head)
                        else ChangeCode(e.next, e.head, t.value);
            && e'.blocks == e.blocks[e.cur := e.blocks[e.cur] + code]
            && e'.cur == e.cur && e'.head == e.head && e'.next == e.next + 2
            && e'.cert.doms == e.cert.doms && e'.cert.defs == e.cert.defs + SitesHere(e, 2)
  {
  }

  lemma {:induction false} CellSound(e: Em, checked: bool, pending: set<Label>, t: Token)
    requires Sound(e, checked, pending) && t.sym in {Read, Write, Change}
    ensures Sound(Plain(e, checked, t), checked, pending) && Onward(e, Plain(e, checked, t))
  {
    hide Plain, Onward, Certified, FixedOk, OpenBlocks, Available;
    var e', r, h := Plain(e, checked, t), e.next, e.head;
    PlainShape(e, checked, t);
    if t.sym == Read {
      ThreeSound(e, e', checked, pending, GetChar(r), Trunc(r + 1, r), Store(r + 1, h));
    } else if t.sym == Write {
      ThreeSound(e, e', checked, pending, Load(r, h), SExt(r + 1, r), PutChar(r + 1));
    } else {
      ThreeSound(e, e', checked, pending, Load(r, h), AddI8(r + 1, r, Low8(t.value)), Store(r + 1, h));
    }
  }

  lemma {:induction false} MoveSound(e: Em, pending: set<Label>, t: Token)
    requires Sound(e, false, pending) && t.sym == Move
    ensures Sound(Plain(e, false, t), false, pending) && Onward(e, Plain(e, false, t))
  {
    hide Plain, Onward, Certified, FixedOk, OpenBlocks, Available, InstrOk;
    var e', r, h, n := Plain(e, false, t), e.next, e.head, |e.blocks[e.cur]|;
    var i := Gep(r, h, Low32(t.value));
    MoveShape(e, t);
    StraightAvailable(e, e', false, pending, [i], 1, 0, 1);
    StraightOld(e, e', false, pending, [i], 1, h, 0);
    SimpleOk(e'.blocks, e'.cert, e.cur, n, i);
    StraightSound(e, e', false, pending, [i], 1);
  }

  lemma MoveShape(e: Em, t: Token)
    requires e.cur < |e.blocks| && t.sym == Move
    ensures var e' := Plain(e, false, t);
            Straight(e, e', [Gep(e.next, e.head, Low32(t.value))], 1) && e'.head == e.next
  {
  }

  // ----- Code that ends the current block -----

  /** `code` ends in its only terminator. */
  ghost predicate EndsBlock(code: seq<Instr>) {
    code != [] && IsTerminator(code[|code| - 1]) && NoTerminator(code[..|code| - 1])
  }

  lemma BranchSeals(e: Em, e': Em, checked: bool, pending: set<Label>, code: seq<Instr>, more: seq<Block>)
    requires Sound(e, checked, pending) && Extends(e, e', code, more) && EndsBlock(code)
    ensures forall l :: 0 <= l < |e.blocks| ==>
              if l in pending then NoTerminator(e'.blocks[l]) else OneTerminator(e'.blocks[l])
    ensures |e'.blocks| == |e.blocks| + |more|
    ensures forall l :: 0 <= l < |more| ==> e'.blocks[|e.blocks| + l] == more[l]
    ensures !StartsWithPhi(e'.blocks, ENDBB) && (checked ==> !StartsWithPhi(e'.blocks, ABERRORBB))
    ensures |e'.blocks[ENTRYBB]| >= |e.blocks[ENTRYBB]|
  {
    var b := e.blocks[e.cur] + code;
    assert e'.blocks[e.cur] == b;
    assert OneTerminator(b) by {
      forall k | 0 <= k < |b| - 1
        ensures !IsTerminator(b[k])
      {
        if k >= |e.blocks[e.cur]| {
          assert b[k] == code[..|code| - 1][k - |e.blocks[e.cur]|];
        }
      }
    }
    assert forall l :: 0 <= l < |e.blocks| && l != e.cur ==> e'.blocks[l] == e.blocks[l];
  }

  /** The end and error blocks may be entered from anywhere. */
  lemma FixedTarget(e: Em, e': Em, checked: bool, pending: set<Label>)
    requires Sound(e, checked, pending) && TablesGrow(e.cert, e'.cert)
    requires |e'.blocks| == |e'.cert.doms| >= |e.cert.doms|
    requires !StartsWithPhi(e'.blocks, ENDBB) && (checked ==> !StartsWithPhi(e'.blocks, ABERRORBB))
    ensures TargetOk(e'.blocks, e'.cert, e.cur, ENDBB)
    ensures checked ==> TargetOk(e'.blocks, e'.cert, e.cur, ABERRORBB)
  {
    assert e'.cert.doms[e.cur] == e.cert.doms[e.cur];
    assert e'.cert.doms[ENDBB] == e.cert.doms[ENDBB];
    if checked {
      assert e'.cert.doms[ABERRORBB] == e.cert.doms[ABERRORBB];
    }
  }

  lemma {:induction false} EofSound(e: Em, checked: bool, pending: set<Label>)
    requires Sound(e, checked, pending)
    ensures var e' := Extend(e, [Br(ENDBB)], []);
            Certified(e'.blocks, e'.cert) && OpenBlocks(e'.blocks, pending) && Onward(e, e')
  {
    hide Extend, InstrOk, Certified;
    var e' := Extend(e, [Br(ENDBB)], []);
    EofShape(e);
    BranchSeals(e, e', checked, pending, [Br(ENDBB)], []);
    FixedTarget(e, e', checked, pending);
    CertifiedDoms(e.blocks, e.cert);
    BranchOk(e'.blocks, e'.cert, e.cur, |e.blocks[e.cur]|, ENDBB);
    hide FixedOk, TargetOk, Available;
    ExtendsCertified(e, e', [Br(ENDBB)], []);
  }

  lemma EofShape(e: Em)
    requires e.cur < |e.blocks|
    ensures var e' := Extend(e, [Br(ENDBB)], []);
            && Extends(e, e', [Br(ENDBB)], []) && e'.cur == e.cur
            && e'.cert.defs == e.cert.defs && e'.cert.doms == e.cert.doms
  {
  }

  lemma BranchOk(g: seq<Block>, c: Cert, l: Label, k: nat, t: Label)
    requires TargetOk(g, c, l, t)
    ensures InstrOk(g, c, l, k, Br(t))
  {
  }

  /** New registers are defined where the certificate says. */
  lemma NewDefs(e: Em, e': Em, code: seq<Instr>, more: seq<Block>, m: nat)
    requires Extends(e, e', code, more) && m <= |code| && |e.cert.defs| == e.next
    requires e'.cert.defs == e.cert.defs + SitesHere(e, m)
    requires forall k :: 0 <= k < m ==> Dst(code[k]) == Some(e.next + k)
    ensures forall r :: e.next <= r < e.next + m ==> e'.cert.defs[r] == Site(e.cur, |e.blocks[e.cur]| + r - e.next)
    ensures forall r :: |e.cert.defs| <= r < |e'.cert.defs| ==>
              DefinedAt(e'.blocks, r, e'.cert.defs[r].block, e'.cert.defs[r].pc)
  {
    assert e'.blocks[e.cur] == e.blocks[e.cur] + code;
    forall r | |e.cert.defs| <= r < |e'.cert.defs|
      ensures DefinedAt(e'.blocks, r, e'.cert.defs[r].block, e'.cert.defs[r].pc)
    {
      var k := r - |e.cert.defs|;
      assert e'.blocks[e.cur][|e.blocks[e.cur]| + k] == code[k];
    }
  }

  /** Checked move: what emission leaves, apart from the instructions themselves. */
  ghost predicate CheckedTo(e: Em, e': Em, value: int) {
    && e.cur < |e.cert.doms|
    && Extends(e, e', CheckedMoveCode(e.next, e.head, value, |e.blocks|), [[]])
    && e'.cur == |e.blocks| && e'.head == e.next && e'.next == e.next + 4
    && e'.cert.defs == e.cert.defs + SitesHere(e, 4)
    && e'.cert.doms == e.cert.doms + [e.cert.doms[e.cur] + {|e.blocks|}]
    && |e'.blocks| == |e.blocks| + 1 && e'.blocks[|e.blocks|] == []
  }

  lemma CheckedShape(e: Em, t: Token)
    requires e.cur < |e.blocks| == |e.cert.doms| && t.sym == Move
    ensures CheckedTo(e, Plain(e, true, t), t.value)
  {
  }

  lemma CheckedOperands(e: Em, e': Em, pending: set<Label>, value: int)
    requires Sound(e, true, pending) && CheckedTo(e, e', value)
    ensures var n := |e.blocks[e.cur]|;
            && Available(e'.cert, e.head, e.cur, n)
            && Available(e'.cert, ARR, e.cur, n + 2) && Available(e'.cert, ARRMAX, e.cur, n + 1)
            && Available(e'.cert, e.next, e.cur, n + 1) && Available(e'.cert, e.next, e.cur, n + 2)
            && Available(e'.cert, e.next + 1, e.cur, n + 3) && Available(e'.cert, e.next + 2, e.cur, n + 3)
            && Available(e'.cert, e.next + 3, e.cur, n + 4)
  {
    var n := |e.blocks[e.cur]|;
    NewDefs(e, e', CheckedMoveCode(e.next, e.head, value, |e.blocks|), [[]], 4);
    AvailableStays(e.cert, e'.cert, e.head, e.cur, n, n);
    AvailableStays(e.cert, e'.cert, ARR, e.cur, n, n + 2);
    AvailableStays(e.cert, e'.cert, ARRMAX, e.cur, n, n + 1);
  }

  lemma {:induction false} CheckedInstrs(e: Em, e': Em, pending: set<Label>, value: int)
    requires Sound(e, true, pending) && CheckedTo(e, e', value)
    requires !StartsWithPhi(e'.blocks, ABERRORBB) && !StartsWithPhi(e'.blocks, ENDBB)
    ensures var code := CheckedMoveCode(e.next, e.head, value, |e.blocks|);
            forall k :: 0 <= k < |code| ==> InstrOk(e'.blocks, e'.cert, e.cur, |e.blocks[e.cur]| + k, code[k])
  {
    var r, n := e.next, |e.blocks[e.cur]|;
    var code := CheckedMoveCode(r, e.head, value, |e.blocks|);
    CheckedOperands(e, e', pending, value);
    NewDefs(e, e', code, [[]], 4);
    FixedTarget(e, e', true, pending);
    assert TargetOk(e'.blocks, e'.cert, e.cur, |e.blocks|);
    CheckedFive(e'.blocks, e'.cert, e.cur, n, r, e.head, value, |e.blocks|);
  }

  /** The five instructions of a checked move, given their operands. */
  lemma CheckedFive(g: seq<Block>, c: Cert, l: Label, n: nat, r: Reg, h: Reg, value: int, nextbb: Label)
    requires r + 3 < |c.defs| && forall k :: r <= k < r + 4 ==> c.defs[k] == Site(l, n + k - r)
    requires Available(c, h, l, n) && Available(c, ARR, l, n + 2) && Available(c, ARRMAX, l, n + 1)
    requires Available(c, r, l, n + 1) && Available(c, r, l, n + 2)
    requires Available(c, r + 1, l, n + 3) && Available(c, r + 2, l, n + 3) && Available(c, r + 3, l, n + 4)
    requires TargetOk(g, c, l, ABERRORBB) && TargetOk(g, c, l, nextbb)
    ensures var code := CheckedMoveCode(r, h, value, nextbb);
            forall k :: 0 <= k < |code| ==> InstrOk(g, c, l, n + k, code[k])
  {
    hide Available, TargetOk;
    var code := CheckedMoveCode(r, h, value, nextbb);
    SimpleOk(g, c, l, n, code[0]);
    SimpleOk(g, c, l, n + 1, code[1]);
    SimpleOk(g, c, l, n + 2, code[2]);
    SimpleOk(g, c, l, n + 3, code[3]);
    assert InstrOk(g, c, l, n + 4, code[4]);
    hide InstrOk;
    assert code == [code[0], code[1], code[2], code[3], code[4]];
  }

  lemma {:induction false} CheckedMoveSound(e: Em, pending: set<Label>, t: Token)
    requires Sound(e, true, pending) && t.sym == Move
    ensures Sound(Plain(e, true, t), true, pending) && Onward(e, Plain(e, true, t))
  {
    hide Plain, InstrOk, Certified, CheckedMoveCode;
    var e' := Plain(e, true, t);
    var code := CheckedMoveCode(e.next, e.head, t.value, |e.blocks|);
    CheckedShape(e, t);
    CheckedEnds(e.next, e.head, t.value, |e.blocks|);
    BranchSeals(e, e', true, pending, code, [[]]);
    CheckedCertified(e, e', pending, t.value);
    CheckedKeeps(e, e', pending, t.value);
    hide OpenBlocks, FixedOk, Extends;
  }

  lemma CheckedEnds(r: Reg, h: Reg, value: int, nextbb: Label)
    ensures var code := CheckedMoveCode(r, h, value, nextbb);
            && EndsBlock(code) && |code| == 5
            && forall k :: 0 <= k < 4 ==> Dst(code[k]) == Some(r + k)
  {
  }

  lemma {:induction false} CheckedCertified(e: Em, e': Em, pending: set<Label>, value: int)
    requires Sound(e, true, pending) && CheckedTo(e, e', value)
    requires !StartsWithPhi(e'.blocks, ABERRORBB) && !StartsWithPhi(e'.blocks, ENDBB)
    ensures Certified(e'.blocks, e'.cert) && Onward(e, e')
  {
    hide InstrOk, Certified, CheckedMoveCode, EndsBlock;
    var code := CheckedMoveCode(e.next, e.head, value, |e.blocks|);
    CheckedEnds(e.next, e.head, value, |e.blocks|);
    assert DomsOk(e.blocks, e.cert) by { CertifiedDoms(e.blocks, e.cert); }
    CheckedInstrs(e, e', pending, value);
    NewDefs(e, e', code, [[]], 4);
    ExtendsCertified(e, e', code, [[]]);
  }

  lemma CertifiedDoms(g: seq<Block>, c: Cert)
    requires Certified(g, c)
    ensures DomsOk(g, c)
  {
  }

  lemma CheckedKeeps(e: Em, e': Em, pending: set<Label>, value: int)
    requires Sound(e, true, pending) && CheckedTo(e, e', value)
    requires !StartsWithPhi(e'.blocks, ABERRORBB) && !StartsWithPhi(e'.blocks, ENDBB)
    requires forall l :: 0 <= l < |e.blocks| ==>
               if l in pending then NoTerminator(e'.blocks[l]) else OneTerminator(e'.blocks[l])
    requires |e'.blocks[ENTRYBB]| >= |e.blocks[ENTRYBB]|
    ensures FixedOk(e', true) && OpenBlocks(e'.blocks, pending + {e'.cur}) && e'.cur !in pending
    ensures Available(e'.cert, e'.head, e'.cur, 0)
  {
    assert e'.cert.defs[e.next] == SitesHere(e, 4)[0];
    CertifiedDoms(e.blocks, e.cert);
  }
}
