/** What LLVM's verifier demands of a function, and a certificate that establishes it. */
module BrainFWellFormed {
  import opened BrainFIr
  import opened BrainFEmitter
  import opened Wrappers

  // ----- Well-formed functions -----

  ghost predicate OneTerminator(b: Block) {
    b != [] && IsTerminator(b[|b| - 1]) && forall k :: 0 <= k < |b| - 1 ==> !IsTerminator(b[k])
  }

  ghost predicate PhisFirst(b: Block) {
    forall k, l :: 0 <= l < k < |b| && b[k].Phi? ==> b[l].Phi?
  }

  /** Where control can go from a block. */
  function Successors(b: Block): set<Label> {
    if b == [] then {} else Targets(b[|b| - 1])
  }

  ghost predicate Edge(g: seq<Block>, l: Label, t: Label) {
    l < |g| && t in Successors(g[l])
  }

  function Labels(incoming: seq<(Reg, Label)>): (s: set<Label>) {
    set i | 0 <= i < |incoming| :: incoming[i].1
  }

  /** One entry per predecessor: no label twice, and exactly the predecessors of `t`. */
  ghost predicate PhiMatches(g: seq<Block>, t: Label, incoming: seq<(Reg, Label)>) {
    && (forall i, j :: 0 <= i < j < |incoming| ==> incoming[i].1 != incoming[j].1)
    && (forall l: Label :: Edge(g, l, t) <==> l in Labels(incoming))
  }

  /** A walk through the graph from the entry block. */
  ghost predicate IsPath(g: seq<Block>, path: seq<Label>) {
    && path != [] && path[0] == ENTRYBB && ENTRYBB < |g|
    && forall i :: 0 <= i < |path| - 1 ==> Edge(g, path[i], path[i + 1])
  }

  /** Every way into block `l` leads through block `d`. */
  ghost predicate Dominates(g: seq<Block>, d: Label, l: Label) {
    forall path :: IsPath(g, path) && path[|path| - 1] == l ==> d in path
  }

  ghost predicate DefinedAt(g: seq<Block>, r: Reg, d: Label, j: nat) {
    d < |g| && j < |g[d]| && Dst(g[d][j]) == Some(r)
  }

  /** The definition of `r` comes before instruction `k` of block `l` on every path. */
  ghost predicate DefinedBefore(g: seq<Block>, r: Reg, l: Label, k: nat) {
    exists d: Label, j: nat :: DefinedAt(g, r, d, j) && (if d == l then j < k else Dominates(g, d, l))
  }

  ghost predicate UsesOk(g: seq<Block>, l: Label, k: nat)
    requires l < |g| && k < |g[l]|
  {
    match g[l][k]
    case Phi(_, incoming) =>
      forall i :: 0 <= i < |incoming| ==>
          incoming[i].1 < |g| && DefinedBefore(g, incoming[i].0, incoming[i].1, |g[incoming[i].1]|)
    case _ => forall r :: r in Uses(g[l][k]) ==> DefinedBefore(g, r, l, k)
  }

  ghost predicate WellFormed(g: seq<Block>) {
    && ENTRYBB < |g|
    && (forall l :: 0 <= l < |g| ==> OneTerminator(g[l]) && PhisFirst(g[l]))
    && (forall l: Label, t: Label :: Edge(g, l, t) ==> t < |g| && t != ENTRYBB)
    && (forall t, k :: 0 <= t < |g| && 0 <= k < |g[t]| && g[t][k].Phi? ==> PhiMatches(g, t, g[t][k].incoming))
    && (forall r: Reg, d: Label, j: nat, d': Label, j': nat ::
          DefinedAt(g, r, d, j) && DefinedAt(g, r, d', j') ==> d == d' && j == j')
    && (forall l, k :: 0 <= l < |g| && 0 <= k < |g[l]| ==> UsesOk(g, l, k))
  }

  // ----- The certificate, instruction by instruction -----

  predicate StartsWithPhi(g: seq<Block>, t: Label) {
    t < |g| && g[t] != [] && g[t][0].Phi?
  }

  /** Register `r` has its one definition, and it is available at instruction `k` of block `l`. */
  predicate Available(c: Cert, r: Reg, l: Label, k: nat) {
    && r < |c.defs| && l < |c.doms|
    && c.defs[r].block in c.doms[l]
    && (c.defs[r].block == l ==> c.defs[r].pc < k)
  }

  /** A branch from `l` to `t`: into the graph, never to the entry, listed by a phi there, and
      with no more dominators at `t` than at `l`. */
  ghost predicate TargetOk(g: seq<Block>, c: Cert, l: Label, t: Label) {
    && t < |g| == |c.doms| && t != ENTRYBB && l < |c.doms|
    && c.doms[t] <= c.doms[l] + {t}
    && (StartsWithPhi(g, t) ==> l in Labels(EntriesOf(g, t)))
  }

  ghost predicate EntryOk(g: seq<Block>, c: Cert, l: Label, entry: (Reg, Label)) {
    && entry.1 < |g| == |c.doms| && entry.0 < |c.defs|
    && c.defs[entry.0].block in c.doms[entry.1]
    && l in Successors(g[entry.1])
  }

  ghost predicate PhiOk(g: seq<Block>, c: Cert, l: Label, incoming: seq<(Reg, Label)>) {
    && (forall i, j :: 0 <= i < j < |incoming| ==> incoming[i].1 != incoming[j].1)
    && (forall i :: 0 <= i < |incoming| ==> EntryOk(g, c, l, incoming[i]))
  }

  /** Everything about one instruction. */
  ghost predicate InstrOk(g: seq<Block>, c: Cert, l: Label, k: nat, i: Instr) {
    && (Dst(i).Some? ==> Dst(i).value < |c.defs| && c.defs[Dst(i).value] == Site(l, k))
    && (forall r :: r in Uses(i) ==> Available(c, r, l, k))
    && (forall t :: t in Targets(i) ==> TargetOk(g, c, l, t))
    && (i.Phi? ==> k == 0 && PhiOk(g, c, l, i.incoming))
    && (i.Puts? ==> l == ABERRORBB)
  }

  /** The dominator table: one set per block, with the block itself and the entry. */
  ghost predicate DomsOk(g: seq<Block>, c: Cert) {
    && |c.doms| == |g|
    && forall l :: 0 <= l < |g| ==> ENTRYBB in c.doms[l] && l in c.doms[l] && forall d :: d in c.doms[l] ==> d < |g|
  }

  ghost predicate DefsOk(g: seq<Block>, c: Cert) {
    forall r :: 0 <= r < |c.defs| ==> DefinedAt(g, r, c.defs[r].block, c.defs[r].pc)
  }

  ghost predicate Certified(g: seq<Block>, c: Cert) {
    && ENTRYBB < |g| && DomsOk(g, c) && c.doms[ENTRYBB] == {ENTRYBB} && DefsOk(g, c)
    && forall l, k :: 0 <= l < |g| && 0 <= k < |g[l]| ==> InstrOk(g, c, l, k, g[l][k])
  }

  // ----- The certificate is sound -----

  /** The recorded dominators of a block lie on every path to it. */
  lemma {:induction false} PathMeetsDoms(g: seq<Block>, c: Cert, path: seq<Label>)
    requires Certified(g, c) && IsPath(g, path)
    ensures path[|path| - 1] < |g|
    ensures forall d :: d in c.doms[path[|path| - 1]] ==> d in path
    decreases |path|
  {
    if |path| > 1 {
      var n := |path| - 1;
      var shorter := path[..n];
      assert shorter[0] == path[0];
      PathMeetsDoms(g, c, shorter);
      var l, t := path[n - 1], path[n];
      assert Edge(g, l, t);
      assert InstrOk(g, c, l, |g[l]| - 1, g[l][|g[l]| - 1]);
      assert TargetOk(g, c, l, t);
      forall d | d in c.doms[t]
        ensures d in path
      {
        if d != t {
          assert d in shorter;
        }
      }
    }
  }

  lemma DomsDominate(g: seq<Block>, c: Cert, d: Label, l: Label)
    requires Certified(g, c) && l < |g| && d in c.doms[l]
    ensures Dominates(g, d, l)
  {
    forall path | IsPath(g, path) && path[|path| - 1] == l
      ensures d in path
    {
      PathMeetsDoms(g, c, path);
    }
  }

  lemma AvailableDefined(g: seq<Block>, c: Cert, r: Reg, l: Label, k: nat)
    requires Certified(g, c) && l < |g| && Available(c, r, l, k)
    ensures DefinedBefore(g, r, l, k)
  {
    var s := c.defs[r];
    assert DefinedAt(g, r, s.block, s.pc);
    DomsDominate(g, c, s.block, l);
  }

  lemma UsesCertified(g: seq<Block>, c: Cert, l: Label, k: nat)
    requires Certified(g, c) && l < |g| && k < |g[l]|
    ensures UsesOk(g, l, k)
  {
    assert InstrOk(g, c, l, k, g[l][k]);
    if g[l][k].Phi? {
      var incoming := g[l][k].incoming;
      forall i | 0 <= i < |incoming|
        ensures incoming[i].1 < |g| && DefinedBefore(g, incoming[i].0, incoming[i].1, |g[incoming[i].1]|)
      {
        assert EntryOk(g, c, l, incoming[i]);
        var s := c.defs[incoming[i].0];
        assert DefinedAt(g, incoming[i].0, s.block, s.pc);
        AvailableDefined(g, c, incoming[i].0, incoming[i].1, |g[incoming[i].1]|);
      }
    } else {
      forall r | r in Uses(g[l][k])
        ensures DefinedBefore(g, r, l, k)
      {
        AvailableDefined(g, c, r, l, k);
      }
    }
  }

  lemma PhiCertified(g: seq<Block>, c: Cert, t: Label, k: nat)
    requires Certified(g, c) && t < |g| && k < |g[t]| && g[t][k].Phi?
    ensures PhiMatches(g, t, g[t][k].incoming)
  {
    assert InstrOk(g, c, t, k, g[t][k]);
    var incoming := g[t][k].incoming;
    forall l: Label
      ensures Edge(g, l, t) <==> l in Labels(incoming)
    {
      if Edge(g, l, t) {
        assert InstrOk(g, c, l, |g[l]| - 1, g[l][|g[l]| - 1]);
        assert TargetOk(g, c, l, t);
      }
      if l in Labels(incoming) {
        var i :| 0 <= i < |incoming| && incoming[i].1 == l;
        assert EntryOk(g, c, t, incoming[i]);
      }
    }
  }

  /** A certified graph whose blocks end in their one terminator passes the verifier. */
  lemma {:induction false} CertifiedIsWellFormed(g: seq<Block>, c: Cert)
    requires Certified(g, c) && forall l :: 0 <= l < |g| ==> OneTerminator(g[l])
    ensures WellFormed(g)
  {
    forall l | 0 <= l < |g|
      ensures PhisFirst(g[l])
    {
      forall k | 0 <= k < |g[l]|
        ensures g[l][k].Phi? ==> k == 0
      {
        assert InstrOk(g, c, l, k, g[l][k]);
      }
    }
    forall l: Label, t: Label | Edge(g, l, t)
      ensures t < |g| && t != ENTRYBB
    {
      assert InstrOk(g, c, l, |g[l]| - 1, g[l][|g[l]| - 1]);
      assert TargetOk(g, c, l, t);
    }
    forall t, k | 0 <= t < |g| && 0 <= k < |g[t]| && g[t][k].Phi?
      ensures PhiMatches(g, t, g[t][k].incoming)
    {
      PhiCertified(g, c, t, k);
    }
    forall r: Reg, d: Label, j: nat, d': Label, j': nat | DefinedAt(g, r, d, j) && DefinedAt(g, r, d', j')
      ensures d == d' && j == j'
    {
      assert InstrOk(g, c, d, j, g[d][j]) && InstrOk(g, c, d', j', g[d'][j']);
    }
    forall l, k | 0 <= l < |g| && 0 <= k < |g[l]|
      ensures UsesOk(g, l, k)
    {
      UsesCertified(g, c, l, k);
    }
  }
}
