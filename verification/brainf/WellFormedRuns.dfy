/** What passing the verifier is good for: a run of a well-formed graph walks along its edges,
    and never lacks a register, a block or a phi entry. */
module BrainFWellFormedRuns {
  import opened BrainFIr
  import opened BrainFEmitter
  import opened BrainFWellFormed
  import opened Wrappers

  /** The walk has gone through instruction `j` of block `d`. */
  predicate Passed(path: seq<Label>, pc: nat, d: Label, j: nat)
    requires path != []
  {
    d in path[..|path| - 1] || (d == path[|path| - 1] && j < pc)
  }

  /** The run has come along `path`, and has a value for every register defined on the way. */
  ghost predicate Walked(g: seq<Block>, c: Config, path: seq<Label>) {
    && c.loc.At? && IsPath(g, path) && path[|path| - 1] == c.loc.block
    && c.loc.block < |g| && c.loc.pc < |g[c.loc.block]|
    && (|path| > 1 ==> c.loc.prev == path[|path| - 2])
    && forall r: Reg, d: Label, j: nat ::
         DefinedAt(g, r, d, j) && Passed(path, c.loc.pc, d, j) ==> r in c.regs
  }

  /** What is defined before the instruction the run stands at has a value. */
  lemma DefinedHasValue(g: seq<Block>, c: Config, path: seq<Label>, r: Reg)
    requires Walked(g, c, path) && DefinedBefore(g, r, c.loc.block, c.loc.pc)
    ensures r in c.regs
  {
    var d: Label, j: nat :| DefinedAt(g, r, d, j)
      && if d == c.loc.block then j < c.loc.pc else Dominates(g, d, c.loc.block);
    if d != c.loc.block {
      assert d in path;
    }
    assert Passed(path, c.loc.pc, d, j);
  }

  lemma {:induction false} IncomingFinds(incoming: seq<(Reg, Label)>, l: Label)
    requires l in Labels(incoming)
    ensures Incoming(incoming, l).Some? && (Incoming(incoming, l).value, l) in incoming
  {
    var i :| 0 <= i < |incoming| && incoming[i].1 == l;
    if incoming[0].1 != l {
      assert incoming[1..][i - 1].1 == l;
      IncomingFinds(incoming[1..], l);
    }
  }

  /** The phi of a well-formed block has an entry for the edge taken, and its register a value. */
  lemma PhiHasValue(g: seq<Block>, c: Config, path: seq<Label>, incoming: seq<(Reg, Label)>)
    requires Walked(g, c, path) && |path| > 1 && PhiMatches(g, c.loc.block, incoming)
    requires forall i :: 0 <= i < |incoming| ==>
               incoming[i].1 < |g| && DefinedBefore(g, incoming[i].0, incoming[i].1, |g[incoming[i].1]|)
    ensures var r := Incoming(incoming, c.loc.prev); r.Some? && r.value in c.regs
  {
    var p := c.loc.prev;
    assert Edge(g, path[|path| - 2], path[|path| - 2 + 1]);
    IncomingFinds(incoming, p);
    var r := Incoming(incoming, p).value;
    var i :| 0 <= i < |incoming| && incoming[i] == (r, p);
    var d: Label, j: nat :| DefinedAt(g, r, d, j) && if d == p then j < |g[p]| else Dominates(g, d, p);
    var before := path[..|path| - 1];
    if d != p {
      assert IsPath(g, before) by {
        forall i | 0 <= i < |before| - 1 ensures Edge(g, before[i], before[i + 1]) {
          assert Edge(g, path[i], path[i + 1]);
        }
      }
    }
    assert before[|before| - 1] == p;
    assert Passed(path, c.loc.pc, d, j);
  }

  predicate PhiReady(c: Config, i: Instr)
    requires c.loc.At?
  {
    i.Phi? ==> var r := Incoming(i.incoming, c.loc.prev); r.Some? && r.value in c.regs
  }

  /** One instruction that has its operands: it gives a value to the register that it defines and
      to no other, and control goes on to the next instruction or to one of its targets. */
  lemma ExecWalks(env: Env, i: Instr, c: Config)
    requires c.loc.At? && Uses(i) <= c.regs.Keys && PhiReady(c, i) && (i.Malloc? ==> i.size == |env.garbage|)
    ensures var c' := Exec(env, i, c);
            && c'.loc != Stuck
            && (forall r :: r in c.regs && Some(r) != Dst(i) ==> r in c'.regs && c'.regs[r] == c.regs[r])
            && (c'.loc.At? && Dst(i).Some? ==> Dst(i).value in c'.regs)
            && (c'.loc.At? ==>
                  if IsTerminator(i) then c'.loc.block in Targets(i) && c'.loc == At(c.loc.block, c'.loc.block, 0)
                  else c'.loc == Next(c.loc))
  {
  }

  /** Where a run of a well-formed graph stands, it has the operands of the next instruction. */
  lemma OperandsReady(g: seq<Block>, c: Config, path: seq<Label>)
    requires WellFormed(g) && !StartsWithPhi(g, ENTRYBB) && Walked(g, c, path)
    ensures var i := g[c.loc.block][c.loc.pc]; Uses(i) <= c.regs.Keys && PhiReady(c, i)
  {
    var l, k := c.loc.block, c.loc.pc;
    var i := g[l][k];
    assert UsesOk(g, l, k);
    if i.Phi? {
      assert PhisFirst(g[l]) && g[l][0].Phi?;
      assert |path| > 1;
      PhiHasValue(g, c, path, i.incoming);
    } else {
      forall r | r in Uses(i) ensures r in c.regs {
        DefinedHasValue(g, c, path, r);
      }
    }
  }

  /** The walk after one instruction. */
  lemma WalkOn(g: seq<Block>, c: Config, path: seq<Label>, c': Config) returns (path': seq<Label>)
    requires Walked(g, c, path) && c'.loc.At? && c.regs.Keys <= c'.regs.Keys
    requires forall l :: 0 <= l < |g| ==> OneTerminator(g[l])
    requires forall l: Label, t: Label :: Edge(g, l, t) ==> t < |g|
    requires var i := g[c.loc.block][c.loc.pc];
             && (Dst(i).Some? ==> Dst(i).value in c'.regs)
             && if IsTerminator(i) then c'.loc.block in Targets(i) && c'.loc == At(c.loc.block, c'.loc.block, 0)
                else c'.loc == Next(c.loc)
    ensures Walked(g, c', path') && path <= path'
  {
    var l, k := c.loc.block, c.loc.pc;
    assert OneTerminator(g[l]);
    if IsTerminator(g[l][k]) {
      assert k == |g[l]| - 1;
      var t := c'.loc.block;
      assert Edge(g, l, t);
      path' := path + [t];
      assert path'[..|path'| - 1] == path;
      assert OneTerminator(g[t]);
      forall i | 0 <= i < |path'| - 1 ensures Edge(g, path'[i], path'[i + 1]) {
        if i < |path| - 1 {
          assert Edge(g, path[i], path[i + 1]);
        }
      }
      forall r: Reg, d: Label, j: nat | DefinedAt(g, r, d, j) && Passed(path', 0, d, j) ensures r in c'.regs {
        assert d in path;
        if d != l || j != k {
          assert Passed(path, k, d, j);
        }
      }
    } else {
      path' := path;
      forall r: Reg, d: Label, j: nat | DefinedAt(g, r, d, j) && Passed(path', k + 1, d, j) ensures r in c'.regs {
        if d != l || j != k {
          assert Passed(path, k, d, j);
        }
      }
    }
  }

  /** What passing the verifier is good for: any number of steps into the run of a well-formed
      graph, the run has come along a path of the graph's edges and has a value for every
      register defined on the way. It never lacks a register, a block or a phi entry. */
  lemma {:induction false} WellFormedRuns(g: seq<Block>, env: Env, n: nat) returns (path: seq<Label>)
    requires WellFormed(g) && !StartsWithPhi(g, ENTRYBB)
    requires forall l, k :: 0 <= l < |g| && 0 <= k < |g[l]| && g[l][k].Malloc? ==> g[l][k].size == |env.garbage|
    ensures var c := Run(g, env, INITIAL_CONFIG, n);
            c.loc != Stuck && (c.loc.At? ==> Walked(g, c, path))
  {
    if n == 0 {
      path := [ENTRYBB];
      assert OneTerminator(g[ENTRYBB]);
    } else {
      path := WellFormedRuns(g, env, n - 1);
      var c := Run(g, env, INITIAL_CONFIG, n - 1);
      RunAdd(g, env, INITIAL_CONFIG, n - 1, 1);
      assert Run(g, env, c, 1) == Run(g, env, Step(g, env, c), 0);
      if c.loc.At? {
        OperandsReady(g, c, path);
        ExecWalks(env, g[c.loc.block][c.loc.pc], c);
        if Step(g, env, c).loc.At? {
          path := WalkOn(g, c, path, Step(g, env, c));
        }
      }
    }
  }
}
