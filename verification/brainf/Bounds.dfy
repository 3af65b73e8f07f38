/** Array-bounds checks: what they catch, and that they change nothing else. */
module BrainFBounds {
  import opened BrainFSource
  import opened BrainFIr
  import opened BrainFEmitter
  import opened BrainFReferenceRuns
  import opened BrainFWellFormedEmit
  import opened BrainFLinks
  import opened BrainFBrackets
  import opened BrainFSimulation
  import opened BrainFPreservation
  import R = BrainFReference

  /** The command the unchecked machine executes next is the last of a maximal run of moves
      and takes the head off the tape. */
  ghost predicate LeavesTape(src: string, input: seq<Byte>, m: R.Machine) {
    && m.status.Running? && m.status.pc < |src|
    && SymbolOf(src[m.status.pc]) == Move && R.MoveRunEnds(src, m.status.pc + 1)
    && !R.OnTape(R.Step(src, false, input, m))
  }

  /** A checked step is an unchecked step, except where the tape is left. */
  lemma CheckedStep(src: string, input: seq<Byte>, m: R.Machine)
    ensures var plain := R.Step(src, false, input, m);
            R.Step(src, true, input, m) ==
            if LeavesTape(src, input, m) then plain.(log := plain.log + [Line(ERROR_TEXT)], status := R.OffTape)
            else plain
  {
  }

  /** The checked machine agrees with the unchecked one up to the first time the tape is
      left at the end of a run, and stops with the error right there. */
  lemma {:induction false} CheckedTracks(src: string, input: seq<Byte>, m: R.Machine, k: nat, n: nat)
    requires forall l: nat :: l < k ==> !LeavesTape(src, input, R.Run(src, false, input, m, l))
    ensures n <= k ==> R.Run(src, true, input, m, n) == R.Run(src, false, input, m, n)
    ensures n > k && LeavesTape(src, input, R.Run(src, false, input, m, k)) ==>
              var last := R.Run(src, false, input, m, k + 1);
              R.Run(src, true, input, m, n) == last.(log := last.log + [Line(ERROR_TEXT)], status := R.OffTape)
    decreases n
  {
    hide LeavesTape, R.Step;
    CheckedStep(src, input, m);
    var m1 := R.Step(src, false, input, m);
    assert R.Run(src, false, input, m, 0) == m && R.Run(src, false, input, m, 1) == R.Run(src, false, input, m1, 0);
    if n > 0 && k > 0 {
      assert !LeavesTape(src, input, R.Run(src, false, input, m, 0));
      forall l: nat | l < k - 1
        ensures !LeavesTape(src, input, R.Run(src, false, input, m1, l))
      {
        assert R.Run(src, false, input, m, l + 1) == R.Run(src, false, input, m1, l);
      }
      CheckedTracks(src, input, m1, k - 1, n - 1);
      assert R.Run(src, false, input, m, k) == R.Run(src, false, input, m1, k - 1);
      assert R.Run(src, false, input, m, k + 1) == R.Run(src, false, input, m1, k);
    } else if n > 0 && LeavesTape(src, input, m) {
      RefRunStopped(src, true, input, R.Step(src, true, input, m), n - 1);
    }
  }

  /** The first of the moments at which the tape is left. */
  lemma {:induction false} FirstLeaving(src: string, input: seq<Byte>, m: R.Machine, k: nat)
    returns (first: nat)
    requires LeavesTape(src, input, R.Run(src, false, input, m, k))
    ensures first <= k && LeavesTape(src, input, R.Run(src, false, input, m, first))
    ensures forall l: nat :: l < first ==> !LeavesTape(src, input, R.Run(src, false, input, m, l))
  {
    hide LeavesTape, R.Run;
    first := 0;
    while !LeavesTape(src, input, R.Run(src, false, input, m, first))
      invariant first <= k
      invariant forall l: nat :: l < first ==> !LeavesTape(src, input, R.Run(src, false, input, m, l))
      decreases k - first
    {
      first := first + 1;
    }
  }

  // ----- The error block -----

  ghost predicate AtErrorBlock(cfg: Config) {
    cfg.loc.At? && cfg.loc.block == ABERRORBB && cfg.loc.pc == 0
  }

  /** A line of text appears in the output only by executing `puts`. */
  lemma {:induction false} WhoPrints(g: seq<Block>, env: Env, c: Config, n: nat, text: string)
    returns (j: nat)
    requires Line(text) in Run(g, env, c, n).log && Line(text) !in c.log
    ensures j < n
    ensures var l := Run(g, env, c, j).loc;
            l.At? && l.block < |g| && l.pc < |g[l.block]| && g[l.block][l.pc].Puts?
    decreases n
  {
    if c.loc.At? && c.loc.block < |g| && c.loc.pc < |g[c.loc.block]| && g[c.loc.block][c.loc.pc].Puts? {
      j := 0;
    } else {
      j := WhoPrints(g, env, Step(g, env, c), n - 1, text);
      j := j + 1;
    }
  }

  lemma ErrorBlockPrints(src: string, memtotal: nat, env: Env, j: nat)
    requires Setting(src, true, memtotal, env) && AtErrorBlock(GraphAfter(src, true, memtotal, env, j))
    ensures Line(ERROR_TEXT) in GraphAfter(src, true, memtotal, env, j + 1).log
  {
    hide Compile, Run, Step, Exec, Implements, LoopsMatch, ShortRuns;
    var g := GraphOf(src, true, memtotal);
    var cfg := GraphAfter(src, true, memtotal, env, j);
    CompileCompiles(src, true, memtotal);
    OneMore(g, env, INITIAL_CONFIG, j);
    PutsStep(g, env, cfg);
  }

  lemma PutsStep(g: seq<Block>, env: Env, cfg: Config)
    requires AtErrorBlock(cfg) && ABERRORBB < |g| && g[ABERRORBB] != [] && g[ABERRORBB][0] == Puts(ERROR_TEXT)
    ensures Step(g, env, cfg).log == cfg.log + [Line(ERROR_TEXT)]
  {
  }

  /** The run reaches the error block exactly when the unchecked machine would leave the tape
      at the end of some maximal run of moves. */
  lemma ErrorBlockReachedIff(src: string, memtotal: nat, env: Env)
    requires Setting(src, true, memtotal, env)
    ensures (exists j: nat :: AtErrorBlock(GraphAfter(src, true, memtotal, env, j)))
            <==> (exists k: nat :: LeavesTape(src, env.input, SourceAfter(src, false, memtotal, env, k)))
  {
    hide Setting, LeavesTape, AtErrorBlock, R.Run, Run;
    if j: nat :| AtErrorBlock(GraphAfter(src, true, memtotal, env, j)) {
      var k := ErrorMeansLeaving(src, memtotal, env, j);
    }
    if k: nat :| LeavesTape(src, env.input, SourceAfter(src, false, memtotal, env, k)) {
      var j := LeavingMeansError(src, memtotal, env, k);
    }
  }

  lemma ErrorMeansLeaving(src: string, memtotal: nat, env: Env, j: nat)
    returns (k: nat)
    requires Setting(src, true, memtotal, env) && AtErrorBlock(GraphAfter(src, true, memtotal, env, j))
    ensures LeavesTape(src, env.input, SourceAfter(src, false, memtotal, env, k))
  {
    hide Compile, World, R.Run, Run, LeavesTape, AtErrorBlock;
    ErrorBlockPrints(src, memtotal, env, j);
    SameBehaviour(src, true, memtotal, env, j + 1);
    var cfg := GraphAfter(src, true, memtotal, env, j + 1);
    var i: nat :| var m := SourceAfter(src, true, memtotal, env, i); Within(cfg.log, cfg.consumed, m.log, m.consumed);
    var start := R.Start(memtotal);
    ReportsAreHonest(src, true, env.input, start, i);
    assert SourceAfter(src, true, memtotal, env, i).status == R.OffTape;
    if forall l: nat :: l < i ==> !LeavesTape(src, env.input, R.Run(src, false, env.input, start, l)) {
      CheckedTracks(src, env.input, start, i, i);
      UncheckedNeverOff(src, env.input, start, i);
      assert false;
    }
    k :| k < i && LeavesTape(src, env.input, R.Run(src, false, env.input, start, k));
  }

  lemma {:induction false} UncheckedNeverOff(src: string, input: seq<Byte>, m: R.Machine, n: nat)
    requires m.status != R.OffTape
    ensures R.Run(src, false, input, m, n).status != R.OffTape
    decreases n
  {
    if n > 0 {
      UncheckedNeverOff(src, input, R.Step(src, false, input, m), n - 1);
    }
  }

  lemma LeavingMeansError(src: string, memtotal: nat, env: Env, k: nat)
    returns (j: nat)
    requires Setting(src, true, memtotal, env)
    requires LeavesTape(src, env.input, SourceAfter(src, false, memtotal, env, k))
    ensures AtErrorBlock(GraphAfter(src, true, memtotal, env, j))
  {
    hide Compile, World, R.Run, Run, LeavesTape, Implements, LoopsMatch;
    var start := R.Start(memtotal);
    var first := FirstLeaving(src, env.input, start, k);
    CheckedTracks(src, env.input, start, first, first + 1);
    var stop := GraphStops(src, true, memtotal, env, first + 1);
    var g := GraphOf(src, true, memtotal);
    CompileCompiles(src, true, memtotal);
    CompileWellFormed(src, true, memtotal);
    assert Line(ERROR_TEXT) in GraphAfter(src, true, memtotal, env, stop).log by {
      var m := SourceAfter(src, true, memtotal, env, first + 1);
      assert m.log[|m.log| - 1] == Line(ERROR_TEXT);
    }
    j := WhoPrints(g, env, INITIAL_CONFIG, stop, ERROR_TEXT);
  }
}
