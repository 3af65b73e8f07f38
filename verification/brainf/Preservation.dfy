/** The compiler preserves meaning: the graph does what the source text says, for every
    source that compiles, every input and any number of steps. */
module BrainFPreservation {
  import opened BrainFSource
  import opened BrainFIr
  import opened BrainFEmitter
  import opened BrainFReferenceRuns
  import opened BrainFSimulation
  import R = BrainFReference

  /** The graph of a source that compiles. */
  function GraphOf(src: string, checked: bool, memtotal: nat): seq<Block> {
    var r := Compile(src, checked, memtotal);
    if r.Ok? then r.em.blocks else []
  }

  /** The source machine after `i` characters, and the graph after `j` instructions. */
  function SourceAfter(src: string, checked: bool, memtotal: nat, env: Env, i: nat): R.Machine {
    R.Run(src, checked, env.input, R.Start(memtotal), i)
  }

  function GraphAfter(src: string, checked: bool, memtotal: nat, env: Env, j: nat): Config {
    Run(GraphOf(src, checked, memtotal), env, INITIAL_CONFIG, j)
  }

  /** The setting of every theorem below. */
  ghost predicate Setting(src: string, checked: bool, memtotal: nat, env: Env) {
    Compile(src, checked, memtotal).Ok? && World(src, memtotal, env)
  }

  /** Both sides keep meeting in corresponding states, however far they run. */
  lemma MeetAgain(src: string, checked: bool, memtotal: nat, env: Env, n: nat)
    returns (i: nat, j: nat)
    requires Setting(src, checked, memtotal, env)
    ensures i >= n && j >= n
    ensures Related(Compile(src, checked, memtotal).em.cert, env, checked, memtotal,
                    SourceAfter(src, checked, memtotal, env, i), GraphAfter(src, checked, memtotal, env, j))
  {
    hide Compile, Compiled, Synced, Stopped, World, R.Run, Run, R.Step, Step;
    var g := GraphOf(src, checked, memtotal);
    var c := Compile(src, checked, memtotal).em.cert;
    CompileCompiles(src, checked, memtotal);
    EntryRuns(g, src, checked, memtotal, c, env);
    var cfg := Run(g, env, INITIAL_CONFIG, EntrySteps(checked));
    var i1, j1 := RelatedFar(g, src, checked, memtotal, c, env, R.Start(memtotal), cfg, n);
    RunAdd(g, env, INITIAL_CONFIG, EntrySteps(checked), j1);
    i, j := i1, EntrySteps(checked) + j1;
  }

  // ----- Ends of runs -----

  /** Same tape, input and log, and the same cause of stopping: the end of the program, the head
      off the tape under checks (the error line says so), or an access off the tape. */
  ghost predicate EndsAlike(m: R.Machine, cfg: Config) {
    && Alike(m, cfg)
    && (m.status == R.Done || m.status == R.OffTape <==> cfg.loc == Returned)
    && (m.status == R.OffTape <==> Line(ERROR_TEXT) in cfg.log)
    && (m.status == R.Fault <==> cfg.loc == Faulted)
    && (cfg.loc == Returned ==> !cfg.live)
  }

  lemma RelatedEnds(c: Cert, env: Env, checked: bool, memtotal: nat, m: R.Machine, cfg: Config)
    requires Related(c, env, checked, memtotal, m, cfg) && (!m.status.Running? || !cfg.loc.At?) && Honest(m)
    ensures EndsAlike(m, cfg) && !m.status.Running? && !cfg.loc.At? && (checked ==> m.status != R.Fault)
  {
  }

  lemma SourceHonest(src: string, checked: bool, memtotal: nat, env: Env, i: nat)
    ensures Honest(SourceAfter(src, checked, memtotal, env, i))
  {
    ReportsAreHonest(src, checked, env.input, R.Start(memtotal), i);
  }

  /** If the source machine stops, so does the graph, with the same tape, input, output and cause. */
  lemma GraphStops(src: string, checked: bool, memtotal: nat, env: Env, i: nat)
    returns (j: nat)
    requires Setting(src, checked, memtotal, env)
    requires !SourceAfter(src, checked, memtotal, env, i).status.Running?
    ensures EndsAlike(SourceAfter(src, checked, memtotal, env, i), GraphAfter(src, checked, memtotal, env, j))
    ensures !GraphAfter(src, checked, memtotal, env, j).loc.At?
  {
    hide Compile, World, R.Run, Run, Related, EndsAlike, R.Step, Step, Honest;
    var i', j' := MeetAgain(src, checked, memtotal, env, i);
    j := j';
    var m := SourceAfter(src, checked, memtotal, env, i);
    RefRunAdd(src, checked, env.input, R.Start(memtotal), i, i' - i);
    RefRunStopped(src, checked, env.input, m, i' - i);
    SourceHonest(src, checked, memtotal, env, i);
    RelatedEnds(Compile(src, checked, memtotal).em.cert, env, checked, memtotal, m,
                GraphAfter(src, checked, memtotal, env, j));
  }

  /** If the graph stops, so does the source machine, in the same way. */
  lemma SourceStops(src: string, checked: bool, memtotal: nat, env: Env, j: nat)
    returns (i: nat)
    requires Setting(src, checked, memtotal, env)
    requires !GraphAfter(src, checked, memtotal, env, j).loc.At?
    ensures EndsAlike(SourceAfter(src, checked, memtotal, env, i), GraphAfter(src, checked, memtotal, env, j))
    ensures !SourceAfter(src, checked, memtotal, env, i).status.Running?
    ensures checked ==> SourceAfter(src, checked, memtotal, env, i).status != R.Fault
  {
    hide Compile, World, R.Run, Run, Related, EndsAlike, R.Step, Step, Honest;
    var i', j' := MeetAgain(src, checked, memtotal, env, j);
    i := i';
    var g := GraphOf(src, checked, memtotal);
    var cfg := GraphAfter(src, checked, memtotal, env, j);
    RunAdd(g, env, INITIAL_CONFIG, j, j' - j);
    RunStopped(g, env, cfg, j' - j);
    SourceHonest(src, checked, memtotal, env, i);
    RelatedEnds(Compile(src, checked, memtotal).em.cert, env, checked, memtotal,
                SourceAfter(src, checked, memtotal, env, i), cfg);
  }

  // ----- Reads and writes along the way -----

  lemma {:induction false} GraphGrows(g: seq<Block>, env: Env, c: Config, n: nat)
    ensures c.log <= Run(g, env, c, n).log && c.consumed <= Run(g, env, c, n).consumed
    decreases n
  {
    if n > 0 {
      GraphGrows(g, env, Step(g, env, c), n - 1);
    }
  }

  lemma {:induction false} SourceGrows(src: string, checked: bool, input: seq<Byte>, m: R.Machine, n: nat)
    ensures m.log <= R.Run(src, checked, input, m, n).log && m.consumed <= R.Run(src, checked, input, m, n).consumed
    decreases n
  {
    if n > 0 {
      SourceGrows(src, checked, input, R.Step(src, checked, input, m), n - 1);
    }
  }

  /** The first log and input position lead up to the second ones. */
  ghost predicate Within(log: seq<Event>, consumed: nat, log': seq<Event>, consumed': nat) {
    log <= log' && consumed <= consumed'
  }

  lemma RelatedAlike(c: Cert, env: Env, checked: bool, memtotal: nat, m: R.Machine, cfg: Config)
    requires Related(c, env, checked, memtotal, m, cfg)
    ensures Alike(m, cfg) && cfg.loc != Stuck && (checked ==> cfg.loc != Faulted)
  {
  }

  /** Whatever the graph has read and written up to any step, the source machine reads and
      writes too, in the same order, and the other way round. This covers programs that never
      stop. */
  lemma SameBehaviour(src: string, checked: bool, memtotal: nat, env: Env, n: nat)
    requires Setting(src, checked, memtotal, env)
    ensures exists i ::
              var m := SourceAfter(src, checked, memtotal, env, i);
              var cfg := GraphAfter(src, checked, memtotal, env, n);
              Within(cfg.log, cfg.consumed, m.log, m.consumed)
    ensures exists j ::
              var m := SourceAfter(src, checked, memtotal, env, n);
              var cfg := GraphAfter(src, checked, memtotal, env, j);
              Within(m.log, m.consumed, cfg.log, cfg.consumed)
  {
    hide Compile, World, R.Run, Run, Related, R.Step, Step;
    var i, j := MeetAgain(src, checked, memtotal, env, n);
    var g := GraphOf(src, checked, memtotal);
    var m, cfg := SourceAfter(src, checked, memtotal, env, n), GraphAfter(src, checked, memtotal, env, n);
    var m', cfg' := SourceAfter(src, checked, memtotal, env, i), GraphAfter(src, checked, memtotal, env, j);
    RefRunAdd(src, checked, env.input, R.Start(memtotal), n, i - n);
    SourceGrows(src, checked, env.input, m, i - n);
    RunAdd(g, env, INITIAL_CONFIG, n, j - n);
    GraphGrows(g, env, cfg, j - n);
    RelatedAlike(Compile(src, checked, memtotal).em.cert, env, checked, memtotal, m', cfg');
    assert Within(cfg.log, cfg.consumed, m'.log, m'.consumed);
    assert Within(m.log, m.consumed, cfg'.log, cfg'.consumed);
  }

  /** No run of the graph ever gets stuck on a missing value, block or phi entry, and with
      bounds checks on no load, store or free leaves the tape. */
  lemma NeverStuck(src: string, checked: bool, memtotal: nat, env: Env, j: nat)
    requires Setting(src, checked, memtotal, env)
    ensures var l := GraphAfter(src, checked, memtotal, env, j).loc;
            l != Stuck && (checked ==> l != Faulted)
  {
    hide Compile, World, R.Run, Run, Related, R.Step, Step;
    if !GraphAfter(src, checked, memtotal, env, j).loc.At? {
      var i := SourceStops(src, checked, memtotal, env, j);
    }
  }

  /** The end-to-end theorem: the graph stops exactly when the source machine does, and then
      both have the same tape, the same input consumed, the same log and the same cause. */
  lemma MeaningPreserved(src: string, checked: bool, memtotal: nat, env: Env)
    requires Setting(src, checked, memtotal, env)
    ensures (exists i: nat :: !SourceAfter(src, checked, memtotal, env, i).status.Running?)
            <==> (exists j: nat :: !GraphAfter(src, checked, memtotal, env, j).loc.At?)
    ensures forall i: nat, j: nat ::
              && !SourceAfter(src, checked, memtotal, env, i).status.Running?
              && !GraphAfter(src, checked, memtotal, env, j).loc.At?
              ==> EndsAlike(SourceAfter(src, checked, memtotal, env, i), GraphAfter(src, checked, memtotal, env, j))
  {
    hide Setting, EndsAlike, R.Run, GraphAfter;
    if i: nat :| !SourceAfter(src, checked, memtotal, env, i).status.Running? {
      var j := GraphStops(src, checked, memtotal, env, i);
    }
    if j: nat :| !GraphAfter(src, checked, memtotal, env, j).loc.At? {
      var i := SourceStops(src, checked, memtotal, env, j);
    }
    forall i: nat, j: nat |
      && !SourceAfter(src, checked, memtotal, env, i).status.Running?
      && !GraphAfter(src, checked, memtotal, env, j).loc.At?
      ensures EndsAlike(SourceAfter(src, checked, memtotal, env, i), GraphAfter(src, checked, memtotal, env, j))
    {
      var k := SourceStops(src, checked, memtotal, env, j);
      SameStop(src, checked, env.input, R.Start(memtotal), i, k);
    }
  }
}
