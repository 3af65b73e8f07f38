/** Whole programs: the character machine and the compiled graph do what the structure says. */
module BrainFStructuredPrograms {
  import opened BrainFIr
  import opened BrainFReferenceRuns
  import opened BrainFPreservation
  import opened BrainFStructured
  import R = BrainFReference

  /** A program that has come to its end is done. */
  function Finished(m: R.Machine): R.Machine {
    if m.status.Running? then m.(status := R.Done) else m
  }

  /** A program ends in `e`. */
  ghost predicate EndsIn(p: Prog, checked: bool, input: seq<Byte>, memtotal: nat, e: R.Machine) {
    exists fuel: nat :: Execute(p, checked, input, R.Start(memtotal), fuel) == Ended(e)
  }

  /** If the program ends, the machine stops, in the same state. */
  lemma ProgramStops(p: Prog, checked: bool, input: seq<Byte>, memtotal: nat, e: R.Machine) returns (n: nat)
    requires Valid(p) && EndsIn(p, checked, input, memtotal, e)
    ensures R.Run(Text(p), checked, input, R.Start(memtotal), n) == Finished(e)
  {
    hide R.Run, R.Step, Execute;
    var src, start := Text(p), R.Start(memtotal);
    var fuel: nat :| Execute(p, checked, input, start, fuel) == Ended(e);
    assert src[0..|src|] == src;
    var k, behind := MachineFollows(src, 0, p, checked, input, start, fuel);
    n := Finishes(src, checked, input, start, k, e);
  }

  /** If the machine stops, the program ends. */
  lemma MachineEnds(p: Prog, checked: bool, input: seq<Byte>, memtotal: nat, n: nat) returns (e: R.Machine)
    requires Valid(p) && !R.Run(Text(p), checked, input, R.Start(memtotal), n).status.Running?
    ensures EndsIn(p, checked, input, memtotal, e)
  {
    hide R.Run, R.Step, Execute;
    var src, start := Text(p), R.Start(memtotal);
    assert src[0..|src|] == src;
    var fuel := StructureFollows(src, 0, p, checked, input, start, n);
    e := Execute(p, checked, input, start, fuel).m;
  }

  lemma Finishes(src: string, checked: bool, input: seq<Byte>, m: R.Machine, k: nat, e: R.Machine)
    returns (n: nat)
    requires R.Run(src, checked, input, m, k) == Put(e, |src|)
    ensures R.Run(src, checked, input, m, n) == Finished(e)
  {
    if e.status.Running? {
      RefRunAdd(src, checked, input, m, k, 1);
      assert R.Run(src, checked, input, Put(e, |src|), 1) == R.Step(src, checked, input, Put(e, |src|));
      n := k + 1;
    } else {
      n := k;
    }
  }

  lemma FinishedStops(m: R.Machine)
    ensures !Finished(m).status.Running?
  {
  }

  /** The machine stops on a program's text if and only if the program ends, and then in the
      state the program ends in. */
  lemma MachineIsStructured(p: Prog, checked: bool, input: seq<Byte>, memtotal: nat, m: R.Machine)
    requires Valid(p) && !m.status.Running?
    ensures (exists n: nat :: R.Run(Text(p), checked, input, R.Start(memtotal), n) == m)
            <==> (exists e :: EndsIn(p, checked, input, memtotal, e) && m == Finished(e))
  {
    hide R.Run, EndsIn, Finished;
    var start := R.Start(memtotal);
    if n: nat :| R.Run(Text(p), checked, input, start, n) == m {
      var e := MachineEnds(p, checked, input, memtotal, n);
      var k := ProgramStops(p, checked, input, memtotal, e);
      FinishedStops(e);
      SameStop(Text(p), checked, input, start, n, k);
      assert m == Finished(e);
    }
    forall e | EndsIn(p, checked, input, memtotal, e) && m == Finished(e)
      ensures exists n: nat :: R.Run(Text(p), checked, input, start, n) == m
    {
      var n := ProgramStops(p, checked, input, memtotal, e);
    }
  }

  /** End to end against the command table: the graph compiled from a program's text stops if
      and only if the program ends, reading `[body]` as `while(*h) body`, and then with the
      tape, input, output and cause of the program. */
  lemma CompiledIsStructured(p: Prog, checked: bool, memtotal: nat, env: Env)
    requires Valid(p) && Setting(Text(p), checked, memtotal, env)
    ensures (exists e :: EndsIn(p, checked, env.input, memtotal, e))
            <==> (exists j: nat :: !GraphAfter(Text(p), checked, memtotal, env, j).loc.At?)
    ensures forall e, j: nat ::
              EndsIn(p, checked, env.input, memtotal, e) && !GraphAfter(Text(p), checked, memtotal, env, j).loc.At?
              ==> EndsAlike(Finished(e), GraphAfter(Text(p), checked, memtotal, env, j))
  {
    hide R.Run, EndsIn, Setting, EndsAlike, GraphAfter, Finished;
    var src := Text(p);
    MeaningPreserved(src, checked, memtotal, env);
    forall e | EndsIn(p, checked, env.input, memtotal, e)
      ensures exists i: nat ::
                SourceAfter(src, checked, memtotal, env, i) == Finished(e) && !Finished(e).status.Running?
    {
      var i := ProgramStops(p, checked, env.input, memtotal, e);
      FinishedStops(e);
      assert SourceAfter(src, checked, memtotal, env, i) == Finished(e);
    }
    if i: nat :| !SourceAfter(src, checked, memtotal, env, i).status.Running? {
      var e := MachineEnds(p, checked, env.input, memtotal, i);
    }
  }

  // ----- Programs that never end -----

  /** The log of a program cut off at `fuel` is the log of the machine at some step, which is
      at least `fuel` steps on unless the program has ended. */
  lemma CutOffLog(p: Prog, checked: bool, input: seq<Byte>, memtotal: nat, fuel: nat) returns (n: nat)
    requires Valid(p)
    ensures var stop := Execute(p, checked, input, R.Start(memtotal), fuel);
            var m := R.Run(Text(p), checked, input, R.Start(memtotal), n);
            && m.log == stop.m.log && m.consumed == stop.m.consumed
            && (n >= fuel || !m.status.Running?)
  {
    hide R.Run, R.Step, Execute;
    var src, start := Text(p), R.Start(memtotal);
    assert src[0..|src|] == src;
    var k, pos := MachineFollows(src, 0, p, checked, input, start, fuel);
    n := k;
    if Execute(p, checked, input, start, fuel).Ended? {
      n := Finishes(src, checked, input, start, k, Execute(p, checked, input, start, fuel).m);
      FinishedStops(Execute(p, checked, input, start, fuel).m);
    }
  }

  /** What the machine has logged by any step is part of what it has logged by any later one,
      and of what it has logged once it has stopped. */
  lemma LogGrows(src: string, checked: bool, input: seq<Byte>, m: R.Machine, i: nat, n: nat)
    requires n >= i || !R.Run(src, checked, input, m, n).status.Running?
    ensures var a, b := R.Run(src, checked, input, m, i), R.Run(src, checked, input, m, n);
            Within(a.log, a.consumed, b.log, b.consumed)
  {
    hide R.Run;
    if n >= i {
      RefRunAdd(src, checked, input, m, i, n - i);
      SourceGrows(src, checked, input, R.Run(src, checked, input, m, i), n - i);
    } else {
      RefRunAdd(src, checked, input, m, n, i - n);
      RefRunStopped(src, checked, input, R.Run(src, checked, input, m, n), i - n);
    }
  }

  /** Whether a program ends or not: what it reads and writes within any number of turns, the
      compiled graph reads and writes within some number of instructions, in the same order,
      and the other way round. */
  lemma {:induction false} CompiledLogIsStructured(p: Prog, checked: bool, memtotal: nat, env: Env, n: nat)
    requires Valid(p) && Setting(Text(p), checked, memtotal, env)
    ensures exists j ::
              var m := Execute(p, checked, env.input, R.Start(memtotal), n).m;
              var cfg := GraphAfter(Text(p), checked, memtotal, env, j);
              Within(m.log, m.consumed, cfg.log, cfg.consumed)
    ensures exists fuel ::
              var m := Execute(p, checked, env.input, R.Start(memtotal), fuel).m;
              var cfg := GraphAfter(Text(p), checked, memtotal, env, n);
              Within(cfg.log, cfg.consumed, m.log, m.consumed)
  {
    hide Execute, R.Run, R.Step, GraphAfter, Setting;
    var src, start := Text(p), R.Start(memtotal);
    // From the program to the graph.
    var i := CutOffLog(p, checked, env.input, memtotal, n);
    SameBehaviour(src, checked, memtotal, env, i);
    var j :| var m := SourceAfter(src, checked, memtotal, env, i);
             var cfg := GraphAfter(src, checked, memtotal, env, j);
             Within(m.log, m.consumed, cfg.log, cfg.consumed);
    var here := Execute(p, checked, env.input, start, n).m;
    assert Within(here.log, here.consumed, GraphAfter(src, checked, memtotal, env, j).log,
                  GraphAfter(src, checked, memtotal, env, j).consumed);
    // And back.
    SameBehaviour(src, checked, memtotal, env, n);
    var k :| var m := SourceAfter(src, checked, memtotal, env, k);
             var cfg := GraphAfter(src, checked, memtotal, env, n);
             Within(cfg.log, cfg.consumed, m.log, m.consumed);
    var l := CutOffLog(p, checked, env.input, memtotal, k);
    LogGrows(src, checked, env.input, start, k, l);
    var there := Execute(p, checked, env.input, start, k).m;
    assert Within(GraphAfter(src, checked, memtotal, env, n).log, GraphAfter(src, checked, memtotal, env, n).consumed,
                  there.log, there.consumed);
  }
}
