/** How the reference machine gets through one whole token: comments, a run of changes, a
    run of moves. A run executed character by character adds up to one net step. */
module BrainFReferenceRuns {
  import opened BrainFSource
  import opened BrainFIr
  import R = BrainFReference

  lemma {:induction false} RefRunAdd(src: string, checked: bool, input: seq<Byte>, m: R.Machine, i: nat, j: nat)
    ensures R.Run(src, checked, input, m, i + j) == R.Run(src, checked, input, R.Run(src, checked, input, m, i), j)
    decreases i
  {
    if i > 0 {
      RefRunAdd(src, checked, input, R.Step(src, checked, input, m), i - 1, j);
    }
  }

  lemma {:induction false} RefRunStopped(src: string, checked: bool, input: seq<Byte>, m: R.Machine, n: nat)
    requires !m.status.Running?
    ensures R.Run(src, checked, input, m, n) == m
  {
    if n > 0 {
      RefRunStopped(src, checked, input, m, n - 1);
    }
  }

  lemma CommentStep(src: string, checked: bool, input: seq<Byte>, m: R.Machine, i: nat)
    requires i < |src| && SymbolOf(src[i]) == NoSym && m.status == R.Running(i)
    ensures R.Step(src, checked, input, m) == m.(status := R.Running(i + 1))
  {
  }

  /** Comments do nothing. */
  lemma {:induction false} Comments(src: string, checked: bool, input: seq<Byte>, m: R.Machine, i: nat, j: nat)
    requires i <= j <= |src| && Only(src, i, j, NoSym) && m.status == R.Running(i)
    ensures R.Run(src, checked, input, m, j - i) == m.(status := R.Running(j))
    decreases j - i
  {
    if i < j {
      CommentStep(src, checked, input, m, i);
      Comments(src, checked, input, m.(status := R.Running(i + 1)), i + 1, j);
    }
  }

  // ----- Changes -----

  /** The machine after adding `net` to the current cell. */
  function Changed(m: R.Machine, net: int, at: nat): R.Machine {
    if R.OnTape(m) then m.(tape := m.tape[m.head := Low8(m.tape[m.head] + net)], status := R.Running(at))
    else m.(status := R.Fault)
  }

  lemma ChangeStep(src: string, checked: bool, input: seq<Byte>, m: R.Machine, i: nat)
    requires i < |src| && SymbolOf(src[i]) == Change && m.status == R.Running(i)
    ensures R.Step(src, checked, input, m) == Changed(m, Direction(src[i]), i + 1)
  {
  }

  lemma ChangedNone(m: R.Machine, i: nat)
    requires R.OnTape(m) && m.status == R.Running(i)
    ensures Changed(m, 0, i) == m
  {
    assert m.tape[m.head := Low8(m.tape[m.head])] == m.tape;
  }

  lemma ChangedTwice(m: R.Machine, d: int, n: int, i: nat, j: nat)
    ensures var m' := Changed(m, d, i);
            if R.OnTape(m) then R.OnTape(m') && m'.status == R.Running(i) && Changed(m', n, j) == Changed(m, d + n, j)
            else m'.status == R.Fault && m' == Changed(m, d + n, j)
  {
    if R.OnTape(m) {
    }
  }

  /** A run of `+` and `-`, one command at a time, equals one addition of the net sum. */
  lemma {:induction false} ChangesAddUp(src: string, checked: bool, input: seq<Byte>, m: R.Machine, i: nat, j: nat)
    requires i <= j <= |src| && Only(src, i, j, Change) && m.status == R.Running(i)
    requires R.OnTape(m) || Count(src, i, j, Change) > 0
    ensures R.Run(src, checked, input, m, j - i) == Changed(m, Net(src, i, j, Change), j)
    decreases j - i
  {
    hide R.Step, SymbolOf, Low8, Changed;
    if i == j {
      ChangedNone(m, i);
    } else {
      var next := R.Step(src, checked, input, m);
      if SymbolOf(src[i]) == NoSym {
        CommentStep(src, checked, input, m, i);
        ChangesAddUp(src, checked, input, next, i + 1, j);
        ChangedStays(m, i + 1, Net(src, i, j, Change), j);
      } else {
        ChangeStep(src, checked, input, m, i);
        ChangedTwice(m, Direction(src[i]), Net(src, i + 1, j, Change), i + 1, j);
        if R.OnTape(m) {
          ChangesAddUp(src, checked, input, next, i + 1, j);
        } else {
          RefRunStopped(src, checked, input, next, j - i - 1);
        }
      }
    }
  }

  lemma ChangedStays(m: R.Machine, i: nat, net: int, j: nat)
    ensures Changed(m.(status := R.Running(i)), net, j) == Changed(m, net, j)
  {
  }

  // ----- Moves -----

  /** Inside a run of moves the next move is the last one exactly when no further one follows. */
  lemma {:induction false} MoveRunEndsIff(src: string, i: nat, j: nat)
    requires i <= j <= |src| && Only(src, i, j, Move) && R.MoveRunEnds(src, j)
    ensures R.MoveRunEnds(src, i) <==> Count(src, i, j, Move) == 0
    decreases j - i
  {
    if i < j {
      MoveRunEndsIff(src, i + 1, j);
    }
  }

  /** The machine after moving by `net`, the tape tested if `tested`. */
  function MovedBy(m: R.Machine, net: int, at: nat, tested: bool): R.Machine {
    var moved := m.(head := m.head + net);
    if tested && !R.OnTape(moved)
    then moved.(log := m.log + [Line(ERROR_TEXT)], status := R.OffTape)
    else moved.(status := R.Running(at))
  }

  lemma MoveStep(src: string, checked: bool, input: seq<Byte>, m: R.Machine, i: nat)
    requires i < |src| && SymbolOf(src[i]) == Move && m.status == R.Running(i)
    ensures R.Step(src, checked, input, m) == MovedBy(m, Direction(src[i]), i + 1, checked && R.MoveRunEnds(src, i + 1))
  {
  }

  /** A maximal run of `<` and `>`, one command at a time, equals one move by the net sum;
      with checks on the tape is tested once, behind the last of them. */
  lemma {:induction false} MovesAddUp(src: string, checked: bool, input: seq<Byte>, m: R.Machine, i: nat, j: nat)
    requires i <= j <= |src| && Only(src, i, j, Move) && R.MoveRunEnds(src, j) && m.status == R.Running(i)
    ensures R.Run(src, checked, input, m, j - i)
            == MovedBy(m, Net(src, i, j, Move), j, checked && Count(src, i, j, Move) > 0)
    decreases j - i
  {
    hide R.Step, SymbolOf, R.MoveRunEnds;
    if i < j {
      var next := R.Step(src, checked, input, m);
      if SymbolOf(src[i]) == NoSym {
        CommentStep(src, checked, input, m, i);
        MovesAddUp(src, checked, input, next, i + 1, j);
      } else {
        MoveRunEndsIff(src, i + 1, j);
        NoneNetZero(src, i + 1, j);
        MoveStep(src, checked, input, m, i);
        if next.status.Running? {
          MovesAddUp(src, checked, input, next, i + 1, j);
        } else {
          RefRunStopped(src, checked, input, next, j - i - 1);
        }
      }
    }
  }

  lemma {:induction false} NoneNetZero(src: string, i: nat, j: nat)
    requires i <= j <= |src|
    ensures Count(src, i, j, Move) == 0 ==> Net(src, i, j, Move) == 0
    decreases j - i
  {
    if i < j {
      NoneNetZero(src, i + 1, j);
    }
  }

  // ----- Stopping -----

  /** A run stops in one state only. */
  lemma {:induction false} SameStop(src: string, checked: bool, input: seq<Byte>, m: R.Machine, i: nat, k: nat)
    requires !R.Run(src, checked, input, m, i).status.Running? && !R.Run(src, checked, input, m, k).status.Running?
    ensures R.Run(src, checked, input, m, i) == R.Run(src, checked, input, m, k)
    decreases if i <= k then 0 else 1
  {
    hide R.Run;
    if i <= k {
      RefRunAdd(src, checked, input, m, i, k - i);
      RefRunStopped(src, checked, input, R.Run(src, checked, input, m, i), k - i);
    } else {
      SameStop(src, checked, input, m, k, i);
    }
  }

  /** The error line is in the log exactly when the machine stopped off the tape. */
  ghost predicate Honest(m: R.Machine) {
    Line(ERROR_TEXT) in m.log <==> m.status == R.OffTape
  }

  lemma {:induction false} ReportsAreHonest(src: string, checked: bool, input: seq<Byte>, m: R.Machine, n: nat)
    requires Honest(m)
    ensures Honest(R.Run(src, checked, input, m, n))
    decreases n
  {
    if n > 0 {
      HonestStep(src, checked, input, m);
      hide R.Step, Honest;
      ReportsAreHonest(src, checked, input, R.Step(src, checked, input, m), n - 1);
    }
  }

  lemma HonestStep(src: string, checked: bool, input: seq<Byte>, m: R.Machine)
    requires Honest(m)
    ensures Honest(R.Step(src, checked, input, m))
  {
    hide R.MoveRunEnds, R.FindClose, R.FindOpen;
    assert Line(ERROR_TEXT) in m.log + [Line(ERROR_TEXT)] by {
      assert (m.log + [Line(ERROR_TEXT)])[|m.log|] == Line(ERROR_TEXT);
    }
  }
}
