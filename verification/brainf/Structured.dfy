/** BrainF as a structured language: `[body]` is `while(*h) body`. The character machine, which
    jumps between brackets, does what the structure says wherever a program lies in a text. */
module BrainFStructured {
  import opened BrainFSource
  import opened BrainFIr
  import opened BrainFReferenceRuns
  import opened BrainFSimulation
  import R = BrainFReference

  /** A program by structure. Commands include comment characters. */
  datatype Prog = End | Do(c: char, rest: Prog) | While(body: Prog, rest: Prog)

  predicate Valid(p: Prog) {
    match p
    case End => true
    case Do(c, rest) => c != '[' && c != ']' && Valid(rest)
    case While(body, rest) => Valid(body) && Valid(rest)
  }

  function Text(p: Prog): string {
    match p
    case End => ""
    case Do(c, rest) => [c] + Text(rest)
    case While(body, rest) => "[" + Text(body) + "]" + Text(rest)
  }

  /** A state between commands, at no particular place in a text. */
  function Free(m: R.Machine): R.Machine {
    if m.status.Running? then m.(status := R.Running(0)) else m
  }

  function Put(m: R.Machine, pc: nat): R.Machine {
    if m.status.Running? then m.(status := R.Running(pc)) else m
  }

  /** One command in front of `rest`. */
  function Perform(c: char, rest: Prog, checked: bool, input: seq<Byte>, m: R.Machine): R.Machine {
    Free(R.Command([c] + Text(rest), checked, input, Put(m, 0), 0))
  }

  /** The program has ended, or was cut short in front of another turn of a loop. */
  datatype Stop = Ended(m: R.Machine) | Cut(m: R.Machine)

  /** What a program does within `fuel` turns of its loops, counted along the way it takes
      from turn to turn. */
  function Execute(p: Prog, checked: bool, input: seq<Byte>, m: R.Machine, fuel: nat): Stop
    decreases fuel, p
  {
    if !m.status.Running? then Ended(m)
    else match p
         case End => Ended(m)
         case Do(c, rest) => Execute(rest, checked, input, Perform(c, rest, checked, input, m), fuel)
         case While(body, rest) =>
           if !R.OnTape(m) then Ended(m.(status := R.Fault))
           else if m.tape[m.head] == 0 then Execute(rest, checked, input, m, fuel)
           else if fuel == 0 then Cut(m)
           else
             var turn := Execute(body, checked, input, m, fuel - 1);
             if turn.Cut? then turn else Execute(p, checked, input, turn.m, fuel - 1)
  }

  lemma {:induction false} MoreFuel(p: Prog, checked: bool, input: seq<Byte>, m: R.Machine, fuel: nat, more: nat)
    requires fuel <= more && Execute(p, checked, input, m, fuel).Ended?
    ensures Execute(p, checked, input, m, more) == Execute(p, checked, input, m, fuel)
    decreases fuel, p
  {
    hide Perform;
    if m.status.Running? {
      match p {
        case End =>
        case Do(c, rest) => MoreFuel(rest, checked, input, Perform(c, rest, checked, input, m), fuel, more);
        case While(body, rest) =>
          if R.OnTape(m) {
            if m.tape[m.head] == 0 {
              MoreFuel(rest, checked, input, m, fuel, more);
            } else if fuel > 0 {
              MoreFuel(body, checked, input, m, fuel - 1, more - 1);
              MoreFuel(p, checked, input, Execute(body, checked, input, m, fuel - 1).m, fuel - 1, more - 1);
            }
          }
      }
    }
  }

  // ----- Every balanced text has a structure -----

  /** The structure of src[i..], up to its end or to the bracket that closes an outer loop. */
  lemma {:induction false} Parse(src: string, i: nat, d: nat) returns (p: Prog, j: nat)
    requires i <= |src| && Depth(src, i, |src|) + d == 0
    requires forall k :: i <= k <= |src| ==> Depth(src, i, k) + d >= 0
    ensures Valid(p) && i <= j <= |src| && src[i..j] == Text(p) && Depth(src, i, j) == 0
    ensures if d == 0 then j == |src| else j < |src| && src[j] == ']'
    decreases |src| - i
  {
    hide Depth;
    assert Depth(src, i, i) == 0 by { DepthNone(src, i); }
    if i == |src| {
      p, j := End, i;
    } else if src[i] == ']' {
      DepthOne(src, i);
      assert Depth(src, i, i + 1) + d >= 0;
      p, j := End, i;
    } else {
      DepthOne(src, i);
      DepthAfter(src, i, d, i + 1, Delta(src[i]));
      if src[i] == '[' {
        var body, close := Parse(src, i + 1, d + 1);
        DepthSplit(src, i, i + 1, close);
        DepthSplit(src, i, close, close + 1);
        DepthOne(src, close);
        DepthAfter(src, i, d, close + 1, 0);
        var rest;
        rest, j := Parse(src, close + 1, d);
        p := While(body, rest);
        DepthSplit(src, i, close + 1, j);
      } else {
        var rest;
        rest, j := Parse(src, i + 1, d);
        p := Do(src[i], rest);
        DepthSplit(src, i, i + 1, j);
      }
    }
  }

  lemma DepthNone(src: string, i: nat)
    requires i <= |src|
    ensures Depth(src, i, i) == 0
  {
  }

  lemma DepthOne(src: string, i: nat)
    requires i < |src|
    ensures Depth(src, i, i + 1) == Delta(src[i])
  {
    assert Depth(src, i, i) == 0;
  }

  /** Depths seen from `m` on, given those seen from `i` on. */
  lemma DepthAfter(src: string, i: nat, d: nat, m: nat, e: int)
    requires i <= m <= |src| && Depth(src, i, m) == e && Depth(src, i, |src|) + d == 0
    requires forall k :: i <= k <= |src| ==> Depth(src, i, k) + d >= 0
    ensures Depth(src, m, |src|) + d + e == 0
    ensures forall k :: m <= k <= |src| ==> Depth(src, m, k) + d + e >= 0
  {
    DepthSplit(src, i, m, |src|);
    forall k | m <= k <= |src| ensures Depth(src, m, k) + d + e >= 0 {
      DepthSplit(src, i, m, k);
    }
  }

  /** A text compiles exactly if it is the text of a program. */
  lemma BalancedIsStructured(src: string)
    ensures Balanced(src) <==> exists p :: Valid(p) && Text(p) == src
  {
    if Balanced(src) {
      assert forall k :: 0 <= k <= |src| ==> Depth(src, 0, k) >= 0;
      var p, j := Parse(src, 0, 0);
      assert src[0..|src|] == src;
      assert Valid(p) && Text(p) == src;
    }
    forall p | Valid(p) && Text(p) == src ensures Balanced(src) {
      TextBalanced(p);
    }
  }

  // ----- The text of a program inside a larger text -----

  /** `t` lies in `src` at `at`. */
  predicate Lies(src: string, at: nat, t: string) {
    at + |t| <= |src| && src[at..at + |t|] == t
  }

  lemma LiesPart(src: string, at: nat, a: string, b: string)
    requires Lies(src, at, a + b)
    ensures Lies(src, at, a) && Lies(src, at + |a|, b)
  {
    assert src[at..at + |a|] == (a + b)[..|a|];
    assert src[at + |a|..at + |a| + |b|] == (a + b)[|a|..];
  }

  lemma {:induction false} DepthLocal(src: string, at: nat, t: string, k: nat)
    requires Lies(src, at, t) && k <= |t|
    ensures Depth(src, at, at + k) == Depth(t, 0, k)
    decreases k
  {
    if k > 0 {
      DepthLocal(src, at, t, k - 1);
      assert src[at + k - 1] == src[at..at + |t|][k - 1];
    }
  }

  /** A text that nests without a text around it nests inside one. */
  lemma NestsInside(src: string, at: nat, t: string)
    requires Lies(src, at, t) && Balanced(t)
    ensures NonNegative(src, at, at + |t|) && Depth(src, at, at + |t|) == 0
  {
    forall k | at <= k <= at + |t| ensures Depth(src, at, k) >= 0 {
      DepthLocal(src, at, t, k - at);
      assert Depth(t, 0, k - at) >= 0;
    }
    DepthLocal(src, at, t, |t|);
  }

  lemma NestsJoined(src: string, i: nat, m: nat, j: nat)
    requires i <= m <= j <= |src| && NonNegative(src, i, m) && Depth(src, i, m) == 0
    requires NonNegative(src, m, j) && Depth(src, m, j) == 0
    ensures NonNegative(src, i, j) && Depth(src, i, j) == 0
  {
    DepthSplit(src, i, m, j);
    forall k | i <= k <= j ensures Depth(src, i, k) >= 0 {
      if k > m {
        DepthSplit(src, i, m, k);
        assert Depth(src, m, k) >= 0;
      }
    }
  }

  lemma NestsBracketed(src: string, o: nat, c: nat)
    requires Matching(src, o, c)
    ensures NonNegative(src, o, c + 1) && Depth(src, o, c + 1) == 0
  {
    DepthOne(src, o);
    DepthOne(src, c);
    DepthSplit(src, o, o + 1, c);
    DepthSplit(src, o, c, c + 1);
    forall k | o <= k <= c + 1 ensures Depth(src, o, k) >= 0 {
      if o + 1 <= k <= c {
        DepthSplit(src, o, o + 1, k);
        assert Depth(src, o + 1, k) >= 0;
      }
    }
  }

  /** The brackets around a text that nests match. */
  lemma BracketsMatch(src: string, o: nat, b: string, r: string)
    requires Lies(src, o, "[" + b + "]" + r) && Balanced(b)
    ensures Matching(src, o, o + 1 + |b|)
    ensures Lies(src, o + 1, b) && Lies(src, o + 2 + |b|, r)
  {
    hide Depth, NonNegative, Balanced;
    assert "[" + b + "]" + r == "[" + (b + ("]" + r));
    LiesPart(src, o, "[", b + ("]" + r));
    LiesPart(src, o + 1, b, "]" + r);
    LiesPart(src, o + 1 + |b|, "]", r);
    FirstOf(src, o, "[");
    FirstOf(src, o + 1 + |b|, "]");
    NestsInside(src, o + 1, b);
  }

  lemma FirstOf(src: string, at: nat, t: string)
    requires t != "" && Lies(src, at, t)
    ensures at < |src| && src[at] == t[0]
  {
    assert src[at] == src[at..at + |t|][0];
  }

  /** The brackets around a loop's body match. */
  lemma LoopMatches(src: string, o: nat, body: Prog, rest: Prog)
    requires Lies(src, o, Text(While(body, rest))) && Balanced(Text(body))
    ensures Matching(src, o, o + 1 + |Text(body)|)
    ensures Lies(src, o + 1, Text(body)) && Lies(src, o + 2 + |Text(body)|, Text(rest))
  {
    hide Balanced, Matching, Lies;
    BracketsMatch(src, o, Text(body), Text(rest));
  }

  lemma DoBalanced(c: char, r: string)
    requires Delta(c) == 0 && Balanced(r)
    ensures Balanced([c] + r)
  {
    hide Depth, NonNegative;
    var t := [c] + r;
    assert t[1..1 + |r|] == r;
    NestsInside(t, 1, r);
    FlatBalanced(t);
    NestsJoined(t, 0, 1, |t|);
  }

  lemma LoopBalanced(b: string, r: string)
    requires Balanced(b) && Balanced(r)
    ensures Balanced("[" + b + "]" + r)
  {
    hide Depth, NonNegative, Matching, Lies;
    var t := "[" + b + "]" + r;
    LiesWhole(t);
    BracketsMatch(t, 0, b, r);
    var c := 1 + |b|;
    NestsBracketed(t, 0, c);
    NestsInside(t, c + 1, r);
    NestsJoined(t, 0, c + 1, |t|);
  }

  lemma LiesWhole(t: string)
    ensures Lies(t, 0, t)
  {
    assert t[0..|t|] == t;
  }

  lemma {:induction false} TextBalanced(p: Prog)
    requires Valid(p)
    ensures Balanced(Text(p))
  {
    hide Balanced;
    match p {
      case End => EmptyBalanced();
      case Do(c, rest) =>
        TextBalanced(rest);
        DoBalanced(c, Text(rest));
      case While(body, rest) =>
        TextBalanced(body);
        TextBalanced(rest);
        LoopBalanced(Text(body), Text(rest));
    }
  }

  lemma EmptyBalanced()
    ensures Balanced("")
  {
  }

  lemma FlatBalanced(t: string)
    requires t != "" && Delta(t[0]) == 0
    ensures NonNegative(t, 0, 1) && Depth(t, 0, 1) == 0
  {
    DepthOne(t, 0);
    assert Depth(t, 0, 0) == 0;
  }

  // ----- One command in place -----

  /** Behind a program comes the end of the text or the end of a loop. */
  predicate Closed(src: string, end: nat) {
    end == |src| || (end < |src| && src[end] == ']')
  }

  /** Where a run of moves ends is decided inside the program. */
  lemma {:induction false} RunEndsLocal(src: string, at: nat, p: Prog, t: string, k: nat)
    requires Valid(p) && Lies(src, at, Text(p)) && Closed(src, at + |Text(p)|)
    requires k + |Text(p)| == |t| && Lies(t, k, Text(p))
    ensures R.MoveRunEnds(src, at) == R.MoveRunEnds(t, k)
    decreases p
  {
    match p {
      case End =>
      case Do(c, rest) =>
        LiesPart(src, at, [c], Text(rest));
        LiesPart(t, k, [c], Text(rest));
        assert src[at] == src[at..at + 1][0] && t[k] == t[k..k + 1][0];
        RunEndsLocal(src, at + 1, rest, t, k + 1);
      case While(body, rest) =>
        assert Text(p)[0] == '[';
        assert src[at] == src[at..at + |Text(p)|][0] && t[k] == t[k..k + |Text(p)|][0];
    }
  }

  lemma SetShifts(at: nat, k: nat, m: R.Machine, v: int, consumed: nat, log: seq<Event>)
    requires m.status.Running?
    ensures R.Cell(Put(m, at)) == R.Cell(Put(m, k))
    ensures R.SetCell(Put(m, at), v) == Put(Free(R.SetCell(Put(m, k), v)), at + 1)
    ensures R.SetCell(Put(m, at), v).(consumed := consumed, log := log)
         == Put(Free(R.SetCell(Put(m, k), v).(consumed := consumed, log := log)), at + 1)
  {
  }

  lemma CellsShift(src: string, at: nat, t: string, k: nat, checked: bool, input: seq<Byte>, m: R.Machine)
    requires m.status.Running? && at < |src| && k < |t| && src[at] == t[k]
    requires src[at] == '+' || src[at] == '-' || src[at] == ','
    ensures R.Command(src, checked, input, Put(m, at), at)
         == Put(Free(R.Command(t, checked, input, Put(m, k), k)), at + 1)
  {
    hide R.MoveRunEnds, R.SetCell, R.Cell;
    var more := m.consumed < |input|;
    SetShifts(at, k, m, R.Cell(Put(m, at)) + 1, 0, []);
    SetShifts(at, k, m, R.Cell(Put(m, at)) - 1, 0, []);
    SetShifts(at, k, m, if more then input[m.consumed] else 255, if more then m.consumed + 1 else m.consumed,
              m.log + [Asked]);
  }

  /** The machine behind a move, the tape tested if `tested`. */
  function Moved(m: R.Machine, head: int, next: nat, tested: bool): R.Machine {
    var moved := m.(head := head, status := R.Running(next));
    if tested && !R.OnTape(moved) then moved.(log := m.log + [Line(ERROR_TEXT)], status := R.OffTape) else moved
  }

  lemma MoveIs(src: string, checked: bool, input: seq<Byte>, m: R.Machine, at: nat)
    requires at < |src| && m.status == R.Running(at) && (src[at] == '<' || src[at] == '>')
    ensures R.Command(src, checked, input, m, at) ==
              Moved(m, if src[at] == '<' then m.head - 1 else m.head + 1, at + 1, checked && R.MoveRunEnds(src, at + 1))
  {
    hide R.MoveRunEnds, R.OnTape;
  }

  lemma MovedShifts(m: R.Machine, head: int, at: nat, k: nat, tested: bool)
    requires m.status.Running?
    ensures Moved(Put(m, at), head, at + 1, tested) == Put(Free(Moved(Put(m, k), head, k + 1, tested)), at + 1)
  {
  }

  lemma MoveShifts(src: string, at: nat, t: string, k: nat, checked: bool, input: seq<Byte>, m: R.Machine)
    requires m.status.Running? && at < |src| && k < |t| && src[at] == t[k] && (src[at] == '<' || src[at] == '>')
    requires R.MoveRunEnds(src, at + 1) == R.MoveRunEnds(t, k + 1)
    ensures R.Command(src, checked, input, Put(m, at), at)
         == Put(Free(R.Command(t, checked, input, Put(m, k), k)), at + 1)
  {
    hide R.MoveRunEnds, R.Command, Moved, Free;
    MoveIs(src, checked, input, Put(m, at), at);
    MoveIs(t, checked, input, Put(m, k), k);
    MovedShifts(m, if src[at] == '<' then m.head - 1 else m.head + 1, at, k, checked && R.MoveRunEnds(src, at + 1));
  }

  lemma WriteShifts(src: string, at: nat, t: string, k: nat, checked: bool, input: seq<Byte>, m: R.Machine)
    requires m.status.Running? && at < |src| && k < |t| && src[at] == t[k] && src[at] == '.'
    ensures R.Command(src, checked, input, Put(m, at), at)
         == Put(Free(R.Command(t, checked, input, Put(m, k), k)), at + 1)
  {
  }

  lemma CommentShifts(src: string, at: nat, t: string, k: nat, checked: bool, input: seq<Byte>, m: R.Machine)
    requires m.status.Running? && at < |src| && k < |t| && src[at] == t[k] && SymbolOf(src[at]) == NoSym
    ensures R.Command(src, checked, input, Put(m, at), at)
         == Put(Free(R.Command(t, checked, input, Put(m, k), k)), at + 1)
  {
    hide R.MoveRunEnds, R.SetCell, R.Cell;
  }

  /** A command does the same in two texts if the run of moves behind it ends in both or in
      neither. */
  lemma CommandShifts(src: string, at: nat, t: string, k: nat, checked: bool, input: seq<Byte>, m: R.Machine)
    requires m.status.Running? && at < |src| && k < |t| && src[at] == t[k] && src[at] != '[' && src[at] != ']'
    requires R.MoveRunEnds(src, at + 1) == R.MoveRunEnds(t, k + 1)
    ensures R.Command(src, checked, input, Put(m, at), at)
         == Put(Free(R.Command(t, checked, input, Put(m, k), k)), at + 1)
  {
    hide R.Command, R.MoveRunEnds;
    match SymbolOf(src[at]) {
      case Move => MoveShifts(src, at, t, k, checked, input, m);
      case Write => WriteShifts(src, at, t, k, checked, input, m);
      case NoSym => CommentShifts(src, at, t, k, checked, input, m);
      case _ => CellsShift(src, at, t, k, checked, input, m);
    }
  }

  lemma LiesBehind(c: char, t: string)
    ensures Lies([c] + t, 1, t)
  {
    assert ([c] + t)[1..1 + |t|] == t;
  }

  /** The machine at a command does what the command does. */
  lemma CommandInPlace(src: string, at: nat, c: char, rest: Prog, checked: bool, input: seq<Byte>, m: R.Machine)
    requires m.status.Running? && Valid(Do(c, rest)) && Lies(src, at, Text(Do(c, rest)))
    requires Closed(src, at + 1 + |Text(rest)|)
    ensures R.Step(src, checked, input, Put(m, at)) == Put(Perform(c, rest, checked, input, m), at + 1)
  {
    hide R.MoveRunEnds, R.Command, Lies, Free;
    var t := [c] + Text(rest);
    LiesPart(src, at, [c], Text(rest));
    FirstOf(src, at, [c]);
    LiesBehind(c, Text(rest));
    RunEndsLocal(src, at + 1, rest, t, 1);
    CommandShifts(src, at, t, 0, checked, input, m);
  }

  // ----- The machine follows the structure -----

  lemma RunOne(src: string, checked: bool, input: seq<Byte>, m: R.Machine, n: nat)
    ensures R.Run(src, checked, input, m, n + 1) == R.Run(src, checked, input, R.Step(src, checked, input, m), n)
  {
  }

  /** Whatever a program does, the machine does on its text, in some number of steps: it comes
      to the place behind the program, or stops in the same way. If the program is cut short,
      the machine is somewhere inside, at least `fuel` steps on. */
  lemma {:induction false} MachineFollows(src: string, at: nat, p: Prog, checked: bool, input: seq<Byte>,
                                          m: R.Machine, fuel: nat)
    returns (n: nat, pos: nat)
    requires Valid(p) && Lies(src, at, Text(p)) && Closed(src, at + |Text(p)|)
    ensures var stop := Execute(p, checked, input, m, fuel);
            && R.Run(src, checked, input, Put(m, at), n) == Put(stop.m, pos)
            && (if stop.Ended? then pos == at + |Text(p)| else n >= fuel)
    decreases fuel, p
  {
    hide R.Step, R.Run, Lies, Perform, Valid, R.OnTape;
    assert forall x :: R.Run(src, checked, input, x, 0) == x by { RunZero(src, checked, input); }
    if !m.status.Running? || p.End? {
      n, pos := 0, at + |Text(p)|;
    } else if p.Do? {
      DoParts(src, at, p.c, p.rest);
      CommandInPlace(src, at, p.c, p.rest, checked, input, m);
      var m' := Perform(p.c, p.rest, checked, input, m);
      n, pos := MachineFollows(src, at + 1, p.rest, checked, input, m', fuel);
      RunOne(src, checked, input, Put(m, at), n);
      n := n + 1;
    } else {
      n, pos := LoopFollows(src, at, p, checked, input, m, fuel);
    }
  }

  lemma RunZero(src: string, checked: bool, input: seq<Byte>)
    ensures forall x :: R.Run(src, checked, input, x, 0) == x
  {
  }

  lemma DoParts(src: string, at: nat, c: char, rest: Prog)
    requires Valid(Do(c, rest)) && Lies(src, at, Text(Do(c, rest))) && Closed(src, at + |Text(Do(c, rest))|)
    ensures Valid(rest) && Lies(src, at + 1, Text(rest)) && Closed(src, at + 1 + |Text(rest)|)
    ensures |Text(Do(c, rest))| == 1 + |Text(rest)|
  {
    LiesPart(src, at, [c], Text(rest));
  }

  lemma LoopParts(src: string, at: nat, body: Prog, rest: Prog)
    requires Valid(While(body, rest)) && Lies(src, at, Text(While(body, rest)))
    requires Closed(src, at + |Text(While(body, rest))|)
    ensures Valid(body) && Valid(rest)
    ensures |Text(While(body, rest))| == 2 + |Text(body)| + |Text(rest)|
    ensures var c := at + 1 + |Text(body)|;
            && Matching(src, at, c) && Closed(src, c)
            && Lies(src, at + 1, Text(body)) && Lies(src, c + 1, Text(rest)) && Closed(src, c + 1 + |Text(rest)|)
  {
    TextBalanced(body);
    LoopMatches(src, at, body, rest);
  }

  /** The machine at a loop's opening bracket. */
  lemma LoopTest(src: string, at: nat, c: nat, checked: bool, input: seq<Byte>, m: R.Machine)
    requires m.status.Running? && Matching(src, at, c)
    ensures R.Step(src, checked, input, Put(m, at)) ==
              if !R.OnTape(m) then m.(status := R.Fault)
              else Put(m, if m.tape[m.head] == 0 then c + 1 else at + 1)
    ensures R.Step(src, checked, input, Put(m, c)) == Put(m, at)
  {
    hide R.Step;
    RefTest(src, checked, input, Put(m, at), at, c);
    RefBack(src, checked, input, Put(m, c), at, c);
  }

  lemma {:induction false} LoopFollows(src: string, at: nat, p: Prog, checked: bool, input: seq<Byte>, m: R.Machine,
                                       fuel: nat)
    returns (n: nat, pos: nat)
    requires p.While? && Valid(p) && Lies(src, at, Text(p)) && Closed(src, at + |Text(p)|) && m.status.Running?
    ensures var stop := Execute(p, checked, input, m, fuel);
            && R.Run(src, checked, input, Put(m, at), n) == Put(stop.m, pos)
            && (if stop.Ended? then pos == at + |Text(p)| else n >= fuel)
    decreases fuel, p, 0
  {
    hide R.Step, R.Run, Lies, Perform, Valid, Matching, Text;
    RunZero(src, checked, input);
    LoopParts(src, at, p.body, p.rest);
    var c := at + 1 + |Text(p.body)|;
    LoopTest(src, at, c, checked, input, m);
    if !R.OnTape(m) {
      RunOne(src, checked, input, Put(m, at), 0);
      n, pos := 1, at + |Text(p)|;
    } else if m.tape[m.head] == 0 {
      n, pos := MachineFollows(src, c + 1, p.rest, checked, input, m, fuel);
      RunOne(src, checked, input, Put(m, at), n);
      n := n + 1;
    } else if fuel == 0 {
      n, pos := 0, at;
    } else {
      var turn := Execute(p.body, checked, input, m, fuel - 1);
      var k, inner := MachineFollows(src, at + 1, p.body, checked, input, m, fuel - 1);
      if turn.Cut? {
        RunOne(src, checked, input, Put(m, at), k);
        n, pos := k + 1, inner;
      } else {
        var l;
        l, pos := MachineFollows(src, at, p, checked, input, turn.m, fuel - 1);
        n := TurnRuns(src, at, c, checked, input, m, turn.m, k, l);
      }
    }
  }

  /** One turn of a loop: the test, the body in `k` steps, the jump back, and `l` more steps. */
  lemma TurnRuns(src: string, at: nat, c: nat, checked: bool, input: seq<Byte>, m: R.Machine, m': R.Machine, k: nat,
                 l: nat)
    returns (n: nat)
    requires Matching(src, at, c) && m.status.Running? && R.OnTape(m) && m.tape[m.head] != 0
    requires R.Run(src, checked, input, Put(m, at + 1), k) == Put(m', c)
    ensures R.Run(src, checked, input, Put(m, at), n) == R.Run(src, checked, input, Put(m', at), l)
    ensures n > k && n > l
  {
    hide R.Step, R.Run;
    LoopTest(src, at, c, checked, input, m);
    RunOne(src, checked, input, Put(m, at), k);
    if m'.status.Running? {
      LoopTest(src, at, c, checked, input, m');
      RunOne(src, checked, input, Put(m', c), l);
      n := k + 1 + (l + 1);
    } else {
      n := k + 1 + l;
    }
    RefRunAdd(src, checked, input, Put(m, at), k + 1, n - (k + 1));
  }

  // ----- And the structure follows the machine -----

  lemma {:induction false} StopsLater(src: string, checked: bool, input: seq<Byte>, m: R.Machine, k: nat, n: nat)
    requires R.Run(src, checked, input, m, k).status.Running? && !R.Run(src, checked, input, m, n).status.Running?
    ensures k < n
    ensures R.Run(src, checked, input, R.Run(src, checked, input, m, k), n - k) == R.Run(src, checked, input, m, n)
  {
    hide R.Run;
    if k < n {
      RefRunAdd(src, checked, input, m, k, n - k);
    } else {
      RefRunAdd(src, checked, input, m, n, k - n);
      RefRunStopped(src, checked, input, R.Run(src, checked, input, m, n), k - n);
    }
  }

  /** If the machine stops after all, every program it goes through ends. */
  lemma {:induction false} StructureFollows(src: string, at: nat, p: Prog, checked: bool, input: seq<Byte>,
                                            m: R.Machine, n: nat)
    returns (fuel: nat)
    requires Valid(p) && Lies(src, at, Text(p)) && Closed(src, at + |Text(p)|)
    requires !R.Run(src, checked, input, Put(m, at), n).status.Running?
    ensures Execute(p, checked, input, m, fuel).Ended?
    decreases n, p
  {
    hide R.Step, R.Run, Lies, Perform, Valid, R.OnTape;
    if !m.status.Running? || p.End? {
      fuel := 0;
    } else {
      RunZero(src, checked, input);
      assert n > 0;
      RunOne(src, checked, input, Put(m, at), n - 1);
      if p.Do? {
        DoParts(src, at, p.c, p.rest);
        CommandInPlace(src, at, p.c, p.rest, checked, input, m);
        fuel := StructureFollows(src, at + 1, p.rest, checked, input, Perform(p.c, p.rest, checked, input, m), n - 1);
      } else {
        fuel := LoopEnds(src, at, p, checked, input, m, n);
      }
    }
  }

  lemma {:induction false} LoopEnds(src: string, at: nat, p: Prog, checked: bool, input: seq<Byte>, m: R.Machine,
                                    n: nat)
    returns (fuel: nat)
    requires p.While? && Valid(p) && Lies(src, at, Text(p)) && Closed(src, at + |Text(p)|) && m.status.Running?
    requires n > 0 && !R.Run(src, checked, input, Put(m, at), n).status.Running?
    ensures Execute(p, checked, input, m, fuel).Ended?
    decreases n, p, 1
  {
    hide R.Step, R.Run, Lies, Perform, Valid, Matching, Text;
    LoopParts(src, at, p.body, p.rest);
    var c := at + 1 + |Text(p.body)|;
    LoopTest(src, at, c, checked, input, m);
    RunOne(src, checked, input, Put(m, at), n - 1);
    if !R.OnTape(m) {
      fuel := 0;
    } else if m.tape[m.head] == 0 {
      fuel := StructureFollows(src, c + 1, p.rest, checked, input, m, n - 1);
    } else {
      var f := StructureFollows(src, at + 1, p.body, checked, input, m, n - 1);
      var m' := Execute(p.body, checked, input, m, f).m;
      var k, behind := MachineFollows(src, at + 1, p.body, checked, input, m, f);
      var g := TurnEnds(src, at, p, c, checked, input, m, m', k, n);
      fuel := (if f > g then f else g) + 1;
      MoreFuel(p.body, checked, input, m, f, fuel - 1);
      MoreFuel(p, checked, input, m', g, fuel - 1);
    }
  }

  /** Behind one turn fewer steps are left. */
  lemma {:induction false} TurnEnds(src: string, at: nat, p: Prog, c: nat, checked: bool, input: seq<Byte>,
                                    m: R.Machine, m': R.Machine, k: nat, n: nat)
    returns (fuel: nat)
    requires p.While? && Valid(p) && Lies(src, at, Text(p)) && Closed(src, at + |Text(p)|)
    requires Matching(src, at, c) && m.status.Running? && R.OnTape(m) && m.tape[m.head] != 0
    requires R.Run(src, checked, input, Put(m, at + 1), k) == Put(m', c)
    requires n > 0 && !R.Run(src, checked, input, Put(m, at + 1), n - 1).status.Running?
    ensures Execute(p, checked, input, m', fuel).Ended?
    decreases n, p, 0
  {
    hide R.Step, R.Run, Lies, Perform, Valid, Matching, Text;
    if m'.status.Running? {
      StopsLater(src, checked, input, Put(m, at + 1), k, n - 1);
      LoopTest(src, at, c, checked, input, m');
      RunOne(src, checked, input, Put(m', c), n - 2 - k);
      fuel := StructureFollows(src, at, p, checked, input, m', n - 2 - k);
    } else {
      fuel := 0;
    }
  }
}
