/** The meaning of BrainF source text: a machine that reads one character at a time.
    It knows nothing of runs, tokens or blocks. */
module BrainFReference {
  import opened BrainFSource
  import opened BrainFIr

  datatype Status = Running(pc: nat) | Done | OffTape | Fault

  datatype Machine = Machine(tape: seq<Byte>, head: int, consumed: nat, log: seq<Event>, status: Status)

  predicate OnTape(m: Machine) {
    0 <= m.head < |m.tape|
  }

  /** The next command at or after `i`, if any, is not a move: a run of moves ends here. */
  predicate MoveRunEnds(src: string, i: nat)
    requires i <= |src|
    decreases |src| - i
  {
    if i == |src| then true
    else if SymbolOf(src[i]) == NoSym then MoveRunEnds(src, i + 1)
    else SymbolOf(src[i]) != Move
  }

  /** Scans forward from `i`, `open` brackets deep, for the bracket that closes the loop. */
  function FindClose(src: string, i: nat, open: nat): nat
    requires i <= |src|
    decreases |src| - i
  {
    if i == |src| then |src|
    else if src[i] == ']' then if open == 0 then i else FindClose(src, i + 1, open - 1)
    else if src[i] == '[' then FindClose(src, i + 1, open + 1)
    else FindClose(src, i + 1, open)
  }

  /** Scans backward from before `i`, `closed` brackets deep, for the bracket that opens the loop. */
  function FindOpen(src: string, i: nat, closed: nat): nat
    requires i <= |src|
  {
    if i == 0 then 0
    else if src[i - 1] == '[' then if closed == 0 then i - 1 else FindOpen(src, i - 1, closed - 1)
    else if src[i - 1] == ']' then FindOpen(src, i - 1, closed + 1)
    else FindOpen(src, i - 1, closed)
  }

  function Advance(m: Machine): Machine {
    m.(status := if m.status.Running? then Running(m.status.pc + 1) else m.status)
  }

  function Cell(m: Machine): int {
    if OnTape(m) then m.tape[m.head] else 0
  }

  function SetCell(m: Machine, v: int): Machine {
    if OnTape(m) then Advance(m).(tape := m.tape[m.head := Low8(v)]) else m.(status := Fault)
  }

  /** Executes the command at `pc`. `checked` turns on the tape test at the end of each
      maximal run of moves. Reading past the end of the input stores 255. */
  function Command(src: string, checked: bool, input: seq<Byte>, m: Machine, pc: nat): Machine
    requires pc < |src|
  {
    var c := src[pc];
    if c == '+' then SetCell(m, Cell(m) + 1)
    else if c == '-' then SetCell(m, Cell(m) - 1)
    else if c == '<' || c == '>' then
      var moved := Advance(m).(head := if c == '<' then m.head - 1 else m.head + 1);
      if checked && MoveRunEnds(src, pc + 1) && !OnTape(moved)
      then moved.(log := m.log + [Line(ERROR_TEXT)], status := OffTape)
      else moved
    else if c == ',' then
      var more := m.consumed < |input|;
      SetCell(m, if more then input[m.consumed] else 255)
        .(consumed := if more then m.consumed + 1 else m.consumed, log := m.log + [Asked])
    else if c == '.' then
      if OnTape(m) then Advance(m).(log := m.log + [Char(m.tape[m.head])]) else m.(status := Fault)
    else if c == '[' then
      if !OnTape(m) then m.(status := Fault)
      else if m.tape[m.head] == 0 then m.(status := Running(FindClose(src, pc + 1, 0) + 1))
      else Advance(m)
    else if c == ']' then
      m.(status := Running(FindOpen(src, pc, 0)))
    else Advance(m)
  }

  function Step(src: string, checked: bool, input: seq<Byte>, m: Machine): Machine {
    if !m.status.Running? then m
    else if m.status.pc >= |src| then m.(status := Done)
    else Command(src, checked, input, m, m.status.pc)
  }

  function Run(src: string, checked: bool, input: seq<Byte>, m: Machine, n: nat): Machine
    decreases n
  {
    if n == 0 then m else Run(src, checked, input, Step(src, checked, input, m), n - 1)
  }

  function Start(memtotal: nat): Machine {
    Machine(Zeros(memtotal), memtotal / 2, 0, [], Running(0))
  }
}
