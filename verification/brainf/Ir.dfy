/** The LLVM instructions that the BrainF compiler emits, and a small-step
    interpreter for one function made of basic blocks. */
module BrainFIr {
  import opened Wrappers

  type Byte = x: int | 0 <= x < 256
  /** The bit pattern of an i32 constant. */
  type Word = x: int | 0 <= x < 0x1_0000_0000

  type Reg = nat     // an SSA value, numbered in order of creation
  type Label = nat   // a basic block, by its position in the function

  datatype Instr =
    | Malloc(dst: Reg, size: nat)
    | Memset(ptr: Reg, size: nat)
    | Free(ptr: Reg)
    | Gep(dst: Reg, ptr: Reg, index: Word)
    | Load(dst: Reg, ptr: Reg)
    | Store(src: Reg, ptr: Reg)
    | AddI8(dst: Reg, src: Reg, addend: Byte)
    | ICmpUGE(dst: Reg, lhs: Reg, rhs: Reg)
    | ICmpULT(dst: Reg, lhs: Reg, rhs: Reg)
    | ICmpEqZero(dst: Reg, src: Reg)
    | Or(dst: Reg, lhs: Reg, rhs: Reg)
    | GetChar(dst: Reg)
    | Trunc(dst: Reg, src: Reg)
    | SExt(dst: Reg, src: Reg)
    | PutChar(src: Reg)
    | Puts(text: string)
    | Phi(dst: Reg, incoming: seq<(Reg, Label)>)
    | Br(target: Label)
    | CondBr(cond: Reg, ifTrue: Label, ifFalse: Label)
    | Ret

  type Block = seq<Instr>

  function Dst(i: Instr): Option<Reg> {
    match i
    case Malloc(d, _) => Some(d)
    case Gep(d, _, _) => Some(d)
    case Load(d, _) => Some(d)
    case AddI8(d, _, _) => Some(d)
    case ICmpUGE(d, _, _) => Some(d)
    case ICmpULT(d, _, _) => Some(d)
    case ICmpEqZero(d, _) => Some(d)
    case Or(d, _, _) => Some(d)
    case GetChar(d) => Some(d)
    case Trunc(d, _) => Some(d)
    case SExt(d, _) => Some(d)
    case Phi(d, _) => Some(d)
    case _ => None
  }

  /** Operands read at the instruction itself; a phi reads on the incoming edge instead. */
  function Uses(i: Instr): set<Reg> {
    match i
    case Memset(p, _) => {p}
    case Free(p) => {p}
    case Gep(_, p, _) => {p}
    case Load(_, p) => {p}
    case Store(s, p) => {s, p}
    case AddI8(_, s, _) => {s}
    case ICmpUGE(_, a, b) => {a, b}
    case ICmpULT(_, a, b) => {a, b}
    case ICmpEqZero(_, s) => {s}
    case Or(_, a, b) => {a, b}
    case Trunc(_, s) => {s}
    case SExt(_, s) => {s}
    case PutChar(s) => {s}
    case CondBr(c, _, _) => {c}
    case _ => {}
  }

  predicate IsTerminator(i: Instr) {
    i.Br? || i.CondBr? || i.Ret?
  }

  function Targets(i: Instr): set<Label> {
    match i
    case Br(t) => {t}
    case CondBr(_, t, f) => {t, f}
    case _ => {}
  }

  // ----- Machine arithmetic -----

  /** APInt(32, v): the low 32 bits of v. */
  function Low32(v: int): Word {
    v % 0x1_0000_0000
  }

  /** APInt(8, v), and `trunc i32 to i8`: the low 8 bits of v. */
  function Low8(v: int): Byte {
    v % 256
  }

  /** The signed value of an i32 bit pattern, as getelementptr reads its index. */
  function Signed32(w: Word): int {
    if w < 0x8000_0000 then w else w - 0x1_0000_0000
  }

  /** `sext i8 to i32`. */
  function SignExtend8(b: int): int {
    if b < 128 then b else b - 256
  }

  // ----- Interpreter -----

  /** What the program has done to the outside, in order: `getchar` called, a byte written by
      `putchar`, a line written by `puts`. */
  datatype Event = Asked | Char(b: Byte) | Line(text: string)

  /** The world the program runs in: where malloc places the tape, what it finds there, and stdin. */
  datatype Env = Env(base: int, garbage: seq<Byte>, input: seq<Byte>)

  datatype Location = At(prev: Label, block: Label, pc: nat) | Returned | Faulted | Stuck

  datatype Config = Config(
    regs: map<Reg, int>, tape: seq<Byte>, live: bool, consumed: nat, log: seq<Event>, loc: Location)

  const INITIAL_CONFIG := Config(map[], [], false, 0, [], At(0, 0, 0))

  function Next(l: Location): Location {
    if l.At? then At(l.prev, l.block, l.pc + 1) else l
  }

  function Define(c: Config, r: Reg, v: int): Config {
    c.(regs := c.regs[r := v], loc := Next(c.loc))
  }

  function Goto(c: Config, l: Label): Config {
    c.(loc := if c.loc.At? then At(c.loc.block, l, 0) else c.loc)
  }

  predicate Addressable(env: Env, c: Config, addr: int) {
    c.live && 0 <= addr - env.base < |c.tape|
  }

  /** getchar: the next byte of stdin, or EOF (-1). */
  function ReadChar(env: Env, consumed: nat): int {
    if consumed < |env.input| then env.input[consumed] else -1
  }

  function Incoming(incoming: seq<(Reg, Label)>, l: Label): Option<Reg> {
    if incoming == [] then None
    else if incoming[0].1 == l then Some(incoming[0].0)
    else Incoming(incoming[1..], l)
  }

  function Zeros(n: nat): (r: seq<Byte>)
    ensures |r| == n && forall i :: 0 <= i < n ==> r[i] == 0
  {
    seq(n, _ => 0)
  }

  /** Executes one instruction. A load, store or free outside live memory faults. An operand
      that has no value, or a phi without an entry for the edge taken, is stuck. */
  function Exec(env: Env, i: Instr, c: Config): Config {
    if !(Uses(i) <= c.regs.Keys) then c.(loc := Stuck)
    else match i
      case Malloc(d, size) =>
        if |env.garbage| == size then Define(c, d, env.base).(tape := env.garbage, live := true)
        else c.(loc := Stuck)
      case Memset(p, size) =>
        if c.live && c.regs[p] == env.base && size <= |c.tape|
        then c.(tape := Zeros(size) + c.tape[size..], loc := Next(c.loc))
        else c.(loc := Faulted)
      case Free(p) =>
        if c.live && c.regs[p] == env.base then c.(live := false, loc := Next(c.loc)) else c.(loc := Faulted)
      case Gep(d, p, index) => Define(c, d, c.regs[p] + Signed32(index))
      case Load(d, p) =>
        if Addressable(env, c, c.regs[p]) then Define(c, d, c.tape[c.regs[p] - env.base])
        else c.(loc := Faulted)
      case Store(s, p) =>
        if Addressable(env, c, c.regs[p])
        then c.(tape := c.tape[c.regs[p] - env.base := Low8(c.regs[s])], loc := Next(c.loc))
        else c.(loc := Faulted)
      case AddI8(d, s, k) => Define(c, d, Low8(c.regs[s] + k))
      case ICmpUGE(d, a, b) => Define(c, d, if c.regs[a] >= c.regs[b] then 1 else 0)
      case ICmpULT(d, a, b) => Define(c, d, if c.regs[a] < c.regs[b] then 1 else 0)
      case ICmpEqZero(d, s) => Define(c, d, if c.regs[s] == 0 then 1 else 0)
      case Or(d, a, b) => Define(c, d, if c.regs[a] == 0 && c.regs[b] == 0 then 0 else 1)
      case GetChar(d) =>
        Define(c, d, ReadChar(env, c.consumed))
          .(consumed := if c.consumed < |env.input| then c.consumed + 1 else c.consumed, log := c.log + [Asked])
      case Trunc(d, s) => Define(c, d, Low8(c.regs[s]))
      case SExt(d, s) => Define(c, d, SignExtend8(c.regs[s]))
      case PutChar(s) => c.(log := c.log + [Char(Low8(c.regs[s]))], loc := Next(c.loc))
      case Puts(text) => c.(log := c.log + [Line(text)], loc := Next(c.loc))
      case Phi(d, incoming) =>
        var r := if c.loc.At? then Incoming(incoming, c.loc.prev) else None;
        if r.Some? && r.value in c.regs then Define(c, d, c.regs[r.value]) else c.(loc := Stuck)
      case Br(t) => Goto(c, t)
      case CondBr(x, t, f) => Goto(c, if c.regs[x] != 0 then t else f)
      case Ret => c.(loc := Returned)
  }

  /** One step: fetch and execute, or stay put once the function has stopped. */
  function Step(g: seq<Block>, env: Env, c: Config): Config {
    if !c.loc.At? then c
    else if c.loc.block < |g| && c.loc.pc < |g[c.loc.block]| then Exec(env, g[c.loc.block][c.loc.pc], c)
    else c.(loc := Stuck)
  }

  function Run(g: seq<Block>, env: Env, c: Config, n: nat): Config
    decreases n
  {
    if n == 0 then c else Run(g, env, Step(g, env, c), n - 1)
  }

  lemma {:induction false} RunAdd(g: seq<Block>, env: Env, c: Config, m: nat, n: nat)
    ensures Run(g, env, c, m + n) == Run(g, env, Run(g, env, c, m), n)
    decreases m
  {
    if m > 0 {
      RunAdd(g, env, Step(g, env, c), m - 1, n);
    }
  }

  lemma {:induction false} RunStopped(g: seq<Block>, env: Env, c: Config, n: nat)
    requires !c.loc.At?
    ensures Run(g, env, c, n) == c
  {
    if n > 0 {
      RunStopped(g, env, c, n - 1);
    }
  }

  /** `code` lies in block `b` of `g` from index `pc` on. */
  ghost predicate CodeAt(g: seq<Block>, b: Label, pc: nat, code: seq<Instr>) {
    b < |g| && pc + |code| <= |g[b]| && forall k :: 0 <= k < |code| ==> g[b][pc + k] == code[k]
  }
}
