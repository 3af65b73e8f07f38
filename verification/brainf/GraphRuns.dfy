/** How the emitted graph executes the code of one token. */
module BrainFGraphRuns {
  import opened BrainFSource
  import opened BrainFIr
  import opened BrainFEmitter
  import opened Wrappers

  lemma Fetch(g: seq<Block>, env: Env, c: Config, prev: Label, b: Label, pc: nat, code: seq<Instr>, k: nat)
    requires CodeAt(g, b, pc, code) && k < |code| && c.loc == At(prev, b, pc + k)
    ensures Step(g, env, c) == Exec(env, code[k], c)
  {
  }

  // ----- Single instructions -----

  lemma ExecLoad(env: Env, c: Config, d: Reg, p: Reg)
    requires p in c.regs
    ensures Exec(env, Load(d, p), c) ==
            if Addressable(env, c, c.regs[p]) then Define(c, d, c.tape[c.regs[p] - env.base]) else c.(loc := Faulted)
  {
  }

  lemma ExecStore(env: Env, c: Config, s: Reg, p: Reg)
    requires s in c.regs && p in c.regs
    ensures Exec(env, Store(s, p), c) ==
            if Addressable(env, c, c.regs[p])
            then c.(tape := c.tape[c.regs[p] - env.base := Low8(c.regs[s])], loc := Next(c.loc))
            else c.(loc := Faulted)
  {
  }

  lemma ExecGep(env: Env, c: Config, d: Reg, p: Reg, index: Word)
    requires p in c.regs
    ensures Exec(env, Gep(d, p, index), c) == Define(c, d, c.regs[p] + Signed32(index))
  {
  }

  lemma ExecAddI8(env: Env, c: Config, d: Reg, s: Reg, k: Byte)
    requires s in c.regs
    ensures Exec(env, AddI8(d, s, k), c) == Define(c, d, Low8(c.regs[s] + k))
  {
  }

  lemma ExecCast(env: Env, c: Config, d: Reg, s: Reg)
    requires s in c.regs
    ensures Exec(env, Trunc(d, s), c) == Define(c, d, Low8(c.regs[s]))
    ensures Exec(env, SExt(d, s), c) == Define(c, d, SignExtend8(c.regs[s]))
  {
  }

  lemma ExecGetChar(env: Env, c: Config, d: Reg)
    ensures Exec(env, GetChar(d), c) ==
            Define(c, d, ReadChar(env, c.consumed))
              .(consumed := if c.consumed < |env.input| then c.consumed + 1 else c.consumed, log := c.log + [Asked])
  {
  }

  lemma ExecPutChar(env: Env, c: Config, s: Reg)
    requires s in c.regs
    ensures Exec(env, PutChar(s), c) == c.(log := c.log + [Char(Low8(c.regs[s]))], loc := Next(c.loc))
  {
  }

  lemma ExecICmpEqZero(env: Env, c: Config, d: Reg, s: Reg)
    requires s in c.regs
    ensures Exec(env, ICmpEqZero(d, s), c) == Define(c, d, if c.regs[s] == 0 then 1 else 0)
  {
  }

  lemma ExecBinary(env: Env, c: Config, d: Reg, a: Reg, b: Reg)
    requires a in c.regs && b in c.regs
    ensures Exec(env, ICmpUGE(d, a, b), c) == Define(c, d, if c.regs[a] >= c.regs[b] then 1 else 0)
    ensures Exec(env, ICmpULT(d, a, b), c) == Define(c, d, if c.regs[a] < c.regs[b] then 1 else 0)
    ensures Exec(env, Or(d, a, b), c) == Define(c, d, if c.regs[a] == 0 && c.regs[b] == 0 then 0 else 1)
  {
  }

  lemma ExecBranch(env: Env, c: Config, x: Reg, t: Label, f: Label)
    ensures Exec(env, Br(t), c) == Goto(c, t)
    ensures x in c.regs ==> Exec(env, CondBr(x, t, f), c) == Goto(c, if c.regs[x] != 0 then t else f)
  {
  }

  lemma ExecPhi(env: Env, c: Config, d: Reg, incoming: seq<(Reg, Label)>, r: Reg)
    requires c.loc.At? && Incoming(incoming, c.loc.prev) == Some(r) && r in c.regs
    ensures Exec(env, Phi(d, incoming), c) == Define(c, d, c.regs[r])
  {
  }

  // ----- Whole tokens -----

  lemma Run3(g: seq<Block>, env: Env, c: Config)
    ensures Run(g, env, c, 3) == Step(g, env, Step(g, env, Step(g, env, c)))
  {
    assert Run(g, env, c, 3) == Run(g, env, Step(g, env, c), 2);
  }

  lemma Run5(g: seq<Block>, env: Env, c: Config)
    ensures Run(g, env, c, 5) == Step(g, env, Step(g, env, Step(g, env, Step(g, env, Step(g, env, c)))))
  {
    var c1 := Step(g, env, c);
    var c2 := Step(g, env, c1);
    assert Run(g, env, c, 5) == Run(g, env, c1, 4) == Run(g, env, c2, 3);
    Run3(g, env, c2);
  }

  /** Once stopped, a configuration stays. */
  lemma Run3Stopped(g: seq<Block>, env: Env, c: Config)
    requires !Step(g, env, c).loc.At?
    ensures Run(g, env, c, 3) == Step(g, env, c)
  {
    Run3(g, env, c);
  }

  /** The cell at `addr` gets the value `v`; execution goes on behind the token. */
  function Stored(env: Env, c: Config, addr: int, v: int): seq<Byte> {
    if 0 <= addr - env.base < |c.tape| then c.tape[addr - env.base := Low8(v)] else c.tape
  }

  lemma ReadRuns(g: seq<Block>, env: Env, c: Config, prev: Label, b: Label, pc: nat, r: Reg, h: Reg)
    requires CodeAt(g, b, pc, ReadCode(r, h)) && c.loc == At(prev, b, pc) && h in c.regs && h < r
    ensures var x := ReadChar(env, c.consumed);
            var c' := c.(regs := c.regs[r := x][r + 1 := Low8(x)],
                         consumed := if c.consumed < |env.input| then c.consumed + 1 else c.consumed,
                         log := c.log + [Asked]);
            Run(g, env, c, 3) ==
            if Addressable(env, c, c.regs[h])
            then c'.(tape := Stored(env, c, c.regs[h], x), loc := At(prev, b, pc + 3))
            else c'.(loc := Faulted)
    ensures Low8(ReadChar(env, c.consumed)) == if c.consumed < |env.input| then env.input[c.consumed] else 255
  {
    hide CodeAt, Step, Exec, Run;
    var code := ReadCode(r, h);
    Run3(g, env, c);
    Fetch(g, env, c, prev, b, pc, code, 0);
    ExecGetChar(env, c, r);
    var c1 := Step(g, env, c);
    Fetch(g, env, c1, prev, b, pc, code, 1);
    ExecCast(env, c1, r + 1, r);
    var c2 := Step(g, env, c1);
    Fetch(g, env, c2, prev, b, pc, code, 2);
    ExecStore(env, c2, r + 1, h);
  }

  lemma {:induction false} WriteRuns(g: seq<Block>, env: Env, c: Config, prev: Label, b: Label, pc: nat, r: Reg, h: Reg)
    requires CodeAt(g, b, pc, WriteCode(r, h)) && c.loc == At(prev, b, pc) && h in c.regs && h < r
    ensures Run(g, env, c, 3) ==
            if Addressable(env, c, c.regs[h]) then
              var x := c.tape[c.regs[h] - env.base];
              c.(regs := c.regs[r := x][r + 1 := SignExtend8(x)], log := c.log + [Char(x)], loc := At(prev, b, pc + 3))
            else c.(loc := Faulted)
  {
    hide CodeAt, Step, Exec, Run;
    var code := WriteCode(r, h);
    Fetch(g, env, c, prev, b, pc, code, 0);
    ExecLoad(env, c, r, h);
    var c1 := Step(g, env, c);
    if Addressable(env, c, c.regs[h]) {
      Run3(g, env, c);
      Fetch(g, env, c1, prev, b, pc, code, 1);
      ExecCast(env, c1, r + 1, r);
      var c2 := Step(g, env, c1);
      Fetch(g, env, c2, prev, b, pc, code, 2);
      ExecPutChar(env, c2, r + 1);
      assert Low8(SignExtend8(c.tape[c.regs[h] - env.base])) == c.tape[c.regs[h] - env.base];
    } else {
      Run3Stopped(g, env, c);
    }
  }

  lemma {:induction false} ChangeRuns(g: seq<Block>, env: Env, c: Config, prev: Label, b: Label, pc: nat, r: Reg,
                                      h: Reg, value: int)
    requires CodeAt(g, b, pc, ChangeCode(r, h, value)) && c.loc == At(prev, b, pc) && h in c.regs && h < r
    ensures Run(g, env, c, 3) ==
            if Addressable(env, c, c.regs[h]) then
              var x := c.tape[c.regs[h] - env.base];
              c.(regs := c.regs[r := x][r + 1 := Low8(x + value)], tape := Stored(env, c, c.regs[h], x + value),
                 loc := At(prev, b, pc + 3))
            else c.(loc := Faulted)
  {
    hide CodeAt, Step, Exec, Run;
    var code := ChangeCode(r, h, value);
    Fetch(g, env, c, prev, b, pc, code, 0);
    ExecLoad(env, c, r, h);
    var c1 := Step(g, env, c);
    if Addressable(env, c, c.regs[h]) {
      Run3(g, env, c);
      Fetch(g, env, c1, prev, b, pc, code, 1);
      ExecAddI8(env, c1, r + 1, r, Low8(value));
      var c2 := Step(g, env, c1);
      Fetch(g, env, c2, prev, b, pc, code, 2);
      ExecStore(env, c2, r + 1, h);
    } else {
      Run3Stopped(g, env, c);
    }
  }

  lemma MoveRuns(g: seq<Block>, env: Env, c: Config, prev: Label, b: Label, pc: nat, r: Reg, h: Reg, value: int)
    requires CodeAt(g, b, pc, MoveCode(r, h, value)) && c.loc == At(prev, b, pc) && h in c.regs && h < r
    ensures Run(g, env, c, 1) == c.(regs := c.regs[r := c.regs[h] + Signed32(Low32(value))], loc := At(prev, b, pc + 1))
  {
    Fetch(g, env, c, prev, b, pc, MoveCode(r, h, value), 0);
    ExecGep(env, c, r, h, Low32(value));
    assert Run(g, env, c, 1) == Step(g, env, c);
  }

  function Flag(b: bool): int {
    if b then 1 else 0
  }

  lemma CheckedMoveRuns(g: seq<Block>, env: Env, c: Config, prev: Label, b: Label, pc: nat, r: Reg, h: Reg,
                        value: int, nextbb: Label)
    requires CodeAt(g, b, pc, CheckedMoveCode(r, h, value, nextbb)) && c.loc == At(prev, b, pc)
    requires h in c.regs && ARR in c.regs && ARRMAX in c.regs && ARRMAX < h < r
    ensures var head := c.regs[h] + Signed32(Low32(value));
            var above := head >= c.regs[ARRMAX];
            var below := head < c.regs[ARR];
            Run(g, env, c, 5) ==
            c.(regs := c.regs[r := head][r + 1 := Flag(above)][r + 2 := Flag(below)][r + 3 := Flag(above || below)],
               loc := At(b, if above || below then ABERRORBB else nextbb, 0))
  {
    hide CodeAt, Step, Exec, Run, Low32, Signed32;
    var code := CheckedMoveCode(r, h, value, nextbb);
    Run5(g, env, c);
    Fetch(g, env, c, prev, b, pc, code, 0);
    ExecGep(env, c, r, h, Low32(value));
    var c1 := Step(g, env, c);
    Fetch(g, env, c1, prev, b, pc, code, 1);
    ExecBinary(env, c1, r + 1, r, ARRMAX);
    var c2 := Step(g, env, c1);
    Fetch(g, env, c2, prev, b, pc, code, 2);
    ExecBinary(env, c2, r + 2, r, ARR);
    var c3 := Step(g, env, c2);
    Fetch(g, env, c3, prev, b, pc, code, 3);
    ExecBinary(env, c3, r + 3, r + 1, r + 2);
    var c4 := Step(g, env, c3);
    Fetch(g, env, c4, prev, b, pc, code, 4);
    ExecBranch(env, c4, r + 3, ABERRORBB, nextbb);
  }

  // ----- Loops -----

  lemma IncomingEntry(entries: seq<(Reg, Label)>, i: nat)
    requires |entries| == 2 && i < 2 && entries[0].1 != entries[1].1
    ensures Incoming(entries, entries[i].1) == Some(entries[i].0)
  {
    assert entries[1..][0] == entries[1];
  }

  lemma TestCodeAt(g: seq<Block>, test: Label, phi: Reg, entries: seq<(Reg, Label)>, r: Reg, after: Label, body: Label)
    requires test < |g| && TestBlock(phi, entries, r, after, body) <= g[test]
    ensures CodeAt(g, test, 0, TestBlock(phi, entries, r, after, body))
  {
    assert forall k :: 0 <= k < 4 ==> g[test][0 + k] == TestBlock(phi, entries, r, after, body)[k];
  }

  /** A branch into the test block: the phi takes the head of the edge taken. */
  lemma EnterRuns(g: seq<Block>, env: Env, c: Config, prev: Label, b: Label, pc: nat, h: Reg,
                  test: Label, code: Block, phi: Reg, entries: seq<(Reg, Label)>)
    requires CodeAt(g, b, pc, [Br(test)]) && c.loc == At(prev, b, pc)
    requires CodeAt(g, test, 0, code) && code != [] && code[0] == Phi(phi, entries)
    requires Incoming(entries, b) == Some(h) && h in c.regs
    ensures Run(g, env, c, 2) == c.(regs := c.regs[phi := c.regs[h]], loc := At(b, test, 1))
  {
    hide CodeAt, Exec, Incoming;
    Fetch(g, env, c, prev, b, pc, [Br(test)], 0);
    ExecBranch(env, c, 0, test, test);
    var c1 := Step(g, env, c);
    Fetch(g, env, c1, b, test, 0, code, 0);
    ExecPhi(env, c1, phi, entries, h);
  }

  /** The loop test: the cell under the phi decides between the body and the block behind. */
  lemma {:induction false} TestRuns(g: seq<Block>, env: Env, c: Config, prev: Label, test: Label, phi: Reg,
                 entries: seq<(Reg, Label)>, r: Reg, after: Label, body: Label)
    requires CodeAt(g, test, 0, TestBlock(phi, entries, r, after, body))
    requires c.loc == At(prev, test, 1) && phi in c.regs
    ensures Run(g, env, c, 3) ==
            if Addressable(env, c, c.regs[phi]) then
              var x := c.tape[c.regs[phi] - env.base];
              c.(regs := c.regs[r := x][r + 1 := Flag(x == 0)], loc := At(test, if x == 0 then after else body, 0))
            else c.(loc := Faulted)
  {
    hide CodeAt, Step, Exec, Run;
    var code := TestBlock(phi, entries, r, after, body);
    Fetch(g, env, c, prev, test, 0, code, 1);
    ExecLoad(env, c, r, phi);
    var c1 := Step(g, env, c);
    if Addressable(env, c, c.regs[phi]) {
      Run3(g, env, c);
      Fetch(g, env, c1, prev, test, 0, code, 2);
      ExecICmpEqZero(env, c1, r + 1, r);
      var c2 := Step(g, env, c1);
      Fetch(g, env, c2, prev, test, 0, code, 3);
      ExecBranch(env, c2, r + 1, after, body);
    } else {
      Run3Stopped(g, env, c);
    }
  }

  /** Both together. */
  lemma {:induction false} LoopRuns(g: seq<Block>, env: Env, c: Config, prev: Label, b: Label, pc: nat, h: Reg,
                 test: Label, phi: Reg, entries: seq<(Reg, Label)>, r: Reg, after: Label, body: Label)
    requires CodeAt(g, b, pc, [Br(test)]) && c.loc == At(prev, b, pc)
    requires test < |g| && TestBlock(phi, entries, r, after, body) <= g[test]
    requires Incoming(entries, b) == Some(h) && h in c.regs && phi < r
    ensures var head := c.regs[h];
            Run(g, env, c, 5) ==
            if Addressable(env, c, head) then
              var x := c.tape[head - env.base];
              c.(regs := c.regs[phi := head][r := x][r + 1 := Flag(x == 0)],
                 loc := At(test, if x == 0 then after else body, 0))
            else c.(regs := c.regs[phi := head], loc := Faulted)
  {
    hide CodeAt, Step, Exec, Run, Incoming;
    var code := TestBlock(phi, entries, r, after, body);
    TestCodeAt(g, test, phi, entries, r, after, body);
    EnterRuns(g, env, c, prev, b, pc, h, test, code, phi, entries);
    var entered := Run(g, env, c, 2);
    TestRuns(g, env, entered, b, test, phi, entries, r, after, body);
    RunAdd(g, env, c, 2, 3);
  }

  lemma ExitRuns(g: seq<Block>, env: Env, c: Config, test: Label, after: Label, exit: Reg, phi: Reg)
    requires after < |g| && [Phi(exit, [(phi, test)])] <= g[after]
    requires c.loc == At(test, after, 0) && phi in c.regs
    ensures Run(g, env, c, 1) == c.(regs := c.regs[exit := c.regs[phi]], loc := At(test, after, 1))
  {
    assert g[after][0] == Phi(exit, [(phi, test)]);
    ExecPhi(env, c, exit, [(phi, test)], phi);
    assert Run(g, env, c, 1) == Step(g, env, c);
  }

  // ----- Beginning and end -----

  /** The end block frees the tape and returns. */
  lemma EndRuns(g: seq<Block>, env: Env, c: Config, prev: Label)
    requires ENDBB < |g| && g[ENDBB] == [Free(ARR), Ret] && c.loc == At(prev, ENDBB, 0)
    requires c.live && ARR in c.regs && c.regs[ARR] == env.base
    ensures Run(g, env, c, 2) == c.(live := false, loc := Returned)
  {
    var c1 := Step(g, env, c);
    assert c1 == c.(live := false, loc := At(prev, ENDBB, 1));
    assert Run(g, env, c, 2) == Step(g, env, c1);
  }

  lemma {:induction false} EofRuns(g: seq<Block>, env: Env, c: Config, prev: Label, b: Label, pc: nat)
    requires CodeAt(g, b, pc, [Br(ENDBB)]) && c.loc == At(prev, b, pc)
    requires ENDBB < |g| && g[ENDBB] == [Free(ARR), Ret]
    requires c.live && ARR in c.regs && c.regs[ARR] == env.base
    ensures Run(g, env, c, 3) == c.(live := false, loc := Returned)
  {
    Fetch(g, env, c, prev, b, pc, [Br(ENDBB)], 0);
    ExecBranch(env, c, 0, ENDBB, ENDBB);
    EndRuns(g, env, Step(g, env, c), b);
  }

  /** The error block prints the message and goes on to the end block. */
  lemma ErrorRuns(g: seq<Block>, env: Env, c: Config, prev: Label)
    requires ABERRORBB < |g| && g[ABERRORBB] == [Puts(ERROR_TEXT), Br(ENDBB)] && g[ENDBB] == [Free(ARR), Ret]
    requires c.loc == At(prev, ABERRORBB, 0) && c.live && ARR in c.regs && c.regs[ARR] == env.base
    ensures Run(g, env, c, 4) == c.(log := c.log + [Line(ERROR_TEXT)], live := false, loc := Returned)
  {
    var c1 := Step(g, env, c);
    assert c1 == c.(log := c.log + [Line(ERROR_TEXT)], loc := At(prev, ABERRORBB, 1));
    var c2 := Step(g, env, c1);
    assert c2 == Goto(c1, ENDBB);
    EndRuns(g, env, c2, ABERRORBB);
    assert Run(g, env, c, 4) == Run(g, env, c1, 3) == Run(g, env, c2, 2);
  }
}
