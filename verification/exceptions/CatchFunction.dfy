/** The functions that ExceptionDemo generates: an invoke, one catch block for each type, and
    a finally block that every way out goes through. */
module ExceptionCatchFunction {
  import opened Wrappers

  // ----- The generated code -----

  /** The three stack slots of a generated function. */
  datatype Slot = CaughtFlag | ExceptionStorage | ResultStorage

  datatype Message = InFinally | InCatch(kind: int) | InEnd | NoException | ForeignReceived | TypeReceived

  const NOT_THROWN: nat := 0
  const THROWN: nat := 1
  const CAUGHT: nat := 2

  /** What a function's code is made of. `StoreInitial` stores a constant, into a result slot in
      both components. The instructions that read the landing pad's result use its first
      component, the exception object, and its second, the selector. */
  datatype Instr =
    | Alloca(slot: Slot)
    | StoreInitial(slot: Slot, value: nat)
    | Print(message: Message)
    | SetFlag(state: nat)
    | LandingPad(cleanup: bool, clauses: seq<int>)
    | KeepResult
    | KeepException
    | DeleteStored
    | Invoke(normal: nat, unwind: nat)
    | Branch(target: nat)
    | SwitchFlag(otherwise: nat, cases: seq<(nat, nat)>)
    | SwitchSelector(otherwise: nat, cases: seq<(nat, nat)>)
    | BranchIfOurs(ours: nat, foreign: nat)
    | Return
    | Resume

  type Code = seq<seq<Instr>>

  const ENTRY: nat := 0
  const NORMAL: nat := 1
  const EXCEPTION: nat := 2
  const ROUTE: nat := 3
  const EXTERNAL: nat := 4
  const RESUME: nat := 5
  const END: nat := 6
  const FINALLY: nat := 7
  const FIRST_CATCH: nat := 8

  /** A slot, with its initial value if it has one. */
  function SlotCode(slot: Slot, initWith: Option<nat>): seq<Instr> {
    [Alloca(slot)] + if initWith.Some? then [StoreInitial(slot, initWith.value)] else []
  }

  /** The three slots: an empty result, a null exception, and nothing thrown. */
  function Slots(): seq<Instr> {
    SlotCode(ResultStorage, Some(0)) + SlotCode(ExceptionStorage, Some(0)) + SlotCode(CaughtFlag, Some(NOT_THROWN))
  }

  function EntryBlock(): seq<Instr> {
    Slots() + [Invoke(NORMAL, EXCEPTION)]
  }

  function ExceptionBlock(kinds: seq<int>): seq<Instr> {
    [LandingPad(true, kinds), KeepResult, KeepException, SetFlag(THROWN), BranchIfOurs(ROUTE, EXTERNAL)]
  }

  /** The landing pad of a function: the first instruction of its exception block. */
  function PadOf(code: Code): Instr {
    if EXCEPTION < |code| && code[EXCEPTION] != [] then code[EXCEPTION][0] else Resume
  }

  /** Selector `i` goes to the catch block of clause `i`. */
  function Routes(n: nat): (r: seq<(nat, nat)>)
    ensures |r| == n
  {
    if n == 0 then [] else Routes(n - 1) + [(n, FIRST_CATCH + n - 1)]
  }

  function FinallyBlock(terminator: nat, unwindResume: nat): seq<Instr> {
    [Print(InFinally), SwitchFlag(terminator, [(CAUGHT, terminator), (THROWN, unwindResume)])]
  }

  function CatchBlock(kind: int, terminator: nat): seq<Instr> {
    [Print(InCatch(kind)), SetFlag(CAUGHT), Branch(terminator)]
  }

  function CatchBlocks(kinds: seq<int>, terminator: nat): (r: Code)
    ensures |r| == |kinds|
    ensures forall i :: 0 <= i < |kinds| ==> r[i] == CatchBlock(kinds[i], terminator)
  {
    if kinds == [] then []
    else CatchBlocks(kinds[..|kinds| - 1], terminator) + [CatchBlock(kinds[|kinds| - 1], terminator)]
  }

  /** The function that catches the given types, in this order. */
  function CatchWrapped(kinds: seq<int>): (code: Code)
    ensures |code| == FIRST_CATCH + |kinds|
  {
    [EntryBlock(),
     [Print(NoException), Branch(FINALLY)],
     ExceptionBlock(kinds),
     [Print(TypeReceived), SwitchSelector(FINALLY, Routes(|kinds|))],
     [Print(ForeignReceived), Branch(FINALLY)],
     [Resume],
     [Print(InEnd), DeleteStored, Return],
     FinallyBlock(END, RESUME)]
    + CatchBlocks(kinds, FINALLY)
  }

  /** The function when only its slots, its finally block and its catch blocks are there. */
  function Skeleton(kinds: seq<int>): Code {
    [Slots(), [], [], [], [], [], [], FinallyBlock(END, RESUME)] + CatchBlocks(kinds, FINALLY)
  }

  // ----- The generator -----

  /** The code with one more case in the switch at its end. */
  function WithCase(code: seq<Instr>, value: nat, target: nat): seq<Instr>
    requires code != [] && var last := code[|code| - 1]; last.SwitchFlag? || last.SwitchSelector?
  {
    var last := code[|code| - 1];
    code[..|code| - 1] + [last.(cases := last.cases + [(value, target)])]
  }

  lemma WithCaseIs(first: Instr, last: Instr, value: nat, target: nat)
    requires last.SwitchFlag? || last.SwitchSelector?
    ensures WithCase([first, last], value, target) == [first, last.(cases := last.cases + [(value, target)])]
  {
  }

  lemma LastChanged(code: seq<Instr>, last: Instr, last': Instr)
    ensures (code + [last])[|code| := last'] == code + [last']
  {
  }

  /** The builder and the function under construction. */
  class Builder {
    var blocks: Code
    var insert: nat

    constructor ()
      ensures blocks == []
    {
      blocks := [];
      insert := 0;
    }

    method CreateBlock() returns (block: nat)
      modifies this`blocks
      ensures blocks == old(blocks) + [[]] && block == |old(blocks)|
    {
      block := |blocks|;
      blocks := blocks + [[]];
    }

    method SetInsertPoint(block: nat)
      modifies this`insert
      ensures insert == block
    {
      insert := block;
    }

    method Emit(instr: Instr)
      requires insert < |blocks|
      modifies this`blocks
      ensures blocks == old(blocks)[insert := old(blocks)[insert] + [instr]]
    {
      blocks := blocks[insert := blocks[insert] + [instr]];
    }

    /** A slot at the head of the entry block, with its initial value if there is one. */
    method CreateEntryBlockAlloca(slot: Slot, initWith: Option<nat>)
      requires blocks != []
      modifies this`blocks
      ensures blocks == old(blocks)[ENTRY := SlotCode(slot, initWith) + old(blocks)[ENTRY]]
    {
      var code := [Alloca(slot)];
      if initWith.Some? {
        code := code + [StoreInitial(slot, initWith.value)];
      }
      assert code == SlotCode(slot, initWith);
      blocks := blocks[ENTRY := code + blocks[ENTRY]];
    }

    /** `addCase` on the switch at the end of the insert block. */
    method AddCase(value: nat, target: nat)
      requires insert < |blocks| && blocks[insert] != []
      requires var last := blocks[insert][|blocks[insert]| - 1]; last.SwitchFlag? || last.SwitchSelector?
      modifies this`blocks
      ensures blocks == old(blocks)[insert := WithCase(old(blocks)[insert], value, target)]
    {
      blocks := blocks[insert := WithCase(blocks[insert], value, target)];
    }

    method CreateFinallyBlock(terminator: nat, unwindResume: nat) returns (block: nat)
      requires blocks != []
      modifies this
      ensures block == |old(blocks)|
      ensures blocks == old(blocks)[ENTRY := Slots() + old(blocks)[ENTRY]] + [FinallyBlock(terminator, unwindResume)]
    {
      ghost var before := blocks;
      CreateEntryBlockAlloca(CaughtFlag, Some(NOT_THROWN));
      CreateEntryBlockAlloca(ExceptionStorage, Some(0));
      CreateEntryBlockAlloca(ResultStorage, Some(0));
      assert blocks[ENTRY] == Slots() + before[ENTRY];
      block := AppendFinally(terminator, unwindResume);
    }

    /** The finally block itself: its message, and the switch with its two cases. */
    method AppendFinally(terminator: nat, unwindResume: nat) returns (block: nat)
      modifies this
      ensures block == |old(blocks)| && blocks == old(blocks) + [FinallyBlock(terminator, unwindResume)]
    {
      hide WithCase;
      ghost var before := blocks;
      block := CreateBlock();
      SetInsertPoint(block);
      Emit(Print(InFinally));
      Emit(SwitchFlag(terminator, []));
      assert blocks[insert] == [Print(InFinally), SwitchFlag(terminator, [])];
      WithCaseIs(Print(InFinally), SwitchFlag(terminator, []), CAUGHT, terminator);
      AddCase(CAUGHT, terminator);
      ghost var one := [(CAUGHT, terminator)];
      assert [] + one == one;
      assert blocks[insert] == [Print(InFinally), SwitchFlag(terminator, one)];
      WithCaseIs(Print(InFinally), SwitchFlag(terminator, one), THROWN, unwindResume);
      assert one + [(THROWN, unwindResume)] == [(CAUGHT, terminator), (THROWN, unwindResume)];
      AddCase(THROWN, unwindResume);
      assert blocks == before + [FinallyBlock(terminator, unwindResume)];
    }

    method CreateCatchBlock(kind: int, terminator: nat) returns (block: nat)
      modifies this
      ensures block == |old(blocks)| && blocks == old(blocks) + [CatchBlock(kind, terminator)]
    {
      ghost var before := blocks;
      block := CreateBlock();
      SetInsertPoint(block);
      Emit(Print(InCatch(kind)));
      Emit(SetFlag(CAUGHT));
      Emit(Branch(terminator));
      assert blocks[insert] == CatchBlock(kind, terminator);
      assert blocks == before + [CatchBlock(kind, terminator)];
    }

    /** Emits a whole block that is still empty. */
    method Fill(block: nat, code: seq<Instr>)
      requires block < |blocks|
      modifies this
      ensures blocks == old(blocks)[block := old(blocks)[block] + code] && insert == block
    {
      SetInsertPoint(block);
      ghost var before := blocks;
      var i := 0;
      assert before[block] + code[..0] == before[block];
      while i < |code|
        invariant i <= |code| && insert == block
        invariant blocks == before[block := before[block] + code[..i]]
      {
        Emit(code[i]);
        assert before[block] + code[..i] + [code[i]] == before[block] + code[..i + 1];
        i := i + 1;
      }
      assert code[..i] == code;
    }

    /** The cases of the router: selector `i` to the `i`-th catch block. */
    method AddRoutes(catchBlocks: seq<nat>)
      requires insert < |blocks| && blocks[insert] == [Print(TypeReceived), SwitchSelector(FINALLY, [])]
      requires forall i :: 0 <= i < |catchBlocks| ==> catchBlocks[i] == FIRST_CATCH + i
      modifies this`blocks
      ensures blocks == old(blocks)[insert := [Print(TypeReceived), SwitchSelector(FINALLY, Routes(|catchBlocks|))]]
    {
      ghost var before := blocks;
      var i := 1;
      while i <= |catchBlocks|
        invariant 1 <= i <= |catchBlocks| + 1
        invariant blocks == before[insert := [Print(TypeReceived), SwitchSelector(FINALLY, Routes(i - 1))]]
      {
        WithCaseIs(Print(TypeReceived), SwitchSelector(FINALLY, Routes(i - 1)), i, FIRST_CATCH + i - 1);
        AddCase(i, catchBlocks[i - 1]);
        i := i + 1;
      }
    }

    /** One catch block for each type. */
    method CreateCatchBlocks(kinds: seq<int>, finallyBlock: nat) returns (catchBlocks: seq<nat>)
      modifies this
      ensures blocks == old(blocks) + CatchBlocks(kinds, finallyBlock)
      ensures |catchBlocks| == |kinds| && forall i :: 0 <= i < |kinds| ==> catchBlocks[i] == |old(blocks)| + i
    {
      ghost var before := blocks;
      catchBlocks := [];
      var i := 0;
      while i < |kinds|
        invariant i <= |kinds| && |catchBlocks| == i
        invariant blocks == before + CatchBlocks(kinds[..i], finallyBlock)
        invariant forall j :: 0 <= j < i ==> catchBlocks[j] == |before| + j
      {
        var block := CreateCatchBlock(kinds[i], finallyBlock);
        catchBlocks := catchBlocks + [block];
        assert kinds[..i + 1][..i] == kinds[..i];
        i := i + 1;
      }
      assert kinds[..i] == kinds;
    }

    /** The landing pad, at the insert point: marked as a cleanup, then one clause for each type. */
    method CreateLandingPad(kinds: seq<int>)
      requires insert < |blocks|
      modifies this`blocks
      ensures blocks == old(blocks)[insert := old(blocks)[insert] + [LandingPad(true, kinds)]]
    {
      ghost var before := blocks;
      ghost var code := blocks[insert];
      Emit(LandingPad(false, []));
      var at := |blocks[insert]| - 1;
      SetCleanup(at, true);
      var i := 0;
      LastChanged(code, LandingPad(false, []), LandingPad(true, []));
      assert kinds[..0] == [];
      while i < |kinds|
        invariant i <= |kinds| && insert == old(insert)
        invariant blocks == before[insert := code + [LandingPad(true, kinds[..i])]]
      {
        AddClause(at, kinds[i]);
        LastChanged(code, LandingPad(true, kinds[..i]), LandingPad(true, kinds[..i + 1]));
        assert kinds[..i] + [kinds[i]] == kinds[..i + 1];
        i := i + 1;
      }
      assert kinds[..i] == kinds;
    }

    /** `setCleanup` and `addClause` on the landing pad at index `at` of the insert block. */
    method SetCleanup(at: nat, cleanup: bool)
      requires insert < |blocks| && at < |blocks[insert]| && blocks[insert][at].LandingPad?
      modifies this`blocks
      ensures blocks == old(blocks)[insert := old(blocks)[insert][at := old(blocks[insert][at]).(cleanup := cleanup)]]
    {
      blocks := blocks[insert := blocks[insert][at := blocks[insert][at].(cleanup := cleanup)]];
    }

    method AddClause(at: nat, kind: int)
      requires insert < |blocks| && at < |blocks[insert]| && blocks[insert][at].LandingPad?
      modifies this`blocks
      ensures var pad := old(blocks[insert][at]);
              blocks ==
                old(blocks)[insert := old(blocks)[insert][at := LandingPad(pad.cleanup, pad.clauses + [kind])]]
    {
      var pad := blocks[insert][at];
      blocks := blocks[insert := blocks[insert][at := pad.(clauses := pad.clauses + [kind])]];
    }

    /** Everything but the catch blocks and the finally block. */
    method FillBlocks(kinds: seq<int>, finallyBlock: nat, catchBlocks: seq<nat>)
      requires finallyBlock == FINALLY && blocks == Skeleton(kinds)
      requires |catchBlocks| == |kinds| && forall i :: 0 <= i < |kinds| ==> catchBlocks[i] == FIRST_CATCH + i
      modifies this
      ensures blocks == CatchWrapped(kinds)
    {
      hide Routes, CatchBlocks, Slots;
      Fill(ENTRY, [Invoke(NORMAL, EXCEPTION)]);
      Fill(END, [Print(InEnd), DeleteStored, Return]);
      Fill(NORMAL, [Print(NoException), Branch(finallyBlock)]);
      Fill(RESUME, [Resume]);
      SetInsertPoint(EXCEPTION);
      CreateLandingPad(kinds);
      Fill(EXCEPTION, [KeepResult, KeepException, SetFlag(THROWN), BranchIfOurs(ROUTE, EXTERNAL)]);
      Fill(EXTERNAL, [Print(ForeignReceived), Branch(finallyBlock)]);
      Fill(ROUTE, [Print(TypeReceived), SwitchSelector(finallyBlock, [])]);
      AddRoutes(catchBlocks);
      assert forall b :: 0 <= b < |blocks| ==> blocks[b] == CatchWrapped(kinds)[b];
    }

    method CreateCatchWrappedInvokeFunction(kinds: seq<int>)
      requires blocks == []
      modifies this
      ensures blocks == CatchWrapped(kinds)
    {
      hide CatchBlocks, CatchWrapped, FinallyBlock, Slots;
      var entryBlock := CreateBlock();
      var normalBlock := CreateBlock();
      var exceptionBlock := CreateBlock();
      var exceptionRouteBlock := CreateBlock();
      var externalExceptionBlock := CreateBlock();
      var unwindResumeBlock := CreateBlock();
      var endBlock := CreateBlock();
      var finallyBlock := CreateFinallyBlock(endBlock, unwindResumeBlock);
      var catchBlocks := CreateCatchBlocks(kinds, finallyBlock);
      assert blocks[ENTRY] == Slots();
      assert blocks == Skeleton(kinds);
      FillBlocks(kinds, finallyBlock, catchBlocks);
    }
  }
}
