/** One activation of a generated function: it invokes its callee, and the callee returns or
    an exception lands. */
module ExceptionActivations {

  import opened ExceptionCatchFunction
  import opened Wrappers

  /** What the unwinder leaves at a landing pad. */
  datatype Landing = Landing(address: nat, selector: nat)

  /** How the invoke ends; `ours` says whether the exception object carries our class. */
  datatype Invoked = Returns | Unwinds(landing: Landing, ours: bool)

  /** The slots allocated so far and what they hold, the messages printed, the pointers handed to
      `deleteOurException`, and the blocks entered. */
  datatype Local = Local(slots: set<Slot>, flag: nat, storage: nat, stored: Landing, printed: seq<Message>,
                         deleted: seq<nat>, entered: seq<nat>)

  const ALL_SLOTS: set<Slot> := {CaughtFlag, ExceptionStorage, ResultStorage}

  datatype Exit = Goto(block: nat) | Returned | Resumed(landing: Landing) | Broken

  // ----- Running the code -----

  function Target(value: nat, otherwise: nat, cases: seq<(nat, nat)>): nat {
    if cases == [] then otherwise
    else if cases[0].0 == value then cases[0].1
    else Target(value, otherwise, cases[1..])
  }

  function After(instr: Instr, l: Local, how: Invoked): Local {
    match instr
    case Alloca(slot) => l.(slots := l.slots + {slot})
    case Print(message) => l.(printed := l.printed + [message])
    case StoreInitial(CaughtFlag, value) => l.(flag := value)
    case StoreInitial(ExceptionStorage, value) => l.(storage := value)
    case StoreInitial(ResultStorage, value) => l.(stored := Landing(value, value))
    case SetFlag(state) => l.(flag := state)
    case KeepResult => if how.Unwinds? then l.(stored := how.landing) else l
    case KeepException => if how.Unwinds? then l.(storage := how.landing.address) else l
    case DeleteStored => l.(deleted := l.deleted + [l.storage])
    case _ => l
  }

  function ExitOf(instr: Instr, l: Local, how: Invoked): Exit {
    match instr
    case Invoke(normal, unwind) => Goto(if how.Returns? then normal else unwind)
    case Branch(target) => Goto(target)
    case SwitchFlag(otherwise, cases) => Goto(Target(l.flag, otherwise, cases))
    case SwitchSelector(otherwise, cases) =>
      if how.Unwinds? then Goto(Target(how.landing.selector, otherwise, cases)) else Broken
    case BranchIfOurs(ours, foreign) => if how.Unwinds? then Goto(if how.ours then ours else foreign) else Broken
    case Return => Returned
    case Resume => Resumed(l.stored)
    case _ => Broken
  }

  predicate Ends(instr: Instr) {
    || instr.Invoke? || instr.Branch? || instr.SwitchFlag? || instr.SwitchSelector?
    || instr.BranchIfOurs? || instr.Return? || instr.Resume?
  }

  /** A slot is allocated once, and before it is used; only an exception lands. */
  predicate Ready(instr: Instr, l: Local, how: Invoked) {
    match instr
    case Alloca(slot) => slot !in l.slots
    case StoreInitial(slot, _) => slot in l.slots
    case SetFlag(_) | SwitchFlag(_, _) => CaughtFlag in l.slots
    case KeepResult | Resume => ResultStorage in l.slots
    case KeepException | DeleteStored => ExceptionStorage in l.slots
    case LandingPad(_, _) => how.Unwinds?
    case _ => true
  }

  function RunBlock(code: seq<Instr>, l: Local, how: Invoked): (Local, Exit) {
    if code == [] || !Ready(code[0], l, how) then (l, Broken)
    else if Ends(code[0]) then (l, ExitOf(code[0], l, how))
    else RunBlock(code[1..], After(code[0], l, how), how)
  }

  /** Runs at most `blocks` blocks; a run cut short is still on its way to a block. */
  function Run(code: Code, block: nat, l: Local, how: Invoked, blocks: nat): (Local, Exit)
    decreases blocks
  {
    if blocks == 0 then (l, Goto(block))
    else if block >= |code| then (l, Broken)
    else
      var (l', exit) := RunBlock(code[block], l.(entered := l.entered + [block]), how);
      if exit.Goto? then Run(code, exit.block, l', how, blocks - 1) else (l', exit)
  }

  // ----- One block -----

  lemma RunSlot(slot: Slot, value: nat, rest: seq<Instr>, l: Local, how: Invoked)
    requires slot !in l.slots
    ensures RunBlock(SlotCode(slot, Some(value)) + rest, l, how)
        == RunBlock(rest, After(StoreInitial(slot, value), l.(slots := l.slots + {slot}), how), how)
  {
    var code := SlotCode(slot, Some(value)) + rest;
    RunStep(code, l, how);
    assert code[1..][1..] == rest;
    RunStep(code[1..], l.(slots := l.slots + {slot}), how);
  }

  /** An activation that the entry block has set up. */
  function Prepared(l: Local): Local {
    l.(slots := ALL_SLOTS, flag := NOT_THROWN, storage := 0, stored := Landing(0, 0))
  }

  lemma RunEntry(l: Local, how: Invoked)
    requires l.slots == {}
    ensures RunBlock(EntryBlock(), l, how) == (Prepared(l), Goto(if how.Returns? then NORMAL else EXCEPTION))
  {
    hide RunBlock, SlotCode;
    var last := [Invoke(NORMAL, EXCEPTION)];
    var flag := SlotCode(CaughtFlag, Some(NOT_THROWN)) + last;
    var storage := SlotCode(ExceptionStorage, Some(0)) + flag;
    assert EntryBlock() == SlotCode(ResultStorage, Some(0)) + storage;
    RunSlot(ResultStorage, 0, storage, l, how);
    var l1 := l.(slots := {} + {ResultStorage}, stored := Landing(0, 0));
    RunSlot(ExceptionStorage, 0, flag, l1, how);
    var l2 := l1.(slots := l1.slots + {ExceptionStorage}, storage := 0);
    RunSlot(CaughtFlag, NOT_THROWN, last, l2, how);
    assert l2.slots + {CaughtFlag} == ALL_SLOTS;
    RunStep(last, Prepared(l), how);
  }

  lemma RunStep(code: seq<Instr>, l: Local, how: Invoked)
    requires code != [] && Ready(code[0], l, how)
    ensures RunBlock(code, l, how) ==
              if Ends(code[0]) then (l, ExitOf(code[0], l, how)) else RunBlock(code[1..], After(code[0], l, how), how)
  {
  }

  lemma RunException(kinds: seq<int>, l: Local, how: Invoked)
    requires how.Unwinds? && l.slots == ALL_SLOTS
    ensures RunBlock(ExceptionBlock(kinds), l, how) ==
              (l.(flag := THROWN, storage := how.landing.address, stored := how.landing),
               Goto(if how.ours then ROUTE else EXTERNAL))
  {
    var code := ExceptionBlock(kinds);
    RunStep(code, l, how);
    var l1 := l.(stored := how.landing);
    assert code[1..][1..] == code[2..] && code[2..][1..] == code[3..] && code[3..][1..] == code[4..];
    RunStep(code[1..], l, how);
    RunStep(code[2..], l1, how);
    var l2 := l1.(storage := how.landing.address);
    RunStep(code[3..], l2, how);
    RunStep(code[4..], l2.(flag := THROWN), how);
  }

  lemma RunFinally(l: Local, how: Invoked)
    requires l.slots == ALL_SLOTS
    ensures RunBlock(FinallyBlock(END, RESUME), l, how)
         == (l.(printed := l.printed + [InFinally]), Goto(if l.flag == THROWN then RESUME else END))
  {
    RunPrinted(InFinally, SwitchFlag(END, [(CAUGHT, END), (THROWN, RESUME)]), l, how);
    var cases := [(CAUGHT, END), (THROWN, RESUME)];
    assert cases[1..] == [(THROWN, RESUME)];
    assert Target(l.flag, END, cases) == if l.flag == CAUGHT then END else Target(l.flag, END, cases[1..]);
    assert Target(l.flag, END, cases[1..]) == if l.flag == THROWN then RESUME else Target(l.flag, END, cases[1..][1..]);
  }

  lemma RunPrinted(message: Message, instr: Instr, l: Local, how: Invoked)
    requires Ends(instr) && Ready(instr, l, how)
    ensures RunBlock([Print(message), instr], l, how)
         == (l.(printed := l.printed + [message]), ExitOf(instr, l, how))
  {
    RunStep([Print(message), instr], l, how);
    assert [Print(message), instr][1..] == [instr];
    RunStep([instr], l.(printed := l.printed + [message]), how);
  }

  lemma RunMiddle(message: Message, middle: Instr, last: Instr, l: Local, how: Invoked)
    requires !Ends(middle) && !middle.Alloca? && Ends(last) && Ready(middle, l, how) && Ready(last, l, how)
    ensures var l' := After(middle, l.(printed := l.printed + [message]), how);
            RunBlock([Print(message), middle, last], l, how) == (l', ExitOf(last, l', how))
  {
    var code := [Print(message), middle, last];
    RunStep(code, l, how);
    assert code[1..] == [middle, last] && [middle, last][1..] == [last];
    var l1 := l.(printed := l.printed + [message]);
    RunStep(code[1..], l1, how);
    RunStep([last], After(middle, l1, how), how);
  }

  lemma RoutesAt(n: nat, i: nat)
    requires i < n
    ensures Routes(n)[i] == (i + 1, FIRST_CATCH + i)
  {
  }

  lemma {:induction false} TargetFirst(value: nat, otherwise: nat, cases: seq<(nat, nat)>, i: nat)
    requires i <= |cases| && (i < |cases| ==> cases[i].0 == value)
    requires forall j :: 0 <= j < i ==> cases[j].0 != value
    ensures Target(value, otherwise, cases) == if i < |cases| then cases[i].1 else otherwise
  {
    if i > 0 {
      TargetFirst(value, otherwise, cases[1..], i - 1);
    }
  }

  /** The router sends selector `i` to the `i`-th catch block and anything else straight to
      the finally block. */
  lemma RouterTarget(n: nat, selector: nat)
    ensures Target(selector, FINALLY, Routes(n)) == if 1 <= selector <= n then FIRST_CATCH + selector - 1 else FINALLY
  {
    var i := if 1 <= selector <= n then selector - 1 else n;
    forall j | 0 <= j < n ensures Routes(n)[j] == (j + 1, FIRST_CATCH + j) {
      RoutesAt(n, j);
    }
    TargetFirst(selector, FINALLY, Routes(n), i);
  }

  // ----- Whole activations -----

  /** The exception belongs to one of the function's own clauses. */
  predicate Handled(kinds: seq<int>, how: Invoked) {
    how.Unwinds? && how.ours && 1 <= how.landing.selector <= |kinds|
  }

  /** The blocks an activation goes through. */
  function Route(kinds: seq<int>, how: Invoked): seq<nat> {
    if how.Returns? then [ENTRY, NORMAL, FINALLY, END]
    else if !how.ours then [ENTRY, EXCEPTION, EXTERNAL, FINALLY, RESUME]
    else if Handled(kinds, how) then [ENTRY, EXCEPTION, ROUTE, FIRST_CATCH + how.landing.selector - 1, FINALLY, END]
    else [ENTRY, EXCEPTION, ROUTE, FINALLY, RESUME]
  }

  /** What an activation prints. */
  function Said(kinds: seq<int>, how: Invoked): seq<Message> {
    if how.Returns? then [NoException, InFinally, InEnd]
    else if !how.ours then [ForeignReceived, InFinally]
    else if Handled(kinds, how) then [TypeReceived, InCatch(kinds[how.landing.selector - 1]), InFinally, InEnd]
    else [TypeReceived, InFinally]
  }

  lemma Enter(code: Code, block: nat, l: Local, how: Invoked, blocks: nat, l': Local, exit: Exit)
    requires block < |code| && blocks > 0
    requires RunBlock(code[block], l.(entered := l.entered + [block]), how) == (l', exit)
    ensures Run(code, block, l, how, blocks) ==
              if exit.Goto? then Run(code, exit.block, l', how, blocks - 1) else (l', exit)
  {
  }

  /** From the finally block on: one more pass through it, and then the end block, which
      deletes what the storage slot holds, or the resume block, which passes on what landed. */
  lemma FinishRuns(kinds: seq<int>, l: Local, how: Invoked, blocks: nat)
    requires blocks >= 2 && l.slots == ALL_SLOTS
    ensures Run(CatchWrapped(kinds), FINALLY, l, how, blocks) ==
              if l.flag == THROWN then
                (l.(entered := l.entered + [FINALLY, RESUME], printed := l.printed + [InFinally]), Resumed(l.stored))
              else
                (l.(entered := l.entered + [FINALLY, END], printed := l.printed + [InFinally, InEnd],
                    deleted := l.deleted + [l.storage]), Returned)
  {
    hide Run, RunBlock, FinallyBlock, EntryBlock, ExceptionBlock, Routes;
    var code := CatchWrapped(kinds);
    var l0 := l.(entered := l.entered + [FINALLY]);
    RunFinally(l0, how);
    var l1 := l0.(printed := l0.printed + [InFinally]);
    var next := if l.flag == THROWN then RESUME else END;
    Enter(code, FINALLY, l, how, blocks, l1, Goto(next));
    var l2 := l1.(entered := l1.entered + [next]);
    assert l1.entered + [next] == l.entered + [FINALLY, next];
    if l.flag == THROWN {
      RunStep([Resume], l2, how);
      Enter(code, RESUME, l1, how, blocks - 1, l2, Resumed(l.stored));
    } else {
      RunMiddle(InEnd, DeleteStored, Return, l2, how);
      var l3 := l2.(printed := l2.printed + [InEnd], deleted := l2.deleted + [l2.storage]);
      Enter(code, END, l1, how, blocks - 1, l3, Returned);
      assert l.printed + [InFinally] + [InEnd] == l.printed + [InFinally, InEnd];
    }
  }

  /** The slots and the trace behind the exception block. */
  function Landed(l: Local, landing: Landing): Local {
    l.(slots := ALL_SLOTS, flag := THROWN, storage := landing.address, stored := landing,
       entered := l.entered + [ENTRY] + [EXCEPTION])
  }

  lemma NormalRuns(kinds: seq<int>, l: Local, blocks: nat)
    requires blocks >= 4 && l.slots == {}
    ensures var (l', exit) := Run(CatchWrapped(kinds), ENTRY, l, Returns, blocks);
            && exit == Returned && l'.entered == l.entered + Route(kinds, Returns)
            && l'.printed == l.printed + Said(kinds, Returns) && l'.deleted == l.deleted + [0]
  {
    hide Run, RunBlock, FinallyBlock, EntryBlock, ExceptionBlock, Routes;
    var code := CatchWrapped(kinds);
    var l1 := l.(entered := l.entered + [ENTRY]);
    RunEntry(l1, Returns);
    var l2 := Prepared(l1);
    Enter(code, ENTRY, l, Returns, blocks, l2, Goto(NORMAL));
    var l3 := l2.(entered := l2.entered + [NORMAL]);
    RunPrinted(NoException, Branch(FINALLY), l3, Returns);
    var l4 := l3.(printed := l3.printed + [NoException]);
    Enter(code, NORMAL, l2, Returns, blocks - 1, l4, Goto(FINALLY));
    FinishRuns(kinds, l4, Returns, blocks - 2);
    assert l.entered + [ENTRY] + [NORMAL] + [FINALLY, END] == l.entered + [ENTRY, NORMAL, FINALLY, END];
    assert l.printed + [NoException] + [InFinally, InEnd] == l.printed + [NoException, InFinally, InEnd];
  }

  /** An exception lands: up to the router or the foreign block. */
  lemma LandingRuns(kinds: seq<int>, l: Local, how: Invoked, blocks: nat)
    requires blocks >= 3 && how.Unwinds? && l.slots == {}
    ensures Run(CatchWrapped(kinds), ENTRY, l, how, blocks) ==
              Run(CatchWrapped(kinds), if how.ours then ROUTE else EXTERNAL, Landed(l, how.landing), how, blocks - 2)
  {
    hide Run, RunBlock, FinallyBlock, EntryBlock, ExceptionBlock, Routes;
    var code := CatchWrapped(kinds);
    var l1 := l.(entered := l.entered + [ENTRY]);
    RunEntry(l1, how);
    var l2 := Prepared(l1);
    Enter(code, ENTRY, l, how, blocks, l2, Goto(EXCEPTION));
    var l3 := l2.(entered := l2.entered + [EXCEPTION]);
    RunException(kinds, l3, how);
    Enter(code, EXCEPTION, l2, how, blocks - 1, Landed(l, how.landing), Goto(if how.ours then ROUTE else EXTERNAL));
  }

  lemma ForeignRuns(kinds: seq<int>, l: Local, how: Invoked, blocks: nat)
    requires blocks >= 5 && how.Unwinds? && !how.ours && l.slots == {}
    ensures var (l', exit) := Run(CatchWrapped(kinds), ENTRY, l, how, blocks);
            && exit == Resumed(how.landing) && l'.entered == l.entered + Route(kinds, how)
            && l'.printed == l.printed + Said(kinds, how) && l'.deleted == l.deleted
  {
    hide Run, RunBlock, FinallyBlock, EntryBlock, ExceptionBlock, Routes;
    var code := CatchWrapped(kinds);
    LandingRuns(kinds, l, how, blocks);
    var l4 := Landed(l, how.landing);
    var l5 := l4.(entered := l4.entered + [EXTERNAL]);
    RunPrinted(ForeignReceived, Branch(FINALLY), l5, how);
    var l6 := l5.(printed := l5.printed + [ForeignReceived]);
    Enter(code, EXTERNAL, l4, how, blocks - 2, l6, Goto(FINALLY));
    FinishRuns(kinds, l6, how, blocks - 3);
    assert l.entered + [ENTRY] + [EXCEPTION] + [EXTERNAL] + [FINALLY, RESUME]
        == l.entered + [ENTRY, EXCEPTION, EXTERNAL, FINALLY, RESUME];
    assert l.printed + [ForeignReceived] + [InFinally] == l.printed + [ForeignReceived, InFinally];
  }

  /** The slots and the trace behind the router. */
  function Routed(l: Local, landing: Landing): Local {
    var landed := Landed(l, landing);
    landed.(entered := landed.entered + [ROUTE], printed := landed.printed + [TypeReceived])
  }

  lemma RouterRuns(kinds: seq<int>, l: Local, how: Invoked, blocks: nat)
    requires blocks >= 4 && how.Unwinds? && how.ours && l.slots == {}
    ensures Run(CatchWrapped(kinds), ENTRY, l, how, blocks) ==
              Run(CatchWrapped(kinds), if Handled(kinds, how) then FIRST_CATCH + how.landing.selector - 1 else FINALLY,
                  Routed(l, how.landing), how, blocks - 3)
  {
    hide Run, RunBlock, FinallyBlock, EntryBlock, ExceptionBlock, Routes, Target;
    var code := CatchWrapped(kinds);
    LandingRuns(kinds, l, how, blocks);
    var l4 := Landed(l, how.landing);
    RunPrinted(TypeReceived, SwitchSelector(FINALLY, Routes(|kinds|)), l4.(entered := l4.entered + [ROUTE]), how);
    RouterTarget(|kinds|, how.landing.selector);
    Enter(code, ROUTE, l4, how, blocks - 2, Routed(l, how.landing),
          Goto(if Handled(kinds, how) then FIRST_CATCH + how.landing.selector - 1 else FINALLY));
  }

  lemma OursRuns(kinds: seq<int>, l: Local, how: Invoked, blocks: nat)
    requires blocks >= 6 && how.Unwinds? && how.ours && l.slots == {}
    ensures var (l', exit) := Run(CatchWrapped(kinds), ENTRY, l, how, blocks);
            && l'.entered == l.entered + Route(kinds, how) && l'.printed == l.printed + Said(kinds, how)
            && exit == (if Handled(kinds, how) then Returned else Resumed(how.landing))
            && l'.deleted == l.deleted + (if Handled(kinds, how) then [how.landing.address] else [])
  {
    hide Run, RunBlock, FinallyBlock, EntryBlock, ExceptionBlock, Routes;
    var code := CatchWrapped(kinds);
    RouterRuns(kinds, l, how, blocks);
    var l5 := Routed(l, how.landing);
    if Handled(kinds, how) {
      var clause := FIRST_CATCH + how.landing.selector - 1;
      var kind := kinds[how.landing.selector - 1];
      var l6 := l5.(entered := l5.entered + [clause]);
      assert code[clause] == CatchBlock(kind, FINALLY);
      RunMiddle(InCatch(kind), SetFlag(CAUGHT), Branch(FINALLY), l6, how);
      var l7 := l6.(flag := CAUGHT, printed := l6.printed + [InCatch(kind)]);
      Enter(code, clause, l5, how, blocks - 3, l7, Goto(FINALLY));
      FinishRuns(kinds, l7, how, blocks - 4);
      assert l.entered + [ENTRY] + [EXCEPTION] + [ROUTE] + [clause] + [FINALLY, END]
          == l.entered + [ENTRY, EXCEPTION, ROUTE, clause, FINALLY, END];
      assert l.printed + [TypeReceived] + [InCatch(kind)] + [InFinally, InEnd]
          == l.printed + [TypeReceived, InCatch(kind), InFinally, InEnd];
    } else {
      FinishRuns(kinds, l5, how, blocks - 3);
      assert l.entered + [ENTRY] + [EXCEPTION] + [ROUTE] + [FINALLY, RESUME]
          == l.entered + [ENTRY, EXCEPTION, ROUTE, FINALLY, RESUME];
      assert l.printed + [TypeReceived] + [InFinally] == l.printed + [TypeReceived, InFinally];
      assert l5.deleted == l.deleted + [];
    }
  }

  lemma RouteShape(kinds: seq<int>, how: Invoked)
    ensures var r := Route(kinds, how);
            |r| >= 2 && forall i :: 0 <= i < |r| ==> (r[i] == FINALLY <==> i == |r| - 2)
  {
  }

  /** An activation that has not begun; its slots may hold anything. */
  predicate Fresh(l: Local) {
    l.slots == {} && l.entered == [] && l.printed == [] && l.deleted == []
  }

  /** Every activation, whatever the stack slots hold at first: it passes through the finally
      block exactly once, next to last. It returns if nothing was thrown or one of its
      clauses has caught the exception, and then hands the exception, or null, to
      `deleteOurException`; otherwise it resumes with what landed and deletes nothing. The one
      catch block that it runs, if any, is that of the type of the clause selected. */
  lemma FinallyOnce(kinds: seq<int>, l: Local, how: Invoked, blocks: nat)
    requires blocks >= 6 && Fresh(l)
    ensures var (l', exit) := Run(CatchWrapped(kinds), ENTRY, l, how, blocks);
            && l'.entered == Route(kinds, how) && l'.printed == Said(kinds, how)
            && |l'.entered| >= 2
            && (forall i :: 0 <= i < |l'.entered| ==> (l'.entered[i] == FINALLY <==> i == |l'.entered| - 2))
            && (forall kind :: InCatch(kind) in l'.printed <==>
                                 Handled(kinds, how) && kind == kinds[how.landing.selector - 1])
            && exit == (if how.Returns? || Handled(kinds, how) then Returned else Resumed(how.landing))
            && l'.deleted == (if how.Returns? then [0] else if Handled(kinds, how) then [how.landing.address] else [])
  {
    hide Run, CatchWrapped, Route;
    RouteShape(kinds, how);
    if how.Returns? {
      NormalRuns(kinds, l, blocks);
    } else if how.ours {
      OursRuns(kinds, l, how, blocks);
    } else {
      ForeignRuns(kinds, l, how, blocks);
    }
    assert [] + Route(kinds, how) == Route(kinds, how) && [] + Said(kinds, how) == Said(kinds, how);
  }

  // ----- Stopped at the invoke -----

  /** The slots and the trace of an activation that waits for its callee. */
  function Suspended(): Local {
    Local(ALL_SLOTS, NOT_THROWN, 0, Landing(0, 0), [], [], [ENTRY])
  }

  /** Where the callee leaves it: behind the call, or at the landing pad. */
  function Continuation(how: Invoked): nat {
    if how.Returns? then NORMAL else EXCEPTION
  }

  /** An activation, whatever its slots hold at first, runs its entry block and waits; from
      there it goes on at the continuation, with the slots as the entry block left them. */
  lemma EntrySuspends(kinds: seq<int>, l: Local, how: Invoked, blocks: nat)
    requires Fresh(l)
    ensures Run(CatchWrapped(kinds), ENTRY, l, how, blocks + 1) ==
              Run(CatchWrapped(kinds), Continuation(how), Suspended(), how, blocks)
  {
    hide RunBlock, EntryBlock, ExceptionBlock, FinallyBlock, Routes;
    var l1 := l.(entered := l.entered + [ENTRY]);
    assert l1.entered == [ENTRY];
    RunEntry(l1, how);
    Enter(CatchWrapped(kinds), ENTRY, l, how, blocks + 1, Suspended(), Goto(Continuation(how)));
  }

  // ----- Every path through the graph -----

  function Targets(cases: seq<(nat, nat)>): set<nat> {
    set c | c in cases :: c.1
  }

  /** The blocks that the last instruction of a block may go to. */
  function Successors(code: seq<Instr>): set<nat> {
    if code == [] then {}
    else match code[|code| - 1]
         case Invoke(normal, unwind) => {normal, unwind}
         case Branch(target) => {target}
         case SwitchFlag(otherwise, cases) => {otherwise} + Targets(cases)
         case SwitchSelector(otherwise, cases) => {otherwise} + Targets(cases)
         case BranchIfOurs(ours, foreign) => {ours, foreign}
         case _ => {}
  }

  /** A path from the entry to a block without successors, whatever the branches decide. */
  ghost predicate CompletePath(code: Code, path: seq<nat>) {
    && path != [] && path[0] == ENTRY
    && (forall i :: 0 <= i < |path| ==> path[i] < |code|)
    && (forall i :: 0 <= i < |path| - 1 ==> path[i + 1] in Successors(code[path[i]]))
    && Successors(code[path[|path| - 1]]) == {}
  }

  lemma RouteSuccessors(n: nat)
    ensures forall b :: b in Targets(Routes(n)) ==> b >= FIRST_CATCH
  {
    forall b | b in Targets(Routes(n)) ensures b >= FIRST_CATCH {
      var c :| c in Routes(n) && c.1 == b;
      var i :| 0 <= i < n && Routes(n)[i] == c;
      RoutesAt(n, i);
    }
  }

  /** Only the finally block leads to the two exits, and to nothing else. */
  lemma OnlyFinallyLeaves(kinds: seq<int>, b: nat)
    requires b < FIRST_CATCH + |kinds|
    ensures var next := Successors(CatchWrapped(kinds)[b]);
            && (next == {} <==> b == END || b == RESUME)
            && (b == FINALLY ==> next == {END, RESUME})
            && (b != FINALLY ==> END !in next && RESUME !in next)
  {
    RouteSuccessors(|kinds|);
    hide Routes;
    var code := CatchWrapped(kinds)[b];
    if b == FINALLY {
      assert Targets([(CAUGHT, END), (THROWN, RESUME)]) == {END, RESUME} by {
        assert (CAUGHT, END) in [(CAUGHT, END), (THROWN, RESUME)] &&
            (THROWN, RESUME) in [(CAUGHT, END), (THROWN, RESUME)];
      }
    } else if b >= FIRST_CATCH {
      assert code == CatchBlock(kinds[b - FIRST_CATCH], FINALLY);
      assert FINALLY in Successors(code);
    } else if b == ENTRY {
      assert NORMAL in Successors(code);
    } else if b == NORMAL || b == EXTERNAL || b == ROUTE {
      assert FINALLY in Successors(code);
    } else if b == EXCEPTION {
      assert ROUTE in Successors(code);
    }
  }

  /** On the graph itself: whatever its branches decide, every way from the entry to an exit
      goes through the finally block exactly once, and directly from there to the exit. */
  lemma EveryPathThroughFinally(kinds: seq<int>, path: seq<nat>)
    requires CompletePath(CatchWrapped(kinds), path)
    ensures |path| >= 2
    ensures forall i :: 0 <= i < |path| ==> (path[i] == FINALLY <==> i == |path| - 2)
  {
    hide CatchWrapped, Successors;
    var last := |path| - 1;
    OnlyFinallyLeaves(kinds, path[last]);
    assert path[last] == END || path[last] == RESUME;
    OnlyFinallyLeaves(kinds, path[last - 1]);
    assert path[last - 1 + 1] in Successors(CatchWrapped(kinds)[path[last - 1]]);
    forall i | 0 <= i < last - 1 ensures path[i] != FINALLY {
      OnlyFinallyLeaves(kinds, path[i]);
      OnlyFinallyLeaves(kinds, path[i + 1]);
      assert path[i + 1 + 1] in Successors(CatchWrapped(kinds)[path[i + 1]]);
    }
  }
}
