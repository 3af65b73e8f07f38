/** What becomes of an exception over a stack of generated functions, from the throw on: who
    catches it, and who deletes its object. */
module ExceptionOutcomes {

  import opened ExceptionLeb128
  import opened ExceptionActions
  import opened ExceptionObjects
  import opened ExceptionLsda
  import opened ExceptionCatchFunction
  import opened ExceptionActivations
  import opened ExceptionFrames
  import opened ExceptionUnwind

  // ----- The innermost handler wins -----

  ghost predicate AllDescribed(mem: seq<Byte>, frames: seq<Frame>) {
    forall k :: 0 <= k < |frames| ==> Described(mem, frames[k])
  }

  /** The innermost frame from `k` on with a clause for the exception, or the harness. */
  function Innermost(frames: seq<Frame>, k: nat, t: Thrown): (h: nat)
    requires Live(t) && k <= |frames|
    ensures k <= h <= |frames|
    ensures h < |frames| ==> Ours(t) && t.objects[t.address].kind in frames[h].kinds
    ensures forall j :: k <= j < h ==> Ours(t) ==> t.objects[t.address].kind !in frames[j].kinds
    decreases |frames| - k
  {
    if k == |frames| || ClauseFor(frames[k], t) > 0 then k else Innermost(frames, k + 1, t)
  }

  lemma {:induction false} SearchFindsInnermost(mem: seq<Byte>, frames: seq<Frame>, k: nat, t: Thrown)
    requires AllDescribed(mem, frames) && Live(t) && k <= |frames|
    ensures SearchPhase(mem, frames, k, t) == Innermost(frames, k, t)
    decreases |frames| - k
  {
    hide Defined, Personality, Described, ClauseOf;
    if k < |frames| {
      FrameVerdicts(mem, frames[k], t);
      SearchFindsInnermost(mem, frames, k + 1, t);
    }
  }

  /** What frame `j` does when frame `h` is the handler. */
  function EventFor(f: Frame, j: nat, h: nat, t: Thrown): Event
    requires Live(t)
  {
    if j > h then Ran(Returns, Route(f.kinds, Returns), Said(f.kinds, Returns), Returned, [0])
    else
      var how := Unwinds(Landing(t.address, ClauseFor(f, t)), Ours(t));
      if j == h then Ran(how, Route(f.kinds, how), Said(f.kinds, how), Returned, [t.address])
      else Ran(how, Route(f.kinds, how), Said(f.kinds, how), Resumed(how.landing), [])
  }

  /** The events of the frames from `k` on are the ones due when frame `h` is the handler. */
  predicate Follows(events: seq<Event>, frames: seq<Frame>, k: nat, h: nat, t: Thrown)
    requires Live(t) && k <= |frames|
  {
    |events| == |frames| - k && forall j :: k <= j < |frames| ==> events[j - k] == EventFor(frames[j], j, h, t)
  }

  lemma FollowsThen(rest: seq<Event>, frames: seq<Frame>, k: nat, h: nat, t: Thrown)
    requires Live(t) && k < |frames| && Follows(rest, frames, k + 1, h, t)
    ensures Follows([EventFor(frames[k], k, h, t)] + rest, frames, k, h, t)
  {
    hide EventFor;
    var events := [EventFor(frames[k], k, h, t)] + rest;
    forall j | k <= j < |frames| ensures events[j - k] == EventFor(frames[j], j, h, t) {
      if j > k {
        assert events[j - k] == rest[j - (k + 1)];
      }
    }
  }

  lemma FollowsEmpty(frames: seq<Frame>, h: nat, t: Thrown)
    requires Live(t)
    ensures Follows([], frames, |frames|, h, t)
  {
  }

  lemma ActivationRuns(kinds: seq<int>, how: Invoked)
    ensures var (l, exit) := Activation(kinds, how);
            && l.entered == Route(kinds, how) && l.printed == Said(kinds, how)
            && exit == (if how.Returns? || Handled(kinds, how) then Returned else Resumed(how.landing))
            && l.deleted == (if how.Returns? then [0] else if Handled(kinds, how) then [how.landing.address] else [])
  {
    var l := Local({}, 0, 0, Landing(0, 0), [], [], []);
    EntrySuspends(kinds, l, how, |CatchWrapped(kinds)|);
    FinallyOnce(kinds, l, how, |CatchWrapped(kinds)| + 1);
  }

  lemma DeletedOne(heap: Heap, address: nat)
    ensures DeletedAll(heap, [address]) == Deleted(heap, address) && DeletedAll(heap, []) == heap
    ensures Deleted(heap, 0) == heap
  {
    assert [address][1..] == [];
  }

  lemma {:induction false} CallersRun(frames: seq<Frame>, k: nat, h: nat, t: Thrown, heap: Heap)
    requires Live(t) && h < k <= |frames|
    ensures var w := CallersReturn(frames, k, heap);
            w.heap == heap && w.final == AllReturned && Follows(w.events, frames, k, h, t)
    decreases |frames| - k
  {
    hide Activation, DeletedAll, Deleted, Route, Said, Follows;
    FollowsEmpty(frames, h, t);
    if k < |frames| {
      ActivationRuns(frames[k].kinds, Returns);
      DeletedOne(heap, 0);
      CallersRun(frames, k + 1, h, t, heap);
      FollowsThen(CallersReturn(frames, k + 1, heap).events, frames, k, h, t);
    }
  }

  /** A frame without a clause for the exception runs its finally block and resumes; the
      exception and the heap are as before. */
  lemma {:induction false} PassesOn(mem: seq<Byte>, frames: seq<Frame>, k: nat, target: nat, h: nat, heap: Heap,
                                    t: Thrown)
    requires k < |frames| && Described(mem, frames[k]) && Live(t) && t.objects == heap.objects
    requires t.exceptionClass == heap.objects[t.address].exceptionClass
    requires ClauseFor(frames[k], t) == 0 && k < h
    ensures CleanupPhase(mem, frames, k, target, t.address, heap) ==
              Then(EventFor(frames[k], k, h, t), CleanupPhase(mem, frames, k + 1, target, t.address, heap))
  {
    hide Defined, Personality, Described, ClauseFor, Activation, DeletedAll, Deleted, Route, Said;
    var f := frames[k];
    FrameVerdicts(mem, f, t);
    var how := Unwinds(Landing(t.address, 0), Ours(t));
    ActivationRuns(f.kinds, how);
    DeletedOne(heap, t.address);
    assert t == Thrown(heap.objects[t.address].exceptionClass, t.address, heap.objects);
  }

  /** A frame with a clause runs the catch block of that clause, deletes the exception and
      returns. */
  lemma {:induction false} Catches(mem: seq<Byte>, frames: seq<Frame>, k: nat, target: nat, heap: Heap, t: Thrown)
    requires k < |frames| && Described(mem, frames[k]) && Live(t) && t.objects == heap.objects
    requires t.exceptionClass == heap.objects[t.address].exceptionClass
    requires ClauseFor(frames[k], t) > 0
    ensures CleanupPhase(mem, frames, k, target, t.address, heap) ==
              Then(EventFor(frames[k], k, k, t), CallersReturn(frames, k + 1, Deleted(heap, t.address)))
  {
    hide Defined, Personality, Described, Activation, DeletedAll, Deleted, Route, Said, CallersReturn;
    var f := frames[k];
    FrameVerdicts(mem, f, t);
    var how := Unwinds(Landing(t.address, ClauseFor(f, t)), Ours(t));
    ActivationRuns(f.kinds, how);
    DeletedOne(heap, t.address);
    assert t == Thrown(heap.objects[t.address].exceptionClass, t.address, heap.objects);
  }

  lemma HarnessCatches(mem: seq<Byte>, frames: seq<Frame>, address: nat, heap: Heap)
    requires address in heap.objects
    ensures CleanupPhase(mem, frames, |frames|, |frames|, address, heap)
         == World(CleanedUp(heap, address), [], HarnessCaught)
  {
  }

  lemma {:induction false} CleanupRuns(mem: seq<Byte>, frames: seq<Frame>, k: nat, heap: Heap, t: Thrown)
    requires AllDescribed(mem, frames) && k <= |frames| && Live(t) && t.objects == heap.objects
    requires t.exceptionClass == heap.objects[t.address].exceptionClass
    ensures var h := Innermost(frames, k, t);
            var w := CleanupPhase(mem, frames, k, h, t.address, heap);
            && w.heap == (if h < |frames| then Deleted(heap, t.address) else CleanedUp(heap, t.address))
            && w.final == (if h < |frames| then AllReturned else HarnessCaught)
            && Follows(w.events, frames, k, h, t)
    decreases |frames| - k
  {
    hide Described, EventFor, ClauseFor, CallersReturn, CleanupPhase, Deleted, CleanedUp, Follows;
    var h := Innermost(frames, k, t);
    if k == |frames| {
      FollowsEmpty(frames, h, t);
      HarnessCatches(mem, frames, t.address, heap);
    } else if ClauseFor(frames[k], t) > 0 {
      Catches(mem, frames, k, h, heap, t);
      CallersRun(frames, k + 1, h, t, Deleted(heap, t.address));
      FollowsThen(CallersReturn(frames, k + 1, Deleted(heap, t.address)).events, frames, k, h, t);
    } else {
      PassesOn(mem, frames, k, h, h, heap, t);
      CleanupRuns(mem, frames, k + 1, heap, t);
      FollowsThen(CleanupPhase(mem, frames, k + 1, h, t.address, heap).events, frames, k, h, t);
    }
  }

  /** For any stack of described frames and any live exception: the innermost frame with a
      clause for its type catches it, in the catch block of its first such clause. Every
      frame inside it runs its finally block and resumes; every frame outside it returns
      normally. With no such frame, and for a foreign exception, all frames resume and the
      harness catches it. The search phase points at the same frame. */
  lemma {:induction false} InnermostHandlerWins(mem: seq<Byte>, frames: seq<Frame>, address: nat, heap: Heap)
    requires AllDescribed(mem, frames) && address != 0 && address in heap.objects
    ensures var t := Thrown(heap.objects[address].exceptionClass, address, heap.objects);
            var h := Innermost(frames, 0, t);
            var w := Raise(mem, frames, address, heap);
            && SearchPhase(mem, frames, 0, t) == h
            && w.final == (if h < |frames| then AllReturned else HarnessCaught)
            && Follows(w.events, frames, 0, h, t)
            && w.heap == (if h < |frames| then Deleted(heap, address) else CleanedUp(heap, address))
  {
    hide CleanupPhase, SearchPhase, Follows, Deleted, CleanedUp, Described;
    var t := Thrown(heap.objects[address].exceptionClass, address, heap.objects);
    SearchFindsInnermost(mem, frames, 0, t);
    CleanupRuns(mem, frames, 0, heap, t);
  }

  // ----- From the throw on -----

  /** The argument that makes the throwing function throw a foreign exception: `~0`. */
  const NATIVE_THROW: int := -1

  /** The throwing function: one of our exceptions of the given type, or a foreign one, of a
      class that is not ours. */
  function ThrownHeap(kind: int, address: nat, foreignClass: nat, heap: Heap): Heap {
    if kind == NATIVE_THROW then
      heap.(objects := heap.objects[address := Exception(foreignClass, 0, OtherCleanup, 0, 0)])
    else Created(heap, address, kind)
  }

  /** One of our exceptions of type `kind` is caught by frame `h`: the frames inside it run their
      finally block and resume, frame `h` runs the catch block of its first clause for the type
      and deletes the exception, and the frames outside it return normally. */
  predicate CaughtAt(events: seq<Event>, frames: seq<Frame>, h: nat, address: nat, kind: int) {
    && |events| == |frames|
    && forall j :: 0 <= j < |frames| ==>
         events[j] ==
         if j < h then
           Ran(Unwinds(Landing(address, 0), true), [ENTRY, EXCEPTION, ROUTE, FINALLY, RESUME],
               [TypeReceived, InFinally], Resumed(Landing(address, 0)), [])
         else if j > h then
           Ran(Returns, [ENTRY, NORMAL, FINALLY, END], [NoException, InFinally, InEnd], Returned, [0])
         else
           var clause := ClauseOf(frames[h].kinds, kind);
           Ran(Unwinds(Landing(address, clause), true),
               [ENTRY, EXCEPTION, ROUTE, FIRST_CATCH + clause - 1, FINALLY, END],
               [TypeReceived, InCatch(kind), InFinally, InEnd], Returned, [address])
  }

  /** What the throwing function throws, over any described stack: an exception of ours is
      caught by the innermost frame that lists its type, and by the harness if and only if no
      frame does. */
  lemma {:induction false} ThrownIsCaught(mem: seq<Byte>, frames: seq<Frame>, kind: int, address: nat,
                                          foreignClass: nat, heap: Heap, h: nat)
    requires AllDescribed(mem, frames) && address != 0 && kind != NATIVE_THROW
    requires h <= |frames| && (h < |frames| ==> kind in frames[h].kinds)
    requires forall j :: 0 <= j < h ==> kind !in frames[j].kinds
    ensures var w := Raise(mem, frames, address, ThrownHeap(kind, address, foreignClass, heap));
            && CaughtAt(w.events, frames, h, address, kind)
            && w.final == if h < |frames| then AllReturned else HarnessCaught
  {
    hide Raise, Innermost, Described, SearchPhase, Deleted, CleanedUp, ClauseOf;
    var thrown := ThrownHeap(kind, address, foreignClass, heap);
    var t := Thrown(thrown.objects[address].exceptionClass, address, thrown.objects);
    InnermostHandlerWins(mem, frames, address, thrown);
    assert Innermost(frames, 0, t) == h;
    var events := Raise(mem, frames, address, thrown).events;
    forall j | 0 <= j < |frames| ensures events[j] == EventFor(frames[j], j, h, t) {
      assert events[j - 0] == EventFor(frames[j], j, h, t);
    }
  }

  /** A foreign exception passes through every frame by way of its finally block. */
  lemma {:induction false} ForeignPassesBy(mem: seq<Byte>, frames: seq<Frame>, address: nat, foreignClass: nat,
                                           heap: Heap)
    requires AllDescribed(mem, frames) && address != 0 && foreignClass != OUR_BASE_EXCEPTION_CLASS
    ensures var w := Raise(mem, frames, address, ThrownHeap(NATIVE_THROW, address, foreignClass, heap));
            && w.final == HarnessCaught && |w.events| == |frames|
            && forall j :: 0 <= j < |frames| ==>
                 w.events[j] ==
                 Ran(Unwinds(Landing(address, 0), false), [ENTRY, EXCEPTION, EXTERNAL, FINALLY, RESUME],
                     [ForeignReceived, InFinally], Resumed(Landing(address, 0)), [])
  {
    hide Raise, Innermost, Described, SearchPhase, Deleted, CleanedUp, ClauseOf;
    var thrown := ThrownHeap(NATIVE_THROW, address, foreignClass, heap);
    var t := Thrown(foreignClass, address, thrown.objects);
    InnermostHandlerWins(mem, frames, address, thrown);
    var events := Raise(mem, frames, address, thrown).events;
    forall j | 0 <= j < |frames| ensures events[j] == EventFor(frames[j], j, |frames|, t) {
      assert events[j - 0] == EventFor(frames[j], j, |frames|, t);
    }
  }

  /** The pointers that the frames of a run have handed to `deleteOurException`, in order. */
  function Deletions(events: seq<Event>): seq<nat> {
    if events == [] then []
    else (if events[0].Ran? then events[0].deleted else []) + Deletions(events[1..])
  }

  lemma {:induction false} DeletedInTurn(heap: Heap, a: seq<nat>, b: seq<nat>)
    ensures DeletedAll(heap, a + b) == DeletedAll(DeletedAll(heap, a), b)
    decreases |a|
  {
    if a == [] {
      assert a + b == b;
    } else {
      assert (a + b)[0] == a[0] && (a + b)[1..] == a[1..] + b;
      DeletedInTurn(Deleted(heap, a[0]), a[1..], b);
    }
  }

  lemma ThenDeletes(event: Event, rest: World)
    ensures Deletions(Then(event, rest).events) == (if event.Ran? then event.deleted else []) + Deletions(rest.events)
    ensures event.Skipped? ==> Deletions(Then(event, rest).events) == Deletions(rest.events)
  {
    assert ([event] + rest.events)[1..] == rest.events;
  }

  lemma {:induction false} CallersDelete(frames: seq<Frame>, k: nat, heap: Heap)
    ensures var w := CallersReturn(frames, k, heap);
            w.final != HarnessCaught && w.heap == DeletedAll(heap, Deletions(w.events))
    decreases |frames| - k
  {
    hide Activation, DeletedAll;
    DeletedNone(heap);
    if k < |frames| {
      var (l, exit) := Activation(frames[k].kinds, Returns);
      var heap' := DeletedAll(heap, l.deleted);
      var rest := if exit == Returned then CallersReturn(frames, k + 1, heap') else World(heap', [], Fatal);
      ThenDeletes(Ran(Returns, l.entered, l.printed, exit, l.deleted), rest);
      DeletedInTurn(heap, l.deleted, Deletions(rest.events));
      DeletedNone(heap');
      CallersDelete(frames, k + 1, heap');
    }
  }

  lemma DeletedNone(heap: Heap)
    ensures DeletedAll(heap, []) == heap && Deletions([]) == []
  {
  }

  /** Whatever the frames and their tables are: unless the harness has caught the exception,
      the heap is what the deletions of the frames, in order, have made of it. */
  lemma {:induction false} HeapFollowsDeletions(mem: seq<Byte>, frames: seq<Frame>, k: nat, target: nat, address: nat,
                                                heap: Heap)
    ensures var w := CleanupPhase(mem, frames, k, target, address, heap);
            w.final != HarnessCaught ==> w.heap == DeletedAll(heap, Deletions(w.events))
    decreases |frames| - k
  {
    hide Activation, DeletedAll, Defined, Personality, CallersReturn, Deletions;
    DeletedNone(heap);
    if address in heap.objects && k < |frames| {
      var f := frames[k];
      var t := Thrown(heap.objects[address].exceptionClass, address, heap.objects);
      if Defined(mem, f.lsda, t, f.ip, f.regionStart) {
        match Personality(mem, f.lsda, false, t, f.ip, f.regionStart) {
          case Install(exception, selector, ip) =>
            if ip == f.pad {
              var how := Unwinds(Landing(exception, selector), Ours(t));
              var (l, exit) := Activation(f.kinds, how);
              var heap' := DeletedAll(heap, l.deleted);
              var rest :=
                match exit
                case Returned => CallersReturn(frames, k + 1, heap')
                case Resumed(landing) => CleanupPhase(mem, frames, k + 1, target, landing.address, heap')
                case _ => World(heap', [], Fatal);
              DeletedNone(heap');
              CallersDelete(frames, k + 1, heap');
              if exit.Resumed? {
                HeapFollowsDeletions(mem, frames, k + 1, target, exit.landing.address, heap');
              }
              if rest.final != HarnessCaught {
                FrameDeletes(f.kinds, how, heap, rest);
              }
            }
          case Continue =>
            ThenDeletes(Skipped, CleanupPhase(mem, frames, k + 1, target, address, heap));
            HeapFollowsDeletions(mem, frames, k + 1, target, address, heap);
          case _ =>
        }
      }
    }
  }

  /** One frame that runs, in front of whatever follows it. */
  lemma {:induction false} FrameDeletes(kinds: seq<int>, how: Invoked, heap: Heap, rest: World)
    requires rest.heap == DeletedAll(DeletedAll(heap, Activation(kinds, how).0.deleted), Deletions(rest.events))
    ensures var (l, exit) := Activation(kinds, how);
            rest.heap == DeletedAll(heap, Deletions(Then(Ran(how, l.entered, l.printed, exit, l.deleted), rest).events))
  {
    hide Activation, DeletedAll, Deletions, Then;
    var (l, exit) := Activation(kinds, how);
    ThenDeletes(Ran(how, l.entered, l.printed, exit, l.deleted), rest);
    DeletedInTurn(heap, l.deleted, Deletions(rest.events));
  }

  /** Conservation over any stack run: the object made by `createOurException` is freed
      exactly once, and the heap is otherwise as before the throw; a foreign object is never
      freed here. No run deletes anything that is not live. */
  lemma {:induction false} ExceptionConserved(mem: seq<Byte>, frames: seq<Frame>, kind: int, address: nat,
                                              foreignClass: nat, heap: Heap)
    requires AllDescribed(mem, frames) && address != 0 && address !in heap.objects
    requires foreignClass != OUR_BASE_EXCEPTION_CLASS && !heap.corrupt
    ensures var thrown := ThrownHeap(kind, address, foreignClass, heap);
            var w := Raise(mem, frames, address, thrown);
            && w.final != Fatal
            && w.heap == if kind == NATIVE_THROW then thrown else Heap(heap.objects, heap.freed + [address], false)
  {
    hide Raise, Innermost, Follows, Described, SearchPhase;
    InnermostHandlerWins(mem, frames, address, ThrownHeap(kind, address, foreignClass, heap));
    if kind != NATIVE_THROW {
      DeleteUndoesCreate(heap, address, kind);
    }
  }

  lemma {:induction false} DeletionsFollow(frames: seq<Frame>, k: nat, h: nat, t: Thrown, events: seq<Event>)
    requires Live(t) && k <= |frames| && h <= |frames| && Follows(events, frames, k, h, t)
    ensures Deletions(events) ==
              if h < k then Nulls(|frames| - k)
              else if h < |frames| then [t.address] + Nulls(|frames| - h - 1)
              else []
    decreases |frames| - k
  {
    hide Route, Said, ClauseFor;
    if k < |frames| {
      assert events[0] == events[k - k] == EventFor(frames[k], k, h, t);
      FollowsRest(events, frames, k, h, t);
      DeletionsFollow(frames, k + 1, h, t, events[1..]);
    }
  }

  lemma FollowsRest(events: seq<Event>, frames: seq<Frame>, k: nat, h: nat, t: Thrown)
    requires Live(t) && k < |frames| && Follows(events, frames, k, h, t)
    ensures Follows(events[1..], frames, k + 1, h, t)
  {
    hide EventFor;
    forall j | k + 1 <= j < |frames| ensures events[1..][j - (k + 1)] == EventFor(frames[j], j, h, t) {
      assert events[1..][j - (k + 1)] == events[j - k];
    }
  }

  /** Who frees it: over any stack run, only the catching frame hands the object to
      `deleteOurException`. Frames that resume hand over nothing, and frames that saw no
      exception hand over null. */
  lemma {:induction false} OnlyTheCatcherDeletes(mem: seq<Byte>, frames: seq<Frame>, address: nat, heap: Heap)
    requires AllDescribed(mem, frames) && address != 0 && address in heap.objects
    ensures var h := Innermost(frames, 0, Thrown(heap.objects[address].exceptionClass, address, heap.objects));
            Deletions(Raise(mem, frames, address, heap).events) ==
              if h < |frames| then [address] + Nulls(|frames| - h - 1) else []
  {
    hide Raise, Innermost, Follows, AllDescribed, Deletions, Nulls, SearchPhase, Deleted, CleanedUp;
    var t := Thrown(heap.objects[address].exceptionClass, address, heap.objects);
    InnermostHandlerWins(mem, frames, address, heap);
    DeletionsFollow(frames, 0, Innermost(frames, 0, t), t, Raise(mem, frames, address, heap).events);
  }

  function Nulls(n: nat): seq<nat> {
    if n == 0 then [] else [0] + Nulls(n - 1)
  }
}
