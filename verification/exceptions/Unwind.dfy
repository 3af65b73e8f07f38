/** An exception passes through a stack of generated functions in two phases, search and cleanup.
    The unwinder calls the personality routine on each frame, innermost first; below the
    outermost frame stands a harness that catches everything. */
module ExceptionUnwind {

  import opened ExceptionLeb128
  import opened ExceptionObjects
  import opened ExceptionLsda
  import opened ExceptionCatchFunction
  import opened ExceptionActivations
  import opened ExceptionFrames

  /** What one frame did: nothing, or the blocks it entered, what it printed, how it ended, and
      the pointers it handed to `deleteOurException`. */
  datatype Event =
    Skipped | Ran(how: Invoked, entered: seq<nat>, printed: seq<Message>, exit: Exit, deleted: seq<nat>)

  datatype Final = AllReturned | HarnessCaught | Fatal

  /** How a stack run ends: the heap, what each frame did, innermost first, and the end. */
  datatype World = World(heap: Heap, events: seq<Event>, final: Final)

  function Then(event: Event, rest: World): World {
    rest.(events := [event] + rest.events)
  }

  /** The rest of an activation, from where its callee leaves it: behind the call, or at the
      block its landing pad leads to. */
  function Activation(kinds: seq<int>, how: Invoked): (Local, Exit) {
    Run(CatchWrapped(kinds), Continuation(how), Suspended(), how, |CatchWrapped(kinds)|)
  }

  /** The search phase: the frame whose personality reports a handler, or the harness. */
  ghost function SearchPhase(mem: seq<Byte>, frames: seq<Frame>, k: nat, t: Thrown): nat
    decreases |frames| - k
  {
    if k >= |frames| then |frames|
    else
      var f := frames[k];
      if && Defined(mem, f.lsda, t, f.ip, f.regionStart)
         && Personality(mem, f.lsda, true, t, f.ip, f.regionStart) == Handler
      then k
      else SearchPhase(mem, frames, k + 1, t)
  }

  /** The callers of a function that has returned: no exception for them. */
  function CallersReturn(frames: seq<Frame>, k: nat, heap: Heap): World
    decreases |frames| - k
  {
    if k >= |frames| then World(heap, [], AllReturned)
    else
      var (l, exit) := Activation(frames[k].kinds, Returns);
      var heap' := DeletedAll(heap, l.deleted);
      Then(Ran(Returns, l.entered, l.printed, exit, l.deleted),
           if exit == Returned then CallersReturn(frames, k + 1, heap') else World(heap', [], Fatal))
  }

  /** The cleanup phase from frame `k` on. A frame whose landing pad is installed runs from
      there; when it resumes, the phase goes on with its caller. The harness catches what the
      search phase has promised it, and lets the exception clean itself up. */
  ghost function CleanupPhase(mem: seq<Byte>, frames: seq<Frame>, k: nat, target: nat, address: nat, heap: Heap): World
    decreases |frames| - k
  {
    if address !in heap.objects then World(heap, [], Fatal)
    else if k >= |frames| then
      if target == |frames| then World(CleanedUp(heap, address), [], HarnessCaught) else World(heap, [], Fatal)
    else
      var f := frames[k];
      var t := Thrown(heap.objects[address].exceptionClass, address, heap.objects);
      if !Defined(mem, f.lsda, t, f.ip, f.regionStart) then World(heap, [], Fatal)
      else match Personality(mem, f.lsda, false, t, f.ip, f.regionStart)
           case Continue =>
             if k == target then World(heap, [], Fatal)
             else Then(Skipped, CleanupPhase(mem, frames, k + 1, target, address, heap))
           case Install(exception, selector, ip) =>
             if ip != f.pad then World(heap, [], Fatal)
             else
               var how := Unwinds(Landing(exception, selector), Ours(t));
               var (l, exit) := Activation(f.kinds, how);
               var heap' := DeletedAll(heap, l.deleted);
               Then(Ran(how, l.entered, l.printed, exit, l.deleted),
                    match exit
                    case Returned => CallersReturn(frames, k + 1, heap')
                    case Resumed(landing) => CleanupPhase(mem, frames, k + 1, target, landing.address, heap')
                    case _ => World(heap', [], Fatal))
           case _ => World(heap, [], Fatal)
  }

  ghost function Raise(mem: seq<Byte>, frames: seq<Frame>, address: nat, heap: Heap): World
    requires address in heap.objects
  {
    var t := Thrown(heap.objects[address].exceptionClass, address, heap.objects);
    CleanupPhase(mem, frames, 0, SearchPhase(mem, frames, 0, t), address, heap)
  }
}
