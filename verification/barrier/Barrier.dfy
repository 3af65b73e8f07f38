/** The `WaitForThreads` barrier: a mutex, a condition variable and two counters, driven by
    any number of threads whose steps interleave freely. */
module WaitForThreadsBarrier {
  import opened Wrappers

  /** What one thread calls. */
  datatype Call = Block | Release(num: nat)

  /** Where a thread stands in its call. `Counted` is inside `block`, behind the increment.
      `Broken` is behind a failed assertion. */
  datatype Place = Outside | Locked | Counted | Sleeping | Woken | Leaving | Returned | Broken

  datatype Thread = Thread(call: Call, place: Place)

  /** The counters, the holder of the mutex, and the threads. */
  datatype State = State(n: nat, waitFor: nat, owner: Option<nat>, threads: seq<Thread>)

  // ----- The critical sections -----

  /** What a critical section leaves in the counters, and whether it broadcasts or sleeps. */
  datatype Outcome = Outcome(n: nat, waitFor: nat, broadcast: bool)

  function AfterCount(n: nat, waitFor: nat): Outcome {
    if waitFor > 0 && n == waitFor then Outcome(0, 0, true) else Outcome(n, waitFor, false)
  }

  function AfterRelease(n: nat, waitFor: nat, num: nat): Outcome {
    if n >= num then Outcome(0, 0, true) else Outcome(n, num, false)
  }

  class WaitForThreads {
    var n: nat
    var waitFor: nat

    constructor ()
      ensures n == 0 && waitFor == 0
    {
      n := 0;
      waitFor := 0;
    }

    /** The body of `block` under the mutex. The result says whether the thread broadcasts
        and leaves, or waits on the condition. */
    method BlockBody() returns (broadcast: bool)
      requires waitFor > 0 ==> n < waitFor
      modifies this
      ensures var r := AfterCount(old(n) + 1, old(waitFor));
              n == r.n && waitFor == r.waitFor && broadcast == r.broadcast
      ensures waitFor > 0 ==> n < waitFor
    {
      n := n + 1;
      assert waitFor == 0 || n <= waitFor;
      broadcast := waitFor > 0 && n == waitFor;
      if broadcast {
        UnblockThreads();
      }
    }

    /** The body of `releaseThreads` under the mutex. */
    method ReleaseBody(num: nat) returns (broadcast: bool)
      modifies this
      ensures var r := AfterRelease(old(n), old(waitFor), num);
              n == r.n && waitFor == r.waitFor && broadcast == r.broadcast
      ensures waitFor > 0 ==> n < waitFor
    {
      broadcast := n >= num;
      if broadcast {
        UnblockThreads();
      } else {
        waitFor := num;
      }
    }

    method UnblockThreads()
      modifies this
      ensures n == 0 && waitFor == 0
    {
      n := 0;
      waitFor := 0;
    }
  }

  // ----- Interleaved steps -----

  /** One choice of the scheduler: let a thread go on, or wake a sleeper for no reason. */
  datatype Choice = Go(t: nat) | Spurious(t: nat)

  predicate Enabled(s: State, c: Choice) {
    && c.t < |s.threads|
    && match c
       case Go(t) =>
         match s.threads[t].place {
           case Outside | Woken => s.owner == None
           case Locked | Counted | Leaving => s.owner == Some(t)
           case _ => false
         }
       case Spurious(t) => s.threads[t].place == Sleeping
  }

  function At(threads: seq<Thread>, t: nat, p: Place): seq<Thread> {
    if t < |threads| then threads[t := threads[t].(place := p)] else threads
  }

  function Awake(th: Thread): Thread {
    if th.place == Sleeping then th.(place := Woken) else th
  }

  /** pthread_cond_broadcast. */
  function WakeAll(threads: seq<Thread>): (r: seq<Thread>)
    ensures |r| == |threads| && forall t :: 0 <= t < |threads| ==> r[t] == Awake(threads[t])
  {
    if threads == [] then [] else [Awake(threads[0])] + WakeAll(threads[1..])
  }

  /** A critical section ends: broadcast and go on to unlock, or sleep and free the mutex. */
  function Settle(s: State, t: nat, r: Outcome): State {
    if r.broadcast then State(r.n, r.waitFor, s.owner, At(WakeAll(s.threads), t, Leaving))
    else State(r.n, r.waitFor, None, At(s.threads, t, Sleeping))
  }

  function Do(s: State, c: Choice): State
    requires Enabled(s, c)
  {
    var t := c.t;
    var th := s.threads[t];
    if c.Spurious? then s.(threads := At(s.threads, t, Woken))
    else match th.place
      case Outside => s.(owner := Some(t), threads := At(s.threads, t, Locked))
      case Locked =>
        if th.call.Block? then s.(n := s.n + 1, threads := At(s.threads, t, Counted))
        else Settle(s, t, AfterRelease(s.n, s.waitFor, th.call.num))
      case Counted =>
        if s.waitFor == 0 || s.n <= s.waitFor then Settle(s, t, AfterCount(s.n, s.waitFor))
        else s.(threads := At(s.threads, t, Broken))
      case Woken => s.(owner := Some(t), threads := At(s.threads, t, Leaving))
      case _ => s.(owner := None, threads := At(s.threads, t, Returned))
  }

  /** The scheduler's choices are possible one after the other. */
  predicate Possible(s: State, run: seq<Choice>)
    decreases |run|
  {
    run == [] || (Enabled(s, run[0]) && Possible(Do(s, run[0]), run[1..]))
  }

  function Exec(s: State, run: seq<Choice>): State
    requires Possible(s, run)
    decreases |run|
  {
    if run == [] then s else Exec(Do(s, run[0]), run[1..])
  }

  predicate Initial(s: State) {
    s.n == 0 && s.waitFor == 0 && s.owner == None && forall t :: 0 <= t < |s.threads| ==> s.threads[t].place == Outside
  }
}
