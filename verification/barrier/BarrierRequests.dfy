/** Several releasers: whose number counts, and exactly when a turn frees the sleepers. */
module WaitForThreadsRequests {

  import opened WaitForThreadsBarrier
  import opened WaitForThreadsSafety
  import opened WaitForThreadsRelease
  import opened Wrappers

  /** What is asked for after one step: the number of a releaser that goes to sleep; nothing
      once a thread leaves the critical section without having slept. */
  function AskedAfter(s: State, c: Choice, asked: nat): nat
    requires Enabled(s, c)
  {
    var th, place := s.threads[c.t], Do(s, c).threads[c.t].place;
    if th.call.Release? && place == Sleeping then th.call.num
    else if (th.place == Locked || th.place == Counted) && place == Leaving then 0
    else asked
  }

  /** The number that the last releaser to go to sleep has asked for, or 0 if everybody has been
      woken since. */
  function Asked(s: State, run: seq<Choice>, asked: nat): nat
    requires Possible(s, run)
    decreases |run|
  {
    if run == [] then asked else Asked(Do(s, run[0]), run[1..], AskedAfter(s, run[0], asked))
  }

  lemma AskedStep(s: State, c: Choice)
    requires Exclusive(s) && Enabled(s, c)
    ensures Do(s, c).waitFor == AskedAfter(s, c, s.waitFor)
  {
  }

  /** `waitFor` is what the last releaser to go to sleep has asked for, on any run, spurious
      wakeups included. */
  lemma {:induction false} WaitForIsAsked(s: State, run: seq<Choice>)
    requires Exclusive(s) && Possible(s, run)
    ensures Exec(s, run).waitFor == Asked(s, run, s.waitFor)
    decreases |run|
  {
    if run != [] {
      AskedStep(s, run[0]);
      ExclusiveStep(s, run[0]);
      hide Do, Enabled, Exclusive, AskedAfter;
      WaitForIsAsked(Do(s, run[0]), run[1..]);
    }
  }

  /** The turn of `t` wakes everybody who sleeps, and `t` goes on to leave. */
  predicate Frees(s: State, s': State, t: nat) {
    && |s'.threads| == |s.threads|
    && forall u: nat :: u < |s.threads| ==>
         s'.threads[u] ==
         if u == t then s.threads[u].(place := Leaving)
         else if s.threads[u].place == Sleeping then s.threads[u].(place := Woken)
         else s.threads[u]
  }

  /** The turn of `t` sends it to sleep and does nothing to the others. */
  predicate Sleeps(s: State, s': State, t: nat) {
    t < |s.threads| && s'.threads == s.threads[t := s.threads[t].(place := Sleeping)]
  }

  lemma TurnFrees(s: State, t: nat)
    requires Exclusive(s) && Ordered(s) && Enabled(s, Go(t))
    ensures s.threads[t].place == Counted ==>
              if s.waitFor > 0 && s.n == s.waitFor then Frees(s, Do(s, Go(t)), t) else Sleeps(s, Do(s, Go(t)), t)
    ensures s.threads[t].place == Locked && s.threads[t].call.Release? ==>
              if s.n >= s.threads[t].call.num then Frees(s, Do(s, Go(t)), t) else Sleeps(s, Do(s, Go(t)), t)
  {
  }

  /** After any run without spurious wakeups, for any callers: a blocker that comes in frees
      everybody exactly if it completes the number that the last releaser to go to sleep has
      asked for, and a releaser exactly if as many blockers sleep as it asks for itself;
      otherwise it goes to sleep. Of the releasers that a blocker frees, exactly those that asked
      for no more than the last one have as many blocked as they asked for. */
  lemma FreesIff(s: State, run: seq<Choice>, t: nat)
    requires Initial(s) && Possible(s, run) && Steady(run) && Enabled(Exec(s, run), Go(t))
    ensures var e := Exec(s, run);
            var e', th := Do(e, Go(t)), e.threads[t];
            var asked, blocked := Asked(s, run, 0), |SleepingBlockers(e)|;
            && (th.place == Counted ==> if asked > 0 && blocked + 1 == asked then Frees(e, e', t) else Sleeps(e, e', t))
            && (th.place == Locked && th.call.Release? ==>
                  if blocked >= th.call.num then Frees(e, e', t) else Sleeps(e, e', t))
            && (th.place == Counted && Frees(e, e', t) ==> forall u :: u in SleepingReleasers(e) ==>
                  (e.threads[u].call.num <= blocked + 1 <==> e.threads[u].call.num <= asked))
  {
    assert SleepingBlockers(s) == {} && SleepingReleasers(s) == {};
    SafeRun(s, run);
    TalliedRun(s, run);
    WaitForIsAsked(s, run);
    var e := Exec(s, run);
    TurnFrees(e, t);
    assert e.threads[t].place == Counted || e.threads[t].place == Locked ==> Holds(e.threads[t].place);
    hide Exec, Do, SleepingBlockers, Possible, Frees, Sleeps;
  }

  // ----- A releaser that is freed too soon -----

  /** A releaser that asks for two, one that asks for one, and a blocker. */
  function Trio(n: nat, waitFor: nat, owner: Option<nat>, two: Place, one: Place, blocker: Place): State {
    State(n, waitFor, owner, [Thread(Release(2), two), Thread(Release(1), one), Thread(Block, blocker)])
  }

  /** The trio, turn after turn: the releasers go to sleep, the blocker comes in and frees both. */
  function TrioAt(k: nat): State {
    match k
    case 0 => Trio(0, 0, None, Outside, Outside, Outside)
    case 1 => Trio(0, 0, Some(0), Locked, Outside, Outside)
    case 2 => Trio(0, 2, None, Sleeping, Outside, Outside)
    case 3 => Trio(0, 2, Some(1), Sleeping, Locked, Outside)
    case 4 => Trio(0, 1, None, Sleeping, Sleeping, Outside)
    case 5 => Trio(0, 1, Some(2), Sleeping, Sleeping, Locked)
    case 6 => Trio(1, 1, Some(2), Sleeping, Sleeping, Counted)
    case _ => Trio(0, 0, Some(2), Woken, Woken, Leaving)
  }

  lemma TrioTurns()
    ensures Turn(TrioAt(0), Go(0), TrioAt(1)) && Turn(TrioAt(1), Go(0), TrioAt(2))
    ensures Turn(TrioAt(2), Go(1), TrioAt(3)) && Turn(TrioAt(3), Go(1), TrioAt(4))
    ensures Turn(TrioAt(4), Go(2), TrioAt(5)) && Turn(TrioAt(5), Go(2), TrioAt(6))
    ensures Turn(TrioAt(6), Go(2), TrioAt(7))
  {
  }

  /** A failing run for the promise that a releaser sleeps until enough others are blocked: one
      that asks for two sleeps, a second one asks for one, and the first blocker frees both. */
  lemma SmallerRequestFreesLarger()
    ensures var s := Trio(0, 0, None, Outside, Outside, Outside);
            var run := [Go(0), Go(0), Go(1), Go(1), Go(2), Go(2), Go(2)];
            && Initial(s) && Possible(s, run)
            && Exec(s, run) == Trio(0, 0, Some(2), Woken, Woken, Leaving)
  {
    TrioTurns();
    hide Turn, Enabled, Do;
    Chain(TrioAt(6), Go(2), TrioAt(7), []);
    Chain(TrioAt(5), Go(2), TrioAt(6), [Go(2)]);
    Chain(TrioAt(4), Go(2), TrioAt(5), [Go(2), Go(2)]);
    Chain(TrioAt(3), Go(1), TrioAt(4), [Go(2), Go(2), Go(2)]);
    Chain(TrioAt(2), Go(1), TrioAt(3), [Go(1), Go(2), Go(2), Go(2)]);
    Chain(TrioAt(1), Go(0), TrioAt(2), [Go(1), Go(1), Go(2), Go(2), Go(2)]);
    Chain(TrioAt(0), Go(0), TrioAt(1), [Go(0), Go(1), Go(1), Go(2), Go(2), Go(2)]);
  }
}
