/** `num` blockers and one `releaseThreads(num)`: nobody leaves early, and everybody leaves. */
module WaitForThreadsRelease {

  import opened WaitForThreadsBarrier
  import opened WaitForThreadsSafety
  import opened Wrappers

  /** All threads but `r` block, and `r` releases `num` of them. */
  ghost predicate Crowd(s: State, r: nat, num: nat) {
    && r < |s.threads|
    && s.threads[r].call == Release(num)
    && forall t: nat :: t < |s.threads| && t != r ==> s.threads[t].call.Block?
  }

  /** A crowd of just as many blockers as are released. */
  ghost predicate Party(s: State, r: nat) {
    r < |s.threads| && Crowd(s, r, |s.threads| - 1)
  }

  /** Not yet past the condition. */
  predicate Before(p: Place) {
    p == Outside || p == Locked || p == Counted || p == Sleeping
  }

  predicate After(p: Place) {
    p == Woken || p == Leaving || p == Returned
  }

  ghost predicate Scattering(s: State) {
    && (forall t: nat :: t < |s.threads| ==> After(s.threads[t].place))
    && s.n == 0 && s.waitFor == 0
  }

  // ----- The release -----

  function Blockers(s: State): set<nat> {
    set t | 0 <= t < |s.threads| && s.threads[t].call.Block?
  }

  function UpTo(k: nat): (r: set<nat>)
    ensures |r| == k && forall t: nat :: t in r <==> t < k
  {
    if k == 0 then {} else UpTo(k - 1) + {k - 1}
  }

  lemma BlockersOf(s: State, r: nat)
    requires r < |s.threads| && s.threads[r].call.Release? && Crowd(s, r, s.threads[r].call.num)
    ensures |Blockers(s)| == |s.threads| - 1
  {
    assert UpTo(|s.threads|) == Blockers(s) + {r};
  }

  lemma CallsStay(s: State, c: Choice)
    requires Enabled(s, c)
    ensures var s' := Do(s, c);
            |s'.threads| == |s.threads| && forall t: nat :: t < |s.threads| ==> s'.threads[t].call == s.threads[t].call
  {
  }

  predicate Entered(p: Place) {
    p != Outside && p != Locked
  }

  /** Before the broadcast, whoever may have woken up: `n` counts the blockers that have come
      in, and `waitFor` is set once the releaser has found too few of them. */
  ghost predicate Filling(s: State, r: nat) {
    && r < |s.threads| && s.threads[r].place != Counted
    && s.n == |CountedBlockers(s)|
    && s.waitFor == (if Entered(s.threads[r].place) then |s.threads| - 1 else 0)
    && (Entered(s.threads[r].place) ==> s.waitFor > 0)
  }

  ghost predicate OnTheWay(s: State, r: nat) {
    Party(s, r) && Exclusive(s) && Ordered(s) && (Filling(s, r) || Scattering(s))
  }

  /** With all blockers counted and nobody else in the critical section, a broadcast takes
      everybody past the condition. */
  lemma LastScatters(s: State, r: nat, t: nat)
    requires Party(s, r) && Exclusive(s) && Ordered(s) && s.owner == Some(t) && t < |s.threads|
    requires |CountedBlockers(s)| >= |s.threads| - 1
    requires t == r || Entered(s.threads[r].place)
    ensures Scattering(Settle(s, t, Outcome(0, 0, true)))
  {
    BlockersOf(s, r);
    SubsetSize(CountedBlockers(s), Blockers(s));
    forall u: nat | u < |s.threads| && u != t ensures Entered(s.threads[u].place) && !Holds(s.threads[u].place) {
      if u != r {
        assert u in Blockers(s);
        assert u in CountedBlockers(s);
      }
    }
  }

  /** An increment counts its thread; every other step leaves the counted blockers alone. */
  lemma CountedExactly(s: State, c: Choice)
    requires Enabled(s, c)
    ensures CountedBlockers(Do(s, c)) ==
              if c.Go? && s.threads[c.t].place == Locked && s.threads[c.t].call.Block?
              then CountedBlockers(s) + {c.t} else CountedBlockers(s)
  {
    CountedStep(s, c);
  }

  /** The step ends a critical section with a broadcast. */
  predicate Broadcasts(s: State, c: Choice)
    requires Enabled(s, c)
  {
    && c.Go?
    && var th := s.threads[c.t];
       if th.place == Counted then s.waitFor > 0 && s.n == s.waitFor
       else th.place == Locked && th.call.Release? && s.n >= th.call.num
  }

  lemma BroadcastStep(s: State, r: nat, c: Choice)
    requires OnTheWay(s, r) && Filling(s, r) && Enabled(s, c) && Broadcasts(s, c)
    ensures Scattering(Do(s, c))
  {
    hide CountedBlockers, Scattering;
    assert Holds(s.threads[c.t].place);
    LastScatters(s, r, c.t);
  }

  /** What a step without broadcast does to its thread and the counters. */
  lemma QuietStep(s: State, c: Choice)
    requires Enabled(s, c) && !Broadcasts(s, c) && Ordered(s) && Exclusive(s)
    ensures c.t < |s.threads| == |Do(s, c).threads|
    ensures var s', th := Do(s, c), s.threads[c.t];
            && s'.threads[c.t].place != Outside
            && (forall u: nat :: u < |s.threads| && u != c.t ==> s'.threads[u] == s.threads[u])
            && (Entered(th.place) ==> Entered(s'.threads[c.t].place) && s'.threads[c.t].place != Counted)
            && (th.place == Outside ==> s'.threads[c.t].place == Locked)
            && (th.place == Locked && th.call.Block? ==> s'.threads[c.t].place == Counted)
            && (th.place == Locked && th.call.Release? ==>
                s'.threads[c.t].place == Sleeping && s'.waitFor == th.call.num > s.n)
            && (!(th.place == Locked && th.call.Release?) ==> s'.waitFor == s.waitFor)
            && s'.n == s.n + (if c.Go? && th.place == Locked && th.call.Block? then 1 else 0)
  {
  }

  lemma FillingStep(s: State, r: nat, c: Choice)
    requires OnTheWay(s, r) && Filling(s, r) && Enabled(s, c)
    ensures Filling(Do(s, c), r) || Scattering(Do(s, c))
  {
    hide CountedBlockers, Do, Scattering, Enabled, Broadcasts, Ordered, Exclusive;
    if Broadcasts(s, c) {
      BroadcastStep(s, r, c);
    } else {
      CallsStay(s, c);
      CountedStep(s, c);
      CountedExactly(s, c);
      QuietStep(s, c);
    }
  }

  lemma ScatteringStep(s: State, c: Choice)
    requires Scattering(s) && Enabled(s, c)
    ensures Scattering(Do(s, c))
  {
  }

  lemma OnTheWayStep(s: State, r: nat, c: Choice)
    requires OnTheWay(s, r) && Enabled(s, c)
    ensures OnTheWay(Do(s, c), r)
  {
    if Filling(s, r) {
      FillingStep(s, r, c);
    } else {
      ScatteringStep(s, c);
    }
    ExclusiveStep(s, c);
    CallsStay(s, c);
    hide Do, Filling, Scattering, Exclusive, Ordered, Enabled;
  }

  lemma {:induction false} OnTheWayRun(s: State, r: nat, run: seq<Choice>)
    requires OnTheWay(s, r) && Possible(s, run)
    ensures OnTheWay(Exec(s, run), r)
    decreases |run|
  {
    if run != [] {
      OnTheWayStep(s, r, run[0]);
      hide OnTheWay, Do, Enabled;
      OnTheWayRun(Do(s, run[0]), r, run[1..]);
    }
  }

  lemma InitialOnTheWay(s: State, r: nat)
    requires Initial(s) && Party(s, r)
    ensures OnTheWay(s, r) && Kept(s, r)
  {
    assert CountedBlockers(s) == {};
  }

  // ----- Nobody leaves early -----

  /** Everybody on one side of the condition. */
  ghost predicate Kept(s: State, r: nat) {
    && OnTheWay(s, r)
    && (Scattering(s) || (Filling(s, r) && forall t: nat :: t < |s.threads| ==> Before(s.threads[t].place)))
  }

  /** Without a broadcast a thread gets past the condition only if it was. */
  lemma QuietPlaces(s: State, t: nat)
    requires Enabled(s, Go(t)) && !Broadcasts(s, Go(t)) && Ordered(s) && Exclusive(s)
    ensures var p, p' := s.threads[t].place, Do(s, Go(t)).threads[t].place;
            && (After(p') <==> After(p)) && (Before(p') <==> Before(p))
            && (p' == Sleeping ==> (p == Counted || (p == Locked && s.threads[t].call.Release?)))
            && p != Sleeping
  {
  }

  lemma KeptStep(s: State, r: nat, t: nat)
    requires Kept(s, r) && Enabled(s, Go(t))
    ensures Kept(Do(s, Go(t)), r)
  {
    hide CountedBlockers, Do, Enabled, Broadcasts, Ordered, Exclusive, Party;
    OnTheWayStep(s, r, Go(t));
    if Scattering(s) {
      ScatteringStep(s, Go(t));
    } else if Broadcasts(s, Go(t)) {
      BroadcastStep(s, r, Go(t));
    } else {
      FillingStep(s, r, Go(t));
      QuietStep(s, Go(t));
      QuietPlaces(s, t);
    }
  }

  lemma {:induction false} KeptRun(s: State, r: nat, run: seq<Choice>)
    requires Kept(s, r) && Possible(s, run) && Steady(run)
    ensures Kept(Exec(s, run), r)
    decreases |run|
  {
    if run != [] {
      assert run[0] == Go(run[0].t);
      KeptStep(s, r, run[0].t);
      hide Kept, Do, Enabled;
      KeptRun(Do(s, run[0]), r, run[1..]);
    }
  }

  /** No early release: on every run without spurious wakeups, if any thread is past the
      condition then all `num` blockers and the releaser have entered, and they are past it
      too. */
  lemma NobodyLeavesEarly(s: State, r: nat, run: seq<Choice>)
    requires Initial(s) && Party(s, r) && Possible(s, run) && Steady(run)
    ensures var e := Exec(s, run);
            |e.threads| == |s.threads| &&
            ((exists t: nat :: t < |e.threads| && After(e.threads[t].place)) ==>
              forall t: nat :: t < |e.threads| ==> After(e.threads[t].place))
  {
    InitialOnTheWay(s, r);
    KeptRun(s, r, run);
    SameThreads(s, run);
  }

  lemma {:induction false} SameThreads(s: State, run: seq<Choice>)
    requires Possible(s, run)
    ensures |Exec(s, run).threads| == |s.threads|
    decreases |run|
  {
    if run != [] {
      CallsStay(s, run[0]);
      SameThreads(Do(s, run[0]), run[1..]);
    }
  }

  /** Some thread is past the condition and some thread is not. */
  ghost predicate Early(s: State) {
    && (exists t: nat :: t < |s.threads| && After(s.threads[t].place))
    && exists t: nat :: t < |s.threads| && Before(s.threads[t].place)
  }

  lemma {:induction false} PossiblePart(s: State, run: seq<Choice>, k: nat)
    requires Possible(s, run) && k <= |run|
    ensures Possible(s, run[..k]) && Possible(Exec(s, run[..k]), run[k..])
    ensures Exec(Exec(s, run[..k]), run[k..]) == Exec(s, run)
    decreases k
  {
    if k == 0 {
      assert run[..0] == [] && run[0..] == run;
    } else {
      PossiblePart(Do(s, run[0]), run[1..], k - 1);
      assert run[..k][0] == run[0] && run[..k][1..] == run[1..][..k - 1] && run[1..][k - 1..] == run[k..];
    }
  }

  /** After the first `k` choices of a run, some thread is early. */
  ghost predicate EarlyAfter(s: State, run: seq<Choice>, k: nat)
    requires Possible(s, run) && k <= |run|
  {
    PossiblePart(s, run, k);
    Early(Exec(s, run[..k]))
  }

  /** A spurious wakeup puts its thread past the condition while somebody else is before it. */
  lemma SpuriousIsEarly(s: State, r: nat, t: nat)
    requires Kept(s, r) && Enabled(s, Spurious(t))
    ensures Early(Do(s, Spurious(t)))
  {
    var s' := Do(s, Spurious(t));
    assert Before(s.threads[t].place) && Filling(s, r);
    assert After(s'.threads[t].place);
    if t == r {
      var u: nat := if r == 0 then 1 else 0;
      assert Before(s'.threads[u].place);
    } else {
      assert Before(s'.threads[r].place);
    }
  }

  lemma {:induction false} FirstSpurious(run: seq<Choice>) returns (k: nat)
    requires !Steady(run)
    ensures k < |run| && run[k].Spurious? && Steady(run[..k])
  {
    if run[0].Spurious? {
      k := 0;
    } else {
      assert !Steady(run[1..]) by {
        var j :| 0 <= j < |run| && !run[j].Go?;
        assert run[1..][j - 1] == run[j];
      }
      k := FirstSpurious(run[1..]);
      k := k + 1;
    }
  }

  /** The exact schedules: nobody is past the condition before everybody else, at any moment
      of a run, if and only if the run has no spurious wakeup. */
  lemma {:induction false} NobodyEarlyIffSteady(s: State, r: nat, run: seq<Choice>)
    requires Initial(s) && Party(s, r) && Possible(s, run)
    ensures Steady(run) <==> forall k: nat :: k <= |run| ==> !EarlyAfter(s, run, k)
  {
    hide Possible, Exec, Kept;
    if Steady(run) {
      forall k: nat | k <= |run| ensures !EarlyAfter(s, run, k) {
        PossiblePart(s, run, k);
        NobodyLeavesEarly(s, r, run[..k]);
      }
    } else {
      var k := FirstSpurious(run);
      PossiblePart(s, run, k);
      PossiblePart(s, run, k + 1);
      InitialOnTheWay(s, r);
      KeptRun(s, r, run[..k]);
      var e := Exec(s, run[..k]);
      LastTurn(s, run, k);
      SpuriousIsEarly(e, r, run[k].t);
      assert EarlyAfter(s, run, k + 1);
    }
  }

  lemma LastTurn(s: State, run: seq<Choice>, k: nat)
    requires Possible(s, run) && k < |run|
    ensures Possible(s, run[..k]) && Possible(s, run[..k + 1])
    ensures Enabled(Exec(s, run[..k]), run[k])
    ensures Exec(s, run[..k + 1]) == Do(Exec(s, run[..k]), run[k])
  {
    PossiblePart(s, run, k);
    PossiblePart(s, run, k + 1);
    PossiblePart(s, run[..k + 1], k);
    assert run[..k + 1][..k] == run[..k] && run[..k + 1][k..] == [run[k]] && run[k..][0] == run[k];
    hide Do, Enabled;
    assert [run[k]][1..] == [];
  }

  /** One of two blockers at place `p`, the other and the releaser not there yet. */
  function Alone(n: nat, owner: Option<nat>, p: Place): State {
    State(n, 0, owner, [Thread(Block, p), Thread(Block, Outside), Thread(Release(2), Outside)])
  }

  predicate Turn(s: State, c: Choice, s': State) {
    Enabled(s, c) && Do(s, c) == s'
  }

  lemma AloneSleeps()
    ensures Turn(Alone(0, None, Outside), Go(0), Alone(0, Some(0), Locked))
    ensures Turn(Alone(0, Some(0), Locked), Go(0), Alone(1, Some(0), Counted))
    ensures Turn(Alone(1, Some(0), Counted), Go(0), Alone(1, None, Sleeping))
  {
  }

  lemma AloneLeaves()
    ensures Turn(Alone(1, None, Sleeping), Spurious(0), Alone(1, None, Woken))
    ensures Turn(Alone(1, None, Woken), Go(0), Alone(1, Some(0), Leaving))
    ensures Turn(Alone(1, Some(0), Leaving), Go(0), Alone(1, None, Returned))
  {
  }

  /** A witness: the code does not test again after it wakes, and with one spurious wakeup the
      lone blocker of two returns before the others have entered. */
  lemma SpuriousWakeupLeavesEarly()
    ensures var s := Alone(0, None, Outside);
            var run := [Go(0), Go(0), Go(0), Spurious(0), Go(0), Go(0)];
            && Initial(s) && Party(s, 2) && Possible(s, run)
            && Exec(s, run).threads == [Thread(Block, Returned), Thread(Block, Outside), Thread(Release(2), Outside)]
  {
    hide Turn, Enabled, Do;
    AloneSleeps();
    AloneLeaves();
    Chain(Alone(1, Some(0), Leaving), Go(0), Alone(1, None, Returned), []);
    Chain(Alone(1, None, Woken), Go(0), Alone(1, Some(0), Leaving), [Go(0)]);
    Chain(Alone(1, None, Sleeping), Spurious(0), Alone(1, None, Woken), [Go(0), Go(0)]);
    Chain(Alone(1, Some(0), Counted), Go(0), Alone(1, None, Sleeping), [Spurious(0), Go(0), Go(0)]);
    Chain(Alone(0, Some(0), Locked), Go(0), Alone(1, Some(0), Counted), [Go(0), Spurious(0), Go(0), Go(0)]);
    Chain(Alone(0, None, Outside), Go(0), Alone(0, Some(0), Locked), [Go(0), Go(0), Spurious(0), Go(0), Go(0)]);
  }

  lemma Chain(s: State, c: Choice, s': State, rest: seq<Choice>)
    requires Turn(s, c, s') && Possible(s', rest)
    ensures Possible(s, [c] + rest) && Exec(s, [c] + rest) == Exec(s', rest)
  {
    assert ([c] + rest)[1..] == rest;
  }

  // ----- Everybody leaves -----

  function Rank(p: Place): nat {
    match p
    case Outside => 6
    case Locked => 5
    case Counted => 4
    case Sleeping => 3
    case Woken => 2
    case Leaving => 1
    case _ => 0
  }

  /** How many turns the threads still have to take, at most. */
  function Work(threads: seq<Thread>): nat {
    if threads == [] then 0 else Rank(threads[0].place) + Work(threads[1..])
  }

  lemma {:induction false} WorkAt(threads: seq<Thread>, t: nat, p: Place)
    requires t < |threads|
    ensures Work(At(threads, t, p)) == Work(threads) - Rank(threads[t].place) + Rank(p)
  {
    if t == 0 {
      assert At(threads, t, p)[1..] == threads[1..];
    } else {
      WorkAt(threads[1..], t - 1, p);
      assert At(threads, t, p)[1..] == At(threads[1..], t - 1, p);
    }
  }

  lemma {:induction false} WorkWoken(threads: seq<Thread>)
    ensures Work(WakeAll(threads)) <= Work(threads)
  {
    if threads != [] {
      WorkWoken(threads[1..]);
    }
  }

  lemma {:induction false} WorkBound(threads: seq<Thread>)
    ensures Work(threads) <= 6 * |threads|
  {
    if threads != [] {
      WorkBound(threads[1..]);
    }
  }

  lemma WorkStep(s: State, c: Choice)
    requires Enabled(s, c)
    ensures Work(Do(s, c).threads) < Work(s.threads)
  {
    hide Work, At, WakeAll;
    var t := c.t;
    WorkAt(s.threads, t, Locked);
    WorkAt(s.threads, t, Counted);
    WorkAt(s.threads, t, Sleeping);
    WorkAt(s.threads, t, Woken);
    WorkAt(s.threads, t, Leaving);
    WorkAt(s.threads, t, Returned);
    WorkAt(s.threads, t, Broken);
    WorkAt(WakeAll(s.threads), t, Leaving);
    WorkWoken(s.threads);
  }

  lemma {:induction false} WorkRun(s: State, run: seq<Choice>)
    requires Possible(s, run)
    ensures |run| + Work(Exec(s, run).threads) <= Work(s.threads)
    decreases |run|
  {
    if run != [] {
      WorkStep(s, run[0]);
      hide Do, Enabled, Work;
      WorkRun(Do(s, run[0]), run[1..]);
    }
  }

  /** With the mutex free before the broadcast, somebody is still outside or awake. */
  lemma SomeoneOutside(s: State, r: nat) returns (t: nat)
    requires OnTheWay(s, r) && Filling(s, r) && s.owner == None
    ensures t < |s.threads| && (s.threads[t].place == Outside || s.threads[t].place == Woken)
  {
    if forall u: nat :: u < |s.threads| ==> Entered(s.threads[u].place) {
      AllCounted(s, r);
      assert false;
    }
    t :| t < |s.threads| && !Entered(s.threads[t].place);
    assert !Holds(s.threads[t].place);
  }

  lemma AllCounted(s: State, r: nat)
    requires Party(s, r) && Filling(s, r)
    requires forall u: nat :: u < |s.threads| ==> Entered(s.threads[u].place)
    ensures s.n == s.waitFor && s.waitFor > 0
  {
    BlockersOf(s, r);
    assert CountedBlockers(s) == Blockers(s);
  }

  /** No deadlock: while a thread has not returned, some thread can go on. */
  lemma SomeoneGoesOn(s: State, r: nat) returns (t: nat)
    requires OnTheWay(s, r)
    requires exists u: nat :: u < |s.threads| && s.threads[u].place != Returned
    ensures Enabled(s, Go(t))
  {
    if s.owner.Some? {
      t := s.owner.value;
      assert Holds(s.threads[t].place);
    } else if Scattering(s) {
      t :| t < |s.threads| && s.threads[t].place != Returned;
      assert After(s.threads[t].place) && !Holds(s.threads[t].place);
    } else {
      t := SomeoneOutside(s, r);
    }
  }

  /** Everybody leaves, spurious wakeups or not: every run is at most six turns a thread long,
      and nobody can go on exactly when all `num + 1` threads have returned. */
  lemma EverybodyReturns(s: State, r: nat, run: seq<Choice>)
    requires Initial(s) && Party(s, r) && Possible(s, run)
    ensures |run| <= 6 * |s.threads|
    ensures var e := Exec(s, run);
            (forall t: nat :: !Enabled(e, Go(t)))
            <==> (forall t: nat :: t < |e.threads| ==> e.threads[t].place == Returned)
  {
    InitialOnTheWay(s, r);
    OnTheWayRun(s, r, run);
    WorkRun(s, run);
    WorkBound(s.threads);
    var e := Exec(s, run);
    if exists u: nat :: u < |e.threads| && e.threads[u].place != Returned {
      var t := SomeoneGoesOn(e, r);
    }
  }
}
