/** One `releaseThreads(num)` among any number of blockers, more or fewer than `num`. */
module WaitForThreadsCrowd {

  import opened WaitForThreadsBarrier
  import opened WaitForThreadsSafety
  import opened WaitForThreadsRelease
  import opened Wrappers

  /** What holds along steady runs of a crowd: `waitFor` is set exactly while the releaser
      sleeps; nobody is past the condition before the releaser; and the releaser is past it
      only if there are enough blockers. */
  ghost predicate Waiting(s: State, r: nat, num: nat) {
    && Crowd(s, r, num) && Exclusive(s) && Ordered(s) && Tallied(s)
    && s.threads[r].place != Counted
    && s.waitFor == (if s.threads[r].place == Sleeping then num else 0)
    && (After(s.threads[r].place) ==> num <= |s.threads| - 1)
    && (!After(s.threads[r].place) ==> forall t: nat :: t < |s.threads| ==> !After(s.threads[t].place))
  }

  /** `n` never exceeds the number of blockers. */
  lemma CountBounded(s: State, r: nat, num: nat)
    requires Crowd(s, r, num) && Exclusive(s) && Tallied(s)
    ensures s.n <= |s.threads| - 1
  {
    BlockersOf(s, r);
    if Counting(s) {
      var t := s.owner.value;
      assert t in Blockers(s) && t !in SleepingBlockers(s);
      SubsetSize(SleepingBlockers(s) + {t}, Blockers(s));
    } else {
      SubsetSize(SleepingBlockers(s), Blockers(s));
    }
  }

  /** What a broadcast does to the releaser. */
  lemma BroadcastFrees(s: State, r: nat, num: nat, t: nat)
    requires Waiting(s, r, num) && Enabled(s, Go(t)) && Broadcasts(s, Go(t))
    ensures var s' := Do(s, Go(t));
            && s'.waitFor == 0 && After(s'.threads[r].place) && num <= |s.threads| - 1
  {
    CountBounded(s, r, num);
    hide Tallied, Exclusive;
  }

  lemma WaitingStep(s: State, r: nat, num: nat, t: nat)
    requires Waiting(s, r, num) && Enabled(s, Go(t))
    ensures Waiting(Do(s, Go(t)), r, num)
  {
    TalliedStep(s, t);
    ExclusiveStep(s, Go(t));
    CallsStay(s, Go(t));
    if Broadcasts(s, Go(t)) {
      BroadcastFrees(s, r, num, t);
    } else {
      QuietStep(s, Go(t));
      QuietPlaces(s, t);
    }
    hide Do, Enabled, Broadcasts, Tallied, Exclusive, Ordered;
  }

  lemma {:induction false} WaitingRun(s: State, r: nat, num: nat, run: seq<Choice>)
    requires Waiting(s, r, num) && Possible(s, run) && Steady(run)
    ensures Waiting(Exec(s, run), r, num)
    decreases |run|
  {
    if run != [] {
      assert run[0] == Go(run[0].t);
      WaitingStep(s, r, num, run[0].t);
      hide Waiting, Do, Enabled;
      WaitingRun(Do(s, run[0]), r, num, run[1..]);
    }
  }

  lemma InitialWaiting(s: State, r: nat, num: nat)
    requires Initial(s) && Crowd(s, r, num)
    ensures Waiting(s, r, num)
  {
    assert SleepingBlockers(s) == {} && SleepingReleasers(s) == {};
  }

  /** Nobody can take a turn: everybody sleeps or has returned. */
  lemma NobodyGoes(s: State)
    requires Exclusive(s) && Ordered(s) && forall t: nat :: !Enabled(s, Go(t))
    ensures s.owner == None
    ensures forall t: nat :: t < |s.threads| ==> s.threads[t].place == Sleeping || s.threads[t].place == Returned
  {
    if s.owner.Some? {
      var o := s.owner.value;
      assert Holds(s.threads[o].place) && s.threads[o].place != Broken;
      assert Enabled(s, Go(o));
    }
    forall t: nat | t < |s.threads| ensures s.threads[t].place == Sleeping || s.threads[t].place == Returned {
      assert !Enabled(s, Go(t));
      assert !Holds(s.threads[t].place);
    }
  }

  /** With everybody asleep there are fewer blockers than the releaser waits for. */
  lemma AllAsleep(s: State, r: nat, num: nat)
    requires Waiting(s, r, num) && s.owner == None
    requires forall t: nat :: t < |s.threads| ==> s.threads[t].place == Sleeping
    ensures |s.threads| - 1 < num
  {
    BlockersOf(s, r);
    assert SleepingBlockers(s) == Blockers(s);
    assert r in SleepingReleasers(s);
  }

  /** Every run of any callers is bounded, so every run can be continued to one that nobody
      can go on from. */
  lemma RunsAreBounded(s: State, run: seq<Choice>)
    requires Possible(s, run)
    ensures |run| <= 6 * |s.threads|
  {
    WorkRun(s, run);
    WorkBound(s.threads);
  }

  /** One `releaseThreads(num)` among any number of blockers, on every run without spurious
      wakeups that nobody can go on from: the releaser has returned if and only if there are at
      least `num` blockers, and with fewer everybody sleeps for good. */
  lemma {:induction false} ReleaserReturnsIffEnough(s: State, r: nat, num: nat, run: seq<Choice>)
    requires Initial(s) && Crowd(s, r, num) && Possible(s, run) && Steady(run)
    requires forall t: nat :: !Enabled(Exec(s, run), Go(t))
    ensures var e := Exec(s, run);
            && |e.threads| == |s.threads|
            && (e.threads[r].place == Returned <==> num <= |s.threads| - 1)
            && (num > |s.threads| - 1 ==> forall t: nat :: t < |e.threads| ==> e.threads[t].place == Sleeping)
  {
    hide Tallied, Enabled, Do, Exec, Possible, Exclusive, Ordered;
    InitialWaiting(s, r, num);
    WaitingRun(s, r, num, run);
    SameThreads(s, run);
    var e := Exec(s, run);
    NobodyGoes(e);
    if e.threads[r].place != Returned {
      forall t: nat | t < |e.threads| ensures e.threads[t].place == Sleeping {
        assert !After(e.threads[t].place);
      }
      AllAsleep(e, r, num);
    }
  }
}
