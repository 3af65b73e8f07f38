/** What every run of the barrier keeps, for any number of threads in any mix of calls. */
module WaitForThreadsSafety {

  import opened WaitForThreadsBarrier
  import opened Wrappers

  // ----- The counters, spurious wakeups included -----

  /** Places inside the critical section. A thread stopped by the assertion keeps the mutex. */
  predicate Holds(p: Place) {
    p == Locked || p == Counted || p == Leaving || p == Broken
  }

  /** A thread sits behind its increment, still inside the critical section. */
  predicate Counting(s: State) {
    s.owner.Some? && s.owner.value < |s.threads| && s.threads[s.owner.value].place == Counted
  }

  /** Blockers that have been counted at some time. */
  function CountedBlockers(s: State): set<nat> {
    set t | 0 <= t < |s.threads| && s.threads[t].call.Block? && s.threads[t].place != Outside &&
        s.threads[t].place != Locked
  }

  ghost predicate Exclusive(s: State) {
    && (forall t: nat :: t < |s.threads| ==> (Holds(s.threads[t].place) <==> s.owner == Some(t)))
    && (s.owner.Some? ==> s.owner.value < |s.threads|)
    && (Counting(s) ==> s.threads[s.owner.value].call.Block?)
  }

  /** The count stays below a waiting releaser's number, save behind an increment, where it
      may reach it; and no assertion has failed. */
  ghost predicate Ordered(s: State) {
    && (s.waitFor > 0 ==> if Counting(s) then s.n <= s.waitFor else s.n < s.waitFor)
    && forall t :: 0 <= t < |s.threads| ==> s.threads[t].place != Broken
  }

  ghost predicate Safe(s: State) {
    Exclusive(s) && Ordered(s) && s.n <= |CountedBlockers(s)|
  }

  lemma ExclusiveStep(s: State, c: Choice)
    requires Exclusive(s) && Enabled(s, c)
    ensures Exclusive(Do(s, c))
  {
    var s' := Do(s, c);
    forall u: nat | u < |s'.threads| ensures Holds(s'.threads[u].place) <==> s'.owner == Some(u) {
      assert Holds(s.threads[u].place) <==> s.owner == Some(u);
    }
  }

  lemma SubsetSize<T>(a: set<T>, b: set<T>)
    requires a <= b
    ensures |a| <= |b| && (|a| == |b| ==> a == b)
  {
    if a != {} {
      var x :| x in a;
      SubsetSize(a - {x}, b - {x});
    } else if b != {} {
      var x :| x in b;
      assert |b| == |b - {x}| + 1;
    }
  }

  /** Nobody is uncounted again, and an increment counts somebody new. */
  lemma CountedStep(s: State, c: Choice)
    requires Enabled(s, c)
    ensures CountedBlockers(s) <= CountedBlockers(Do(s, c))
    ensures c.Go? && s.threads[c.t].place == Locked && s.threads[c.t].call.Block? ==>
              c.t !in CountedBlockers(s) && c.t in CountedBlockers(Do(s, c))
  {
  }

  lemma CountStep(s: State, c: Choice)
    requires Enabled(s, c) && s.n <= |CountedBlockers(s)|
    ensures Do(s, c).n <= |CountedBlockers(Do(s, c))|
  {
    CountedStep(s, c);
    if c.Go? && s.threads[c.t].place == Locked && s.threads[c.t].call.Block? {
      SubsetSize(CountedBlockers(s) + {c.t}, CountedBlockers(Do(s, c)));
    } else {
      SubsetSize(CountedBlockers(s), CountedBlockers(Do(s, c)));
      assert Do(s, c).n <= s.n;
    }
  }

  /** Whatever the scheduler picks, spurious wakeups included, the mutex is exclusive, no
      assertion fails, and with the mutex free the count is below a waiting releaser's
      number. */
  lemma {:induction false} SafeRun(s: State, run: seq<Choice>)
    requires Safe(s) && Possible(s, run)
    ensures Safe(Exec(s, run))
    decreases |run|
  {
    if run != [] {
      ExclusiveStep(s, run[0]);
      CountStep(s, run[0]);
      hide Enabled, Do, Exclusive, Ordered, CountedBlockers;
      SafeRun(Do(s, run[0]), run[1..]);
    }
  }

  /** The assertion inside `block` never fails, on any run from the start, and whenever the
      mutex is free the count is below a waiting releaser's number. */
  lemma AssertionHolds(s: State, run: seq<Choice>)
    requires Initial(s) && Possible(s, run)
    ensures var e := Exec(s, run);
            && (forall t :: 0 <= t < |e.threads| ==> e.threads[t].place != Broken)
            && (e.owner == None && e.waitFor > 0 ==> e.n < e.waitFor)
            && (forall t, u | 0 <= t < |e.threads| && 0 <= u < |e.threads| ::
                  Holds(e.threads[t].place) && Holds(e.threads[u].place) ==> t == u)
  {
    SafeRun(s, run);
  }

  // ----- Who sleeps, without spurious wakeups -----

  predicate Steady(run: seq<Choice>) {
    forall k :: 0 <= k < |run| ==> run[k].Go?
  }

  function SleepingBlockers(s: State): set<nat> {
    set t | 0 <= t < |s.threads| && s.threads[t].call.Block? && s.threads[t].place == Sleeping
  }

  function SleepingReleasers(s: State): set<nat> {
    set t | 0 <= t < |s.threads| && s.threads[t].call.Release? && s.threads[t].place == Sleeping
  }

  /** `n` counts the sleeping blockers and the one behind its increment, and `waitFor` is set
      exactly while a releaser sleeps. */
  ghost predicate Tallied(s: State) {
    && s.n == |SleepingBlockers(s)| + (if Counting(s) then 1 else 0)
    && (s.waitFor > 0 <==> SleepingReleasers(s) != {})
  }

  /** What one step does to the sleepers: nothing, wake all, or add the thread itself. */
  lemma SleepersStep(s: State, t: nat)
    requires Exclusive(s) && Enabled(s, Go(t))
    ensures var s' := Do(s, Go(t));
            var b, r, b', r' := SleepingBlockers(s), SleepingReleasers(s), SleepingBlockers(s'), SleepingReleasers(s');
            match s.threads[t].place
            case Counted =>
              if s.waitFor > 0 && s.n == s.waitFor then b' == {} && r' == {}
              else if s.waitFor == 0 || s.n <= s.waitFor then t !in b && b' == b + {t} && r' == r
              else true
            case Locked =>
              if s.threads[t].call.Block? then b' == b && r' == r
              else if s.n >= s.threads[t].call.num then b' == {} && r' == {}
              else b' == b && r' == r + {t}
            case _ => b' == b && r' == r
  {
  }

  lemma TalliedStep(s: State, t: nat)
    requires Exclusive(s) && Ordered(s) && Tallied(s) && Enabled(s, Go(t))
    ensures Tallied(Do(s, Go(t)))
  {
    SleepersStep(s, t);
    hide SleepingBlockers, SleepingReleasers;
  }

  lemma {:induction false} TalliedRun(s: State, run: seq<Choice>)
    requires Safe(s) && Tallied(s) && Possible(s, run) && Steady(run)
    ensures Tallied(Exec(s, run))
    decreases |run|
  {
    if run != [] {
      var t := run[0].t;
      assert run[0] == Go(t);
      ExclusiveStep(s, Go(t));
      CountStep(s, Go(t));
      TalliedStep(s, t);
      hide Enabled, Do, Exclusive, Ordered, CountedBlockers, Tallied;
      TalliedRun(Do(s, Go(t)), run[1..]);
    }
  }

  function Sleepers(s: State): set<nat> {
    set t | 0 <= t < |s.threads| && s.threads[t].place == Sleeping
  }

  /** The counting claim over whole runs: from the start, whenever the mutex is free the
      sleepers number exactly `n` plus the waiting releasers, and `waitFor == 0` exactly if
      no releaser waits. */
  lemma SleepersAreCounted(s: State, run: seq<Choice>)
    requires Initial(s) && Possible(s, run) && Steady(run)
    ensures var e := Exec(s, run);
            && (e.owner == None ==> |Sleepers(e)| == e.n + |SleepingReleasers(e)|)
            && (e.waitFor == 0 <==> SleepingReleasers(e) == {})
  {
    assert SleepingBlockers(s) == {} && SleepingReleasers(s) == {};
    TalliedRun(s, run);
    var e := Exec(s, run);
    assert Sleepers(e) == SleepingBlockers(e) + SleepingReleasers(e);
    assert SleepingBlockers(e) !! SleepingReleasers(e);
  }

  // ----- Which spurious wakeups spoil the count -----

  /** A turn of a thread, or the waking of a releaser while another one sleeps on. */
  ghost predicate Harmless(s: State, c: Choice)
    requires Enabled(s, c)
  {
    c.Go? || (s.threads[c.t].call.Release? && exists u: nat :: u in SleepingReleasers(s) && u != c.t)
  }

  ghost predicate AllHarmless(s: State, run: seq<Choice>)
    requires Possible(s, run)
    decreases |run|
  {
    run != [] ==> Harmless(s, run[0]) && AllHarmless(Do(s, run[0]), run[1..])
  }

  ghost predicate AlwaysTallied(s: State, run: seq<Choice>)
    requires Possible(s, run)
    decreases |run|
  {
    Tallied(s) && (run != [] ==> AlwaysTallied(Do(s, run[0]), run[1..]))
  }

  lemma SpuriousSleepers(s: State, t: nat)
    requires Exclusive(s) && Enabled(s, Spurious(t))
    ensures var s' := Do(s, Spurious(t));
            && s'.n == s.n && s'.waitFor == s.waitFor && (Counting(s') <==> Counting(s))
            && (if s.threads[t].call.Block?
                then t in SleepingBlockers(s) && SleepingBlockers(s') == SleepingBlockers(s) - {t}
                     && SleepingReleasers(s') == SleepingReleasers(s)
                else t in SleepingReleasers(s) && SleepingReleasers(s') == SleepingReleasers(s) - {t}
                     && SleepingBlockers(s') == SleepingBlockers(s))
  {
    var s' := Do(s, Spurious(t));
    assert s.owner != Some(t);
  }

  lemma SpuriousTally(s: State, t: nat)
    requires Exclusive(s) && Tallied(s) && Enabled(s, Spurious(t))
    ensures Tallied(Do(s, Spurious(t))) <==> Harmless(s, Spurious(t))
  {
    SpuriousSleepers(s, t);
    hide SleepingBlockers, SleepingReleasers, Do, Counting;
    if s.threads[t].call.Release? && Harmless(s, Spurious(t)) {
      var u: nat :| u in SleepingReleasers(s) && u != t;
      assert u in SleepingReleasers(Do(s, Spurious(t)));
    }
  }

  /** The count is right at every moment of a run if and only if each spurious wakeup on it
      wakes a releaser while another releaser sleeps on. */
  lemma {:induction false} TalliedIffHarmless(s: State, run: seq<Choice>)
    requires Safe(s) && Tallied(s) && Possible(s, run)
    ensures AlwaysTallied(s, run) <==> AllHarmless(s, run)
    decreases |run|
  {
    if run != [] {
      ExclusiveStep(s, run[0]);
      CountStep(s, run[0]);
      if run[0].Go? {
        TalliedStep(s, run[0].t);
      } else {
        SpuriousTally(s, run[0].t);
      }
      hide Enabled, Do, Exclusive, Ordered, CountedBlockers, Tallied;
      if Harmless(s, run[0]) {
        TalliedIffHarmless(Do(s, run[0]), run[1..]);
      } else {
      }
    }
  }

}
