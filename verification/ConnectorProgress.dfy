/** The connector's calls end: its locks cannot deadlock, and no schedule goes on for ever. Opening,
    pinging and waiting are taken to return. */
module ConnectorProgress {
  import opened Text
  import opened Connector
  import opened HandleLedger
  import opened FanOuts

  // ---- the measure ----

  function Attempt(left: nat): nat {
    9 * left + 4
  }

  /** More than the number of steps a call can still take. */
  function Rank(pc: Pc): nat {
    match pc
    case AddWait => Attempt(CONNECT_ATTEMPTS - 1) + 11
    case Adding => Attempt(CONNECT_ATTEMPTS - 1) + 10
    case ConfigWait(left) => Attempt(left) + 9
    case ConfigRead(left) => Attempt(left) + 8
    case SlotWait(left, _) => Attempt(left) + 7
    case SlotCheck(left, _) => Attempt(left) + 6
    case Opening(left, _) => Attempt(left) + 5
    case Testing(left, _) => Attempt(left) + 4
    case Dropping(left, _) => Attempt(left) + 3
    case Releasing(left) => Attempt(left) + 2
    case Sleeping(left) => Attempt(left) + 1
    case Storing(_) => 4
    case Unlocking(_) => 3
    case RecordWait(_) => 2
    case Recording(_) => 1
    case GetWait => 2
    case Getting => 1
    case CloseWait => 2
    case Closing => 1
    case Done(_) => 0
  }

  function TotalRank(threads: seq<Thread>): nat {
    if threads == [] then 0 else TotalRank(threads[..|threads| - 1]) + Rank(threads[|threads| - 1].pc)
  }

  lemma EndingRanks(call: Call, result: Result, left: nat)
    ensures Rank(EndConnect(call, result)) <= 2
    ensures Rank(FailAttempt(call, left)) <= Attempt(left) + 1
  {
  }

  lemma SlotStepLowers(sh: Shared, th: Thread, good: bool, m: Move)
    requires SlotStep(sh, th, good) == Some(m)
    ensures Rank(m.pc) < Rank(th.pc)
  {
    match th.pc
    case Unlocking(h) => EndingRanks(th.call, Ok(h), 0);
    case Releasing(left) => EndingRanks(th.call, Errored, left);
    case _ =>
  }

  lemma PlainStepLowers(env: Env, sh: Shared, t: nat, th: Thread, good: bool, m: Move)
    requires PlainStep(env, sh, t, th, good) == Some(m)
    ensures Rank(m.pc) < Rank(th.pc)
  {
    match th.pc
    case ConfigRead(left) => EndingRanks(th.call, Errored, left);
    case Sleeping(left) => EndingRanks(th.call, Errored, left);
    case _ =>
  }

  lemma StepLowersRank(env: Env, sh: Shared, t: nat, th: Thread, good: bool, m: Move)
    requires ThreadStep(env, sh, t, th, good) == Some(m)
    ensures Rank(m.pc) < Rank(th.pc)
  {
    if UsesSlot(th.pc) {
      SlotStepLowers(sh, th, good, m);
    } else if !Records(th.pc) {
      PlainStepLowers(env, sh, t, th, good, m);
    }
  }

  lemma {:induction false} OneThreadLowers(threads: seq<Thread>, t: nat, th: Thread)
    requires t < |threads|
    ensures TotalRank(threads[t := th]) + Rank(threads[t].pc) == TotalRank(threads) + Rank(th.pc)
  {
    var last := |threads| - 1;
    if t == last {
      assert threads[t := th][..last] == threads[..last];
    } else {
      assert threads[t := th][..last] == threads[..last][t := th];
      OneThreadLowers(threads[..last], t, th);
    }
  }

  /** However the threads are scheduled, they take no more steps together than the measure allows. */
  lemma {:induction false} StepsAreBounded(env: Env, s: State, steps: seq<Action>)
    requires forall k :: 0 <= k < |steps| ==> steps[k].Step?
    requires After(env, s, steps).Some?
    ensures |steps| + TotalRank(After(env, s, steps).value.threads) <= TotalRank(s.threads)
    decreases |steps|
  {
    if steps != [] {
      var t := steps[0].thread;
      var s' := Next(env, s, steps[0]).value;
      var m := ThreadStep(env, s.sh, t, s.threads[t], steps[0].good).value;
      StepLowersRank(env, s.sh, t, s.threads[t], steps[0].good, m);
      OneThreadLowers(s.threads, t, s'.threads[t]);
      StepsAreBounded(env, s', steps[1..]);
    }
  }

  // ---- no deadlock ----

  predicate WantsWrite(pc: Pc) {
    pc.AddWait? || pc.SlotWait? || pc.CloseWait?
  }

  predicate WantsRead(pc: Pc) {
    pc.ConfigWait? || pc.GetWait?
  }

  /** The thread can take a step now, even if a waiting writer keeps new readers out. */
  predicate Runnable(env: Env, s: State, t: nat)
    requires t < |s.threads|
  {
    && (forall good :: ThreadStep(env, s.sh, t, s.threads[t], good).Some?)
    && (WantsRead(s.threads[t].pc) ==> forall u :: 0 <= u < |s.threads| ==> !WantsWrite(s.threads[u].pc))
  }

  predicate AllDone(s: State) {
    forall t :: 0 <= t < |s.threads| ==> s.threads[t].pc.Done?
  }

  lemma HolderRuns(env: Env, s: State, t: nat)
    requires Inv(s) && t < |s.threads| && (HoldsWrite(s.threads[t].pc) || HoldsRead(s.threads[t].pc))
    ensures Runnable(env, s, t)
  {
    assert FlightInv(s.sh, s.threads[t]);
  }

  lemma FreeLockRuns(env: Env, s: State, t: nat)
    requires t < |s.threads| && Free(s.sh)
    requires WantsWrite(s.threads[t].pc) || s.threads[t].pc.Sleeping?
             || (WantsRead(s.threads[t].pc) && forall u :: 0 <= u < |s.threads| ==> !WantsWrite(s.threads[u].pc))
    ensures Runnable(env, s, t)
  {
  }

  lemma RecorderRuns(env: Env, s: State, t: nat) returns (r: nat)
    requires FansInv(env, s) && t < |s.threads| && Records(s.threads[t].pc)
    ensures r < |s.threads| && Runnable(env, s, r)
  {
    assert CallInv(s, t, s.threads[t]);
    var f := s.threads[t].call.fan;
    assert FanAt(s, f, env.numShards);
    if s.threads[t].pc.RecordWait? && s.sh.fans[f].mu.Some? {
      r := s.sh.fans[f].mu.value;
      assert CallInv(s, r, s.threads[r]);
    } else {
      r := t;
    }
  }

  /** As long as a call has not ended, some thread can run. */
  lemma NoDeadlock(env: Env, s: State, actions: seq<Action>) returns (r: nat)
    requires Reachable(env, s, actions) && !AllDone(s)
    ensures r < |s.threads| && Runnable(env, s, r)
  {
    ReachableInv(env, s, actions);
    ReachableFans(env, s, actions);
    if s.sh.writer.Some? {
      r := s.sh.writer.value;
      assert ThreadLock(s.sh, r, s.threads[r].pc);
      HolderRuns(env, s, r);
    } else if s.sh.readers != {} {
      r :| r in s.sh.readers;
      assert ThreadLock(s.sh, r, s.threads[r].pc);
      HolderRuns(env, s, r);
    } else if u :| 0 <= u < |s.threads| && WantsWrite(s.threads[u].pc) {
      r := u;
      FreeLockRuns(env, s, r);
    } else {
      var t :| 0 <= t < |s.threads| && !s.threads[t].pc.Done?;
      assert ThreadLock(s.sh, t, s.threads[t].pc);
      if Records(s.threads[t].pc) {
        r := RecorderRuns(env, s, t);
      } else {
        r := t;
        FreeLockRuns(env, s, r);
      }
    }
  }

  /** A finite set of calls, once nothing new is started, ends: every schedule of their steps is
      bounded, and one that cannot be extended has brought every call to its end. */
  lemma EveryCallEnds(env: Env, s: State, actions: seq<Action>, steps: seq<Action>, s': State)
    requires Reachable(env, s, actions)
    requires forall k :: 0 <= k < |steps| ==> steps[k].Step?
    requires After(env, s, steps) == Some(s')
    ensures |steps| <= TotalRank(s.threads)
    ensures (forall r :: 0 <= r < |s'.threads| ==> !Runnable(env, s', r)) ==> AllDone(s')
  {
    StepsAreBounded(env, s, steps);
    AfterJoined(env, INITIAL, actions, steps);
    if !AllDone(s') {
      var r := NoDeadlock(env, s', actions + steps);
    }
  }

  lemma {:induction false} AfterJoined(env: Env, s: State, first: seq<Action>, second: seq<Action>)
    requires After(env, s, first).Some?
    ensures After(env, s, first + second) == After(env, After(env, s, first).value, second)
    decreases |first|
  {
    if first == [] {
      assert first + second == second;
    } else {
      assert (first + second)[1..] == first[1..] + second;
      AfterJoined(env, Next(env, s, first[0]).value, first[1..], second);
    }
  }

  /** A thread that waits between attempts holds no lock, and one inside a fan-out's mutex does not hold
      the connector's. */
  lemma LocksAreNotNested(env: Env, s: State, actions: seq<Action>, t: nat)
    requires Reachable(env, s, actions) && t < |s.threads|
    ensures s.threads[t].pc.Sleeping? || Records(s.threads[t].pc) ==> s.sh.writer != Some(t) && t !in s.sh.readers
    ensures s.threads[t].pc.Sleeping? ==> forall f :: 0 <= f < |s.sh.fans| ==> s.sh.fans[f].mu != Some(t)
    ensures forall f :: 0 <= f < |s.sh.fans| && s.sh.fans[f].mu == Some(t) ==> Records(s.threads[t].pc)
  {
    ReachableInv(env, s, actions);
    ReachableFans(env, s, actions);
    assert ThreadLock(s.sh, t, s.threads[t].pc);
    assert CallInv(s, t, s.threads[t]);
    forall f | 0 <= f < |s.sh.fans| && s.sh.fans[f].mu == Some(t) ensures s.threads[t].pc.Recording? {
      assert FanAt(s, f, env.numShards);
    }
  }
}
