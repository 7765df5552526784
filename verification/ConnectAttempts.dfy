/** How connect and the goroutines of a fan-out come to an end: the retry loop of the connector's step system
    (lib/cluster/tables/connection.go, lib/cluster/utils/backoff.go). */
module ConnectAttempts {
  import opened Text
  import opened Connector
  import opened DisplacedHandles
  import opened FanOuts

  // ---- counting ----

  predicate Connects(call: Call) {
    call.Connect? || call.Fan?
  }

  /** The action ends an attempt of thread `t`: its shard is not configured, or the database does not open, or
      the new handle does not answer its first ping. */
  predicate FailsAttempt(s: State, a: Action, t: nat) {
    && a.Step? && a.thread == t && t < |s.threads| && Connects(s.threads[t].call)
    && (match s.threads[t].pc
        case ConfigRead(_) => s.threads[t].slot.shard !in s.sh.configs
        case Opening(_, _) => !a.good
        case Testing(_, _) => !a.good
        case _ => false)
  }

  /** The wait of thread `t` ends in its context's cancellation. */
  predicate CancelsWait(s: State, a: Action, t: nat) {
    a.Step? && a.thread == t && t < |s.threads| && Connects(s.threads[t].call) && s.threads[t].pc.Sleeping? && !a.good
  }

  /** How many attempts of thread `t` fail in a schedule, and how many of its waits are cancelled. */
  datatype Count = Count(failed: nat, cancelled: nat)

  function Counted(c: Count, s: State, a: Action, t: nat): Count {
    Count(c.failed + if FailsAttempt(s, a, t) then 1 else 0, c.cancelled + if CancelsWait(s, a, t) then 1 else 0)
  }

  function CountOf(env: Env, actions: seq<Action>, t: nat): Count
    requires After(env, INITIAL, actions).Some?
    decreases |actions|
  {
    if actions == [] then Count(0, 0) else
      var last := |actions| - 1;
      PrefixIsPossible(env, actions);
      Counted(CountOf(env, actions[..last], t), After(env, INITIAL, actions[..last]).value, actions[last], t)
  }

  lemma {:induction false} PrefixIsPossible(env: Env, actions: seq<Action>)
    requires actions != [] && After(env, INITIAL, actions).Some?
    ensures After(env, INITIAL, actions[..|actions| - 1]).Some?
    ensures After(env, INITIAL, actions)
            == Next(env, After(env, INITIAL, actions[..|actions| - 1]).value, actions[|actions| - 1])
  {
    PrefixFrom(env, INITIAL, actions);
  }

  lemma {:induction false} PrefixFrom(env: Env, s: State, actions: seq<Action>)
    requires actions != [] && After(env, s, actions).Some?
    ensures After(env, s, actions[..|actions| - 1]).Some?
    ensures After(env, s, actions) == Next(env, After(env, s, actions[..|actions| - 1]).value, actions[|actions| - 1])
    decreases |actions|
  {
    var init, last := actions[..|actions| - 1], actions[|actions| - 1];
    if |actions| > 1 {
      var s1 := Next(env, s, actions[0]).value;
      PrefixFrom(env, s1, actions[1..]);
      assert init[1..] == actions[1..][..|actions| - 2];
    } else {
      assert actions[1..] == [];
    }
  }

  // ---- the count at a program point ----

  predicate EndsErrored(pc: Pc) {
    pc == Done(Errored) || pc == RecordWait(Errored) || pc == Recording(Errored)
  }

  /** What has been counted for a connect or a goroutine that has come to a program point. */
  predicate CountFits(pc: Pc, c: Count) {
    match pc
    case ConfigWait(left) => left <= 2 && c == Count(2 - left, 0)
    case ConfigRead(left) => left <= 2 && c == Count(2 - left, 0)
    case SlotWait(left, _) => left <= 2 && c == Count(2 - left, 0)
    case SlotCheck(left, _) => left <= 2 && c == Count(2 - left, 0)
    case Opening(left, _) => left <= 2 && c == Count(2 - left, 0)
    case Testing(left, _) => left <= 2 && c == Count(2 - left, 0)
    case Dropping(left, _) => left <= 2 && c == Count(3 - left, 0)
    case Releasing(left) => left <= 2 && c == Count(3 - left, 0)
    case Sleeping(left) => 0 < left <= 2 && c == Count(3 - left, 0)
    case Storing(_) => c.failed <= 2 && c.cancelled == 0
    case Unlocking(_) => c.failed <= 2 && c.cancelled == 0
    case AddWait => c == Count(0, 0)
    case Adding => c == Count(0, 0)
    case RecordWait(r) => ResultFits(r, c)
    case Recording(r) => ResultFits(r, c)
    case Done(r) => ResultFits(r, c)
    case _ => false
  }

  /** A handle after at most two failed attempts, or an error after the third or a cancelled wait. */
  predicate ResultFits(r: Result, c: Count) {
    match r
    case Ok(_) => c.failed <= 2 && c.cancelled == 0
    case Errored => (c.failed == 3 && c.cancelled == 0) || (1 <= c.failed <= 2 && c.cancelled == 1)
    case Finished => false
  }

  lemma SlotStepCounts(sh: Shared, th: Thread, good: bool, m: Move, c: Count, c': Count)
    requires SlotStep(sh, th, good) == Some(m) && Connects(th.call) && CountFits(th.pc, c)
    requires c' == Count(c.failed + if (th.pc.Opening? || th.pc.Testing?) && !good then 1 else 0, c.cancelled)
    ensures CountFits(m.pc, c')
  {
  }

  lemma PlainStepCounts(env: Env, sh: Shared, t: nat, th: Thread, good: bool, m: Move, c: Count, c': Count)
    requires PlainStep(env, sh, t, th, good) == Some(m) && Connects(th.call) && CountFits(th.pc, c)
    requires th.pc.AddWait? || th.pc.Adding? ==> th.call.Fan?
    requires c' == Count(c.failed + if th.pc.ConfigRead? && th.slot.shard !in sh.configs then 1 else 0,
                         c.cancelled + if th.pc.Sleeping? && !good then 1 else 0)
    ensures CountFits(m.pc, c')
  {
  }

  lemma StepCounts(env: Env, s: State, t: nat, good: bool, s': State, c: Count)
    requires Next(env, s, Step(t, good)) == Some(s') && Connects(s.threads[t].call) && CountFits(s.threads[t].pc, c)
    requires s.threads[t].pc.AddWait? || s.threads[t].pc.Adding? ==> s.threads[t].call.Fan?
    ensures CountFits(s'.threads[t].pc, Counted(c, s, Step(t, good), t))
  {
    var th := s.threads[t];
    var m := ThreadStep(env, s.sh, t, th, good).value;
    var c' := Counted(c, s, Step(t, good), t);
    if UsesSlot(th.pc) {
      SlotStepCounts(s.sh, th, good, m, c, c');
    } else if !Records(th.pc) {
      PlainStepCounts(env, s.sh, t, th, good, m, c, c');
    }
  }

  lemma {:induction false} CountsFit(env: Env, s: State, actions: seq<Action>, t: nat)
    requires Reachable(env, s, actions) && t < |s.threads| && Connects(s.threads[t].call)
    ensures CountFits(s.threads[t].pc, CountOf(env, actions, t))
    decreases |actions|
  {
    PrefixIsPossible(env, actions);
    var last := |actions| - 1;
    var before, a := actions[..last], actions[last];
    var s0 := After(env, INITIAL, before).value;
    if t < |s0.threads| {
      CallsStay(env, s0, a, s, t);
      CountsFit(env, s0, before, t);
      ReachableFans(env, s0, before);
      assert CallInv(s0, t, s0.threads[t]);
      if a.Step? && a.thread == t {
        StepCounts(env, s0, t, a.good, s, CountOf(env, before, t));
      }
    } else {
      NothingCounted(env, s0, before, t);
    }
  }

  lemma CallsStay(env: Env, s: State, a: Action, s': State, t: nat)
    requires Next(env, s, a) == Some(s') && t < |s.threads|
    ensures t < |s'.threads| && s'.threads[t].call == s.threads[t].call
    ensures !(a.Step? && a.thread == t) ==> s'.threads[t] == s.threads[t]
  {
  }

  lemma {:induction false} NothingCounted(env: Env, s: State, actions: seq<Action>, t: nat)
    requires Reachable(env, s, actions) && t >= |s.threads|
    ensures CountOf(env, actions, t) == Count(0, 0)
    decreases |actions|
  {
    if actions != [] {
      PrefixIsPossible(env, actions);
      var last := |actions| - 1;
      var s0 := After(env, INITIAL, actions[..last]).value;
      ThreadsGrow(env, s0, actions[last], s);
      NothingCounted(env, s0, actions[..last], t);
    }
  }

  lemma ThreadsGrow(env: Env, s: State, a: Action, s': State)
    requires Next(env, s, a) == Some(s')
    ensures |s.threads| <= |s'.threads|
  {
  }

  /** Over every schedule: a connect, or a goroutine of a fan-out, that has come to its end has come to an error
      if and only if three of its attempts failed or its wait for the next was cancelled. */
  lemma ErroredIff(env: Env, s: State, actions: seq<Action>, t: nat)
    requires Reachable(env, s, actions) && t < |s.threads| && Connects(s.threads[t].call)
    requires s.threads[t].pc.Done? || Records(s.threads[t].pc)
    ensures EndsErrored(s.threads[t].pc)
            <==> CountOf(env, actions, t).failed == 3 || CountOf(env, actions, t).cancelled > 0
    ensures CountOf(env, actions, t).failed <= 3
  {
    CountsFit(env, s, actions, t);
  }

  /** A shard is among a fan-out's errors only if three attempts to connect to it failed or its wait was
      cancelled. */
  lemma FanOutErrorIff(env: Env, s: State, actions: seq<Action>, f: nat, i: nat)
    requires Reachable(env, s, actions) && f < |s.sh.fans| && Complete(s, f) && i < env.numShards
    ensures var t := s.sh.fans[f].base + i;
            i in s.sh.fans[f].errors
            <==> CountOf(env, actions, t).failed == 3 || CountOf(env, actions, t).cancelled > 0
  {
    ReachableFans(env, s, actions);
    var t := s.sh.fans[f].base + i;
    assert Serves(s, f, i) && FanAt(s, f, env.numShards);
    assert CallInv(s, t, s.threads[t]);
    FanOutAccountsForEveryShard(env, s, actions, f);
    CountsFit(env, s, actions, t);
  }
}
