/** A fan-out in which every first attempt fails and every shard is connected all the same
    (lib/cluster/tables/connection.go). */
module SecondAttempts {
  import opened Text
  import opened Connector
  import opened DisplacedHandles
  import opened FanOuts
  import opened ConnectAttempts

  /** Between two schedules so many attempts of thread `t` failed, and none of any other thread. */
  ghost predicate Failures(env: Env, actions: seq<Action>, actions': seq<Action>, t: nat, failed: nat) {
    && After(env, INITIAL, actions).Some? && After(env, INITIAL, actions').Some?
    && forall u: nat ::
         CountOf(env, actions', u).failed == CountOf(env, actions, u).failed + if u == t then failed else 0
  }

  lemma FailuresAdd(env: Env, a0: seq<Action>, a1: seq<Action>, a2: seq<Action>, t: nat, k: nat, l: nat)
    requires Failures(env, a0, a1, t, k) && Failures(env, a1, a2, t, l)
    ensures Failures(env, a0, a2, t, k + l)
  {
  }

  /** One step of thread `t`. */
  lemma Take(env: Env, s: State, actions: seq<Action>, t: nat, good: bool) returns (s': State, actions': seq<Action>)
    requires Reachable(env, s, actions) && Next(env, s, Step(t, good)).Some?
    ensures Reachable(env, s', actions') && s' == Next(env, s, Step(t, good)).value
    ensures Failures(env, actions, actions', t, if FailsAttempt(s, Step(t, good), t) then 1 else 0)
  {
    AfterSnoc(env, INITIAL, actions, Step(t, good));
    s', actions' := Next(env, s, Step(t, good)).value, actions + [Step(t, good)];
    forall u: nat
      ensures CountOf(env, actions', u) == Counted(CountOf(env, actions, u), s, Step(t, good), u)
    {
      assert actions'[..|actions' | - 1] == actions;
    }
  }

  /** Thread `t` serves a shard in fan-out f, holds no lock, and is at program point `pc`. */
  predicate Serving(s: State, t: nat, f: nat, pc: Pc) {
    && t < |s.threads| && s.threads[t].call == Fan(f) && s.threads[t].pc == pc && f < |s.sh.fans|
    && s.sh.fans[f].mu == None && Free(s.sh) && s.threads[t].slot !in s.sh.conns
  }

  lemma Configures(env: Env, s: State, actions: seq<Action>, t: nat, f: nat) returns (s': State, actions': seq<Action>)
    requires Reachable(env, s, actions) && Serving(s, t, f, AddWait)
    ensures Reachable(env, s', actions') && Failures(env, actions, actions', t, 0)
    ensures Serving(s', t, f, ConfigWait(2)) && s.threads[t].slot.shard in s'.sh.configs
    ensures s' == Where(s.(sh := s.sh.(configs := s'.sh.configs)), t, None, {}, ConfigWait(2))
  {
    var s1, a1 := Take(env, s, actions, t, true);
    s', actions' := Take(env, s1, a1, t, true);
    FailuresAdd(env, actions, a1, actions', t, 0, 0);
  }

  lemma ReachesOpening(env: Env, s: State, actions: seq<Action>, t: nat, f: nat, left: nat)
    returns (s': State, actions': seq<Action>)
    requires Reachable(env, s, actions) && Serving(s, t, f, ConfigWait(left))
    requires s.threads[t].slot.shard in s.sh.configs
    ensures Reachable(env, s', actions') && Failures(env, actions, actions', t, 0)
    ensures s' == Where(s, t, Some(t), {}, Opening(left, s.sh.configs[s.threads[t].slot.shard]))
  {
    var config := s.sh.configs[s.threads[t].slot.shard];
    var s1, a1 := Take(env, s, actions, t, true);
    assert s1 == Where(s, t, None, {t}, ConfigRead(left));
    var s2, a2 := Take(env, s1, a1, t, true);
    assert s2 == Where(s, t, None, {}, SlotWait(left, config));
    var s3, a3 := Take(env, s2, a2, t, true);
    assert s3 == Where(s, t, Some(t), {}, SlotCheck(left, config));
    s', actions' := Take(env, s3, a3, t, true);
    FailuresAdd(env, actions, a1, a2, t, 0, 0);
    FailuresAdd(env, actions, a2, a3, t, 0, 0);
    FailuresAdd(env, actions, a3, actions', t, 0, 0);
  }

  /** The database does not open; the thread releases the lock, waits and comes back. */
  lemma FailsOnce(env: Env, s: State, actions: seq<Action>, t: nat, f: nat) returns (s': State, actions': seq<Action>)
    requires Reachable(env, s, actions) && Serving(s, t, f, ConfigWait(2))
    requires s.threads[t].slot.shard in s.sh.configs
    ensures Reachable(env, s', actions') && Failures(env, actions, actions', t, 1)
    ensures s' == Where(s, t, None, {}, ConfigWait(1))
  {
    var config := s.sh.configs[s.threads[t].slot.shard];
    var s0, a0 := ReachesOpening(env, s, actions, t, f, 2);
    var s1, a1 := Take(env, s0, a0, t, false);
    assert s1 == Where(s, t, Some(t), {}, Releasing(2));
    var s2, a2 := Take(env, s1, a1, t, true);
    assert s2 == Where(s, t, None, {}, Sleeping(2));
    s', actions' := Take(env, s2, a2, t, true);
    FailuresAdd(env, actions, a0, a1, t, 0, 1);
    FailuresAdd(env, actions, a1, a2, t, 1, 0);
    FailuresAdd(env, actions, a2, actions', t, 1, 0);
  }

  function Opened(s: State, t: nat, config: ClientConfig): State
    requires t < |s.threads|
  {
    var slot := s.threads[t].slot;
    s.(sh := s.sh.(handles := s.sh.handles + [Handle(slot, TargetOf(config, slot.kind), 0)]))
  }

  lemma OpensAndTests(env: Env, s: State, actions: seq<Action>, t: nat, f: nat)
    returns (s': State, actions': seq<Action>)
    requires Reachable(env, s, actions) && Serving(s, t, f, ConfigWait(1))
    requires s.threads[t].slot.shard in s.sh.configs
    ensures Reachable(env, s', actions') && Failures(env, actions, actions', t, 0)
    ensures s' == Where(Opened(s, t, s.sh.configs[s.threads[t].slot.shard]), t, Some(t), {}, Storing(|s.sh.handles|))
  {
    var config, h := s.sh.configs[s.threads[t].slot.shard], |s.sh.handles|;
    var s0, a0 := ReachesOpening(env, s, actions, t, f, 1);
    var s1, a1 := Take(env, s0, a0, t, true);
    assert s1 == Where(Opened(s, t, config), t, Some(t), {}, Testing(1, h));
    s', actions' := Take(env, s1, a1, t, true);
    FailuresAdd(env, actions, a0, a1, t, 0, 0);
    FailuresAdd(env, actions, a1, actions', t, 0, 0);
  }

  /** The thread stores its handle and releases the lock. */
  lemma Stores(env: Env, s: State, actions: seq<Action>, t: nat, f: nat, h: nat)
    returns (s': State, actions': seq<Action>)
    requires Reachable(env, s, actions)
    requires t < |s.threads| && s.threads[t] == Thread(Fan(f), s.threads[t].slot, Storing(h))
    requires s.sh.writer == Some(t) && s.sh.readers == {}
    ensures Reachable(env, s', actions') && Failures(env, actions, actions', t, 0) && Free(s'.sh)
    ensures s'.threads == s.threads[t := s.threads[t].(pc := RecordWait(Ok(h)))]
    ensures s'.sh.conns == s.sh.conns[s.threads[t].slot := h] && s'.sh.fans == s.sh.fans
  {
    var s1, a1 := Take(env, s, actions, t, true);
    assert s1.threads == s.threads[t := s.threads[t].(pc := Unlocking(h))];
    s', actions' := Take(env, s1, a1, t, true);
    FailuresAdd(env, actions, a1, actions', t, 0, 0);
  }

  /** It records the handle. */
  lemma RecordsIt(env: Env, s: State, actions: seq<Action>, t: nat, f: nat, h: nat)
    returns (s': State, actions': seq<Action>)
    requires Reachable(env, s, actions) && t < |s.threads| && f < |s.sh.fans| && s.sh.fans[f].mu == None
    requires s.threads[t] == Thread(Fan(f), s.threads[t].slot, RecordWait(Ok(h)))
    ensures Reachable(env, s', actions') && Failures(env, actions, actions', t, 0)
    ensures s'.threads == s.threads[t := s.threads[t].(pc := Done(Ok(h)))]
    ensures var fan := s.sh.fans[f];
            s'.sh == s.sh.(fans := s.sh.fans[f := fan.(results := fan.results[s.threads[t].slot.shard := h])])
  {
    var s1, a1 := Take(env, s, actions, t, true);
    assert s1.threads == s.threads[t := s.threads[t].(pc := Recording(Ok(h)))];
    s', actions' := Take(env, s1, a1, t, true);
    FailuresAdd(env, actions, a1, actions', t, 0, 0);
  }

  /** A goroutine whose first attempt fails and whose second succeeds. */
  lemma Recovers(env: Env, s: State, actions: seq<Action>, t: nat, f: nat) returns (s': State, actions': seq<Action>)
    requires Reachable(env, s, actions) && Serving(s, t, f, AddWait)
    ensures Reachable(env, s', actions') && Failures(env, actions, actions', t, 1) && Free(s'.sh)
    ensures |s'.threads| == |s.threads| && s'.threads[t].call == Fan(f) && s'.threads[t].pc.Done?
            && s'.threads[t].slot == s.threads[t].slot
    ensures forall u :: 0 <= u < |s.threads| && u != t ==> s'.threads[u] == s.threads[u]
    ensures s'.sh.conns.Keys == s.sh.conns.Keys + {s.threads[t].slot}
    ensures |s'.sh.fans| == |s.sh.fans| && s'.sh.fans[f].mu == None && s'.sh.fans[f].errors == s.sh.fans[f].errors
    ensures s'.sh.fans[f].base == s.sh.fans[f].base
  {
    var s1, a1 := Configures(env, s, actions, t, f);
    var s2, a2 := FailsOnce(env, s1, a1, t, f);
    var s3, a3 := OpensAndTests(env, s2, a2, t, f);
    var s4, a4 := Stores(env, s3, a3, t, f, |s2.sh.handles|);
    s', actions' := RecordsIt(env, s4, a4, t, f, |s2.sh.handles|);
    FailuresAdd(env, a3, a4, actions', t, 0, 0);
    FailuresAdd(env, actions, a1, a2, t, 0, 1);
    FailuresAdd(env, actions, a2, a3, t, 1, 0);
    FailuresAdd(env, actions, a3, actions', t, 1, 0);
  }

  /** The first `done` goroutines of the one fan-out there is have recovered, the others have yet to begin. */
  ghost predicate Recovered(env: Env, s: State, actions: seq<Action>, kind: Kind, done: nat) {
    && Reachable(env, s, actions) && Free(s.sh) && |s.threads| == env.numShards && |s.sh.fans| == 1
    && s.sh.fans[0].mu == None && s.sh.fans[0].errors == [] && s.sh.fans[0].base == 0
    && (forall t :: 0 <= t < |s.threads| ==> s.threads[t].call == Fan(0) && s.threads[t].slot == Slot(kind, t))
    && (forall t :: 0 <= t < |s.threads| && t < done ==> s.threads[t].pc.Done? && CountOf(env, actions, t).failed == 1)
    && (forall t :: done <= t < |s.threads| ==>
                      s.threads[t].pc == AddWait && Slot(kind, t) !in s.sh.conns
                      && CountOf(env, actions, t).failed == 0)
  }

  lemma OneMoreRecovers(env: Env, s: State, actions: seq<Action>, kind: Kind, done: nat)
    returns (s': State, actions': seq<Action>)
    requires Recovered(env, s, actions, kind, done) && done < env.numShards
    ensures Recovered(env, s', actions', kind, done + 1)
  {
    s', actions' := Recovers(env, s, actions, done, 0);
    forall t | 0 <= t < |s'.threads|
      ensures s'.threads[t].call == Fan(0) && s'.threads[t].slot == Slot(kind, t)
      ensures t < done + 1 ==> s'.threads[t].pc.Done? && CountOf(env, actions', t).failed == 1
      ensures t >= done + 1 ==> s'.threads[t].pc == AddWait && Slot(kind, t) !in s'.sh.conns
                                && CountOf(env, actions', t).failed == 0
    {
    }
  }

  lemma AllRecover(env: Env, s: State, actions: seq<Action>, kind: Kind, done: nat)
    returns (s': State, actions': seq<Action>)
    requires Recovered(env, s, actions, kind, done) && done <= env.numShards
    ensures Recovered(env, s', actions', kind, env.numShards)
    decreases env.numShards - done
  {
    if done == env.numShards {
      s', actions' := s, actions;
    } else {
      s', actions' := OneMoreRecovers(env, s, actions, kind, done);
      s', actions' := AllRecover(env, s', actions', kind, done + 1);
    }
  }

  /** The first attempt of every goroutine fails, and the fan-out completes without an error: every shard is
      among its results. */
  lemma EveryShardRecovers(env: Env, kind: Kind) returns (s: State, actions: seq<Action>)
    requires HasEndpoints(env)
    ensures Reachable(env, s, actions) && |s.sh.fans| == 1 && Complete(s, 0) && s.sh.fans[0].errors == []
    ensures forall i :: i in s.sh.fans[0].results <==> 0 <= i < env.numShards
    ensures |s.threads| == env.numShards
    ensures forall t :: 0 <= t < |s.threads| ==> CountOf(env, actions, t).failed == 1
  {
    actions := [StartFan(kind)];
    assert actions[1..] == [];
    s := Next(env, INITIAL, StartFan(kind)).value;
    assert After(env, INITIAL, actions) == After(env, s, []);
    forall t: nat ensures CountOf(env, actions, t) == Count(0, 0) {
      StartCountsNothing(env, actions, kind, t);
    }
    s, actions := AllRecover(env, s, actions, kind, 0);
    FanOutAccountsForEveryShard(env, s, actions, 0);
  }

  lemma StartCountsNothing(env: Env, actions: seq<Action>, kind: Kind, t: nat)
    requires actions == [StartFan(kind)] && After(env, INITIAL, actions).Some?
    ensures CountOf(env, actions, t) == Count(0, 0)
  {
    PrefixIsPossible(env, actions);
    assert actions[..0] == [];
  }
}
