/** ConnectAllShardsRead and ConnectAllShardsWrite account for every shard, under every schedule. */
module FanOuts {
  import opened Text
  import opened Connector
  import opened HandleLedger

  // ---- the goroutines of a fan-out ----

  /** Goroutine t has ended exactly when its shard is recorded, in the results with its handle or among
      the errors, and it is inside the fan-out's mutex exactly when it records. */
  predicate GoroutineInv(fan: FanOut, t: nat, th: Thread) {
    var i := th.slot.shard;
    && fan.base <= t < fan.base + fan.size && th.slot == Slot(fan.kind, t - fan.base)
    && (th.pc.Done? <==> i in fan.results || i in fan.errors)
    && (i in fan.results <==> th.pc.Done? && th.pc.result.Ok?)
    && (i in fan.results ==> th.pc.result == Ok(fan.results[i]))
    && !(i in fan.results && i in fan.errors)
    && (th.pc.Recording? <==> fan.mu == Some(t))
  }

  predicate FanInv(threads: nat, fan: FanOut) {
    && fan.base + fan.size <= threads
    && (forall i :: i in fan.results ==> 0 <= i < fan.size)
    && (forall i :: i in fan.errors ==> 0 <= i < fan.size)
    && (forall a, b :: 0 <= a < b < |fan.errors| ==> fan.errors[a] != fan.errors[b])
    && (fan.mu.Some? ==> fan.mu.value < threads)
  }

  /** Every goroutine belongs to a fan-out, only goroutines record, and only they and AddConfig calls
      add configurations. */
  predicate CallInv(s: State, t: nat, th: Thread) {
    && (th.call.Fan? ==> th.call.fan < |s.sh.fans| && GoroutineInv(s.sh.fans[th.call.fan], t, th))
    && (!th.call.Fan? ==> !Records(th.pc))
    && (th.pc.AddWait? || th.pc.Adding? ==> th.call.Fan? || th.call.AddConfig?)
    && (th.pc.GetWait? || th.pc.Getting? || th.pc.CloseWait? || th.pc.Closing? ==> !th.call.Fan?)
  }

  /** Goroutine i of fan-out f. */
  predicate Serves(s: State, f: nat, i: int)
    requires f < |s.sh.fans|
  {
    0 <= s.sh.fans[f].base + i < |s.threads| && s.threads[s.sh.fans[f].base + i].call == Fan(f)
  }

  predicate FanAt(s: State, f: nat, size: int)
    requires f < |s.sh.fans|
  {
    var fan := s.sh.fans[f];
    && FanInv(|s.threads|, fan) && fan.size == size
    && (fan.mu.Some? ==> s.threads[fan.mu.value].call == Fan(f))
  }

  ghost predicate FansInv(env: Env, s: State) {
    && (forall f :: 0 <= f < |s.sh.fans| ==> FanAt(s, f, env.numShards))
    && (forall f, i :: 0 <= f < |s.sh.fans| && 0 <= i < env.numShards ==> Serves(s, f, i))
    && (forall t :: 0 <= t < |s.threads| ==> CallInv(s, t, s.threads[t]))
  }

  lemma FansUntouched(env: Env, sh: Shared, t: nat, th: Thread, good: bool, m: Move)
    requires ThreadStep(env, sh, t, th, good) == Some(m)
    requires th.pc.GetWait? || th.pc.Getting? || th.pc.CloseWait? || th.pc.Closing? ==> !th.call.Fan?
    ensures !Records(th.pc) ==> m.sh.fans == sh.fans && !m.pc.Recording? && (m.pc.Done? ==> !th.call.Fan?)
    ensures m.pc.GetWait? || m.pc.Getting? || m.pc.CloseWait? || m.pc.Closing? ==> !th.call.Fan?
    ensures !Records(th.pc) && m.pc.RecordWait? ==> th.call.Fan?
    ensures m.pc.AddWait? || m.pc.Adding? ==> th.pc.AddWait?
    ensures !th.pc.Done?
  {
  }

  /** A goroutine's own step. */
  lemma OwnFanStep(env: Env, sh: Shared, t: nat, th: Thread, good: bool, m: Move, threads: nat)
    requires ThreadStep(env, sh, t, th, good) == Some(m)
    requires th.call.Fan? && th.call.fan < |sh.fans| && t < threads
    requires !(th.pc.GetWait? || th.pc.Getting? || th.pc.CloseWait? || th.pc.Closing?)
    requires FanInv(threads, sh.fans[th.call.fan]) && GoroutineInv(sh.fans[th.call.fan], t, th)
    ensures |m.sh.fans| == |sh.fans| && m.sh.fans == sh.fans[th.call.fan := m.sh.fans[th.call.fan]]
    ensures var before, now := sh.fans[th.call.fan], m.sh.fans[th.call.fan];
            && now.kind == before.kind && now.base == before.base && now.size == before.size
            && FanInv(threads, now) && GoroutineInv(now, t, th.(pc := m.pc))
            && (now.mu == before.mu || now.mu == Some(t) || (before.mu == Some(t) && now.mu == None))
            && (now.mu == Some(t) ==> before.mu == None || before.mu == Some(t))
            && (forall i :: i != th.slot.shard ==>
                              (i in now.results <==> i in before.results) && (i in now.errors <==> i in before.errors)
                              && (i in now.results ==> now.results[i] == before.results[i]))
  {
    FansUntouched(env, sh, t, th, good, m);
    var i := th.slot.shard;
    if th.pc.Recording? {
      var before, now := sh.fans[th.call.fan], m.sh.fans[th.call.fan];
      assert i !in before.results && i !in before.errors;
      if !th.pc.result.Ok? {
        assert now.errors == before.errors + [i];
        assert now.errors[|before.errors|] == i;
      }
    }
  }

  /** The other goroutines of the same fan-out serve other shards. */
  lemma PeerFanStep(before: FanOut, now: FanOut, t: nat, i: int, u: nat, peer: Thread)
    requires GoroutineInv(before, u, peer) && u != t && i == t - before.base
    requires now.kind == before.kind && now.base == before.base && now.size == before.size
    requires now.mu == before.mu || now.mu == Some(t) || (before.mu == Some(t) && now.mu == None)
    requires now.mu == Some(t) ==> before.mu == None || before.mu == Some(t)
    requires forall k :: k != i ==>
                           (k in now.results <==> k in before.results) && (k in now.errors <==> k in before.errors)
                           && (k in now.results ==> now.results[k] == before.results[k])
    ensures GoroutineInv(now, u, peer)
  {
  }

  lemma GoroutineStepKeepsFans(env: Env, s: State, t: nat, good: bool, s': State)
    requires FansInv(env, s) && t < |s.threads| && s.threads[t].call.Fan?
    requires Next(env, s, Step(t, good)) == Some(s')
    ensures FansInv(env, s')
  {
    var th := s.threads[t];
    var f := th.call.fan;
    var m := ThreadStep(env, s.sh, t, th, good).value;
    assert CallInv(s, t, th) && FanAt(s, f, env.numShards);
    OwnFanStep(env, s.sh, t, th, good, m, |s.threads|);
    FansUntouched(env, s.sh, t, th, good, m);
    forall u | 0 <= u < |s'.threads| ensures CallInv(s', u, s'.threads[u]) {
      assert CallInv(s, u, s.threads[u]);
      if u != t && s.threads[u].call == th.call {
        PeerFanStep(s.sh.fans[f], s'.sh.fans[f], t, th.slot.shard, u, s.threads[u]);
      }
    }
    forall g | 0 <= g < |s'.sh.fans| ensures FanAt(s', g, env.numShards) {
      assert FanAt(s, g, env.numShards);
    }
    forall g, i | 0 <= g < |s'.sh.fans| && 0 <= i < env.numShards ensures Serves(s', g, i) {
      assert Serves(s, g, i);
    }
  }

  lemma StepKeepsFans(env: Env, s: State, t: nat, good: bool, s': State)
    requires FansInv(env, s) && Next(env, s, Step(t, good)) == Some(s')
    ensures FansInv(env, s')
  {
    var th := s.threads[t];
    if th.call.Fan? {
      GoroutineStepKeepsFans(env, s, t, good, s');
    } else {
      assert CallInv(s, t, th);
      FansUntouched(env, s.sh, t, th, good, ThreadStep(env, s.sh, t, th, good).value);
      ThreadsOnly(env, s, t, s');
    }
  }

  lemma ThreadsOnly(env: Env, s: State, t: nat, s': State)
    requires FansInv(env, s) && t < |s.threads| && s'.sh.fans == s.sh.fans
    requires |s'.threads| == |s.threads| && s'.threads == s.threads[t := s'.threads[t]]
    requires s'.threads[t].call == s.threads[t].call && !s.threads[t].call.Fan? && CallInv(s', t, s'.threads[t])
    ensures FansInv(env, s')
  {
    forall u | 0 <= u < |s'.threads| ensures CallInv(s', u, s'.threads[u]) {
      assert CallInv(s, u, s.threads[u]);
    }
    forall g | 0 <= g < |s'.sh.fans| ensures FanAt(s', g, env.numShards) {
      assert FanAt(s, g, env.numShards);
    }
    forall g, i | 0 <= g < |s'.sh.fans| && 0 <= i < env.numShards ensures Serves(s', g, i) {
      assert Serves(s, g, i);
    }
  }

  lemma MoreThreads(env: Env, s: State, s': State)
    requires FansInv(env, s) && |s.threads| <= |s'.threads| && |s.sh.fans| <= |s'.sh.fans|
    requires forall u :: 0 <= u < |s.threads| ==> s'.threads[u] == s.threads[u]
    requires forall g :: 0 <= g < |s.sh.fans| ==> s'.sh.fans[g] == s.sh.fans[g]
    requires forall u :: |s.threads| <= u < |s'.threads| ==> CallInv(s', u, s'.threads[u])
    requires forall g :: |s.sh.fans| <= g < |s'.sh.fans| ==> FanAt(s', g, env.numShards)
    requires forall g, i :: |s.sh.fans| <= g < |s'.sh.fans| && 0 <= i < env.numShards ==> Serves(s', g, i)
    ensures FansInv(env, s')
  {
    forall u | 0 <= u < |s'.threads| ensures CallInv(s', u, s'.threads[u]) {
      assert u < |s.threads| ==> CallInv(s, u, s.threads[u]);
    }
    forall g | 0 <= g < |s'.sh.fans| ensures FanAt(s', g, env.numShards) {
      assert g < |s.sh.fans| ==> FanAt(s, g, env.numShards);
    }
    forall g, i | 0 <= g < |s'.sh.fans| && 0 <= i < env.numShards ensures Serves(s', g, i) {
      assert g < |s.sh.fans| ==> Serves(s, g, i);
    }
  }

  lemma NextKeepsFans(env: Env, s: State, a: Action, s': State)
    requires FansInv(env, s) && Next(env, s, a) == Some(s')
    ensures FansInv(env, s')
  {
    match a
    case Step(t, good) => StepKeepsFans(env, s, t, good, s');
    case Spawn(call, slot) => MoreThreads(env, s, s');
    case StartFan(kind) => MoreThreads(env, s, s');
  }

  lemma {:induction false} AfterKeepsFans(env: Env, s: State, actions: seq<Action>)
    requires FansInv(env, s)
    ensures After(env, s, actions).Some? ==> FansInv(env, After(env, s, actions).value)
    decreases |actions|
  {
    if actions != [] && Next(env, s, actions[0]).Some? {
      NextKeepsFans(env, s, actions[0], Next(env, s, actions[0]).value);
      AfterKeepsFans(env, Next(env, s, actions[0]).value, actions[1..]);
    }
  }

  lemma ReachableFans(env: Env, s: State, actions: seq<Action>)
    requires Reachable(env, s, actions)
    ensures FansInv(env, s)
  {
    assert FansInv(env, INITIAL);
    AfterKeepsFans(env, INITIAL, actions);
  }

  /** All goroutines of the fan-out have ended, which is when `wg.Wait()` returns. */
  predicate Complete(s: State, f: nat)
    requires f < |s.sh.fans|
  {
    forall t :: 0 <= t < |s.threads| && s.threads[t].call == Fan(f) ==> s.threads[t].pc.Done?
  }

  /** A completed fan-out has accounted for every shard once: with a handle opened for that very shard
      and kind, or with one error. No error means that every shard is connected. */
  lemma FanOutAccountsForEveryShard(env: Env, s: State, actions: seq<Action>, f: nat)
    requires Reachable(env, s, actions) && f < |s.sh.fans| && Complete(s, f)
    ensures var fan := s.sh.fans[f];
            && (forall i :: 0 <= i < env.numShards <==> i in fan.results || i in fan.errors)
            && (forall i :: !(i in fan.results && i in fan.errors))
            && (forall a, b :: 0 <= a < b < |fan.errors| ==> fan.errors[a] != fan.errors[b])
            && (fan.errors == [] ==> forall i :: i in fan.results <==> 0 <= i < env.numShards)
            && (forall i :: i in fan.results ==>
                              fan.results[i] < |s.sh.handles| && s.sh.handles[fan.results[i]].slot == Slot(fan.kind, i))
  {
    ReachableFans(env, s, actions);
    ReachableInv(env, s, actions);
    var fan := s.sh.fans[f];
    assert FanAt(s, f, env.numShards);
    forall i | 0 <= i < fan.size
      ensures i in fan.results || i in fan.errors
      ensures !(i in fan.results && i in fan.errors)
      ensures i in fan.results ==>
                fan.results[i] < |s.sh.handles| && s.sh.handles[fan.results[i]].slot == Slot(fan.kind, i)
    {
      var t := fan.base + i;
      assert Serves(s, f, i);
      assert CallInv(s, t, s.threads[t]);
      assert ResultInv(s.sh, s.threads[t]);
    }
  }
}
