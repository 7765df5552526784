/** While cached pings succeed and nothing is closed, every caller of a slot gets the same handle. */
module SharedHandles {
  import opened Text
  import opened Connector
  import opened HandleLedger

  predicate Closes(call: Call) {
    call.Close? || call.CloseAll?
  }

  /** No ping of a cached handle has failed, and nobody closes. */
  ghost predicate Calm(s: State) {
    s.sh.failedPings == 0 && forall t :: 0 <= t < |s.threads| ==> !Closes(s.threads[t].call)
  }

  /** Whatever a thread is about to return for its slot is what the slot holds. */
  predicate SharesSlot(sh: Shared, th: Thread) {
    Resulting(th.pc).Some? ==> th.slot in sh.conns && sh.conns[th.slot] == Resulting(th.pc).value
  }

  ghost predicate ShareInv(s: State) {
    Calm(s) ==> forall t :: 0 <= t < |s.threads| ==> SharesSlot(s.sh, s.threads[t])
  }

  lemma CalmStep(env: Env, sh: Shared, t: nat, th: Thread, good: bool, m: Move)
    requires ThreadStep(env, sh, t, th, good) == Some(m)
    requires SharesSlot(sh, th) && !Closes(th.call) && !PingFailed(sh, th) && m.sh.failedPings == 0
    ensures sh.failedPings == 0 && SharesSlot(m.sh, th.(pc := m.pc))
    ensures forall at :: at in sh.conns ==> at in m.sh.conns && m.sh.conns[at] == sh.conns[at]
  {
    if UsesSlot(th.pc) {
      CalmSlotStep(sh, th, good, m);
    } else if Records(th.pc) {
      assert m.sh.conns == sh.conns && Resulting(m.pc) == Resulting(th.pc);
    } else {
      CalmPlainStep(env, sh, t, th, good, m);
    }
  }

  lemma CalmSlotStep(sh: Shared, th: Thread, good: bool, m: Move)
    requires SlotStep(sh, th, good) == Some(m)
    requires SharesSlot(sh, th) && !PingFailed(sh, th) && m.sh.failedPings == 0
    ensures sh.failedPings == 0 && SharesSlot(m.sh, th.(pc := m.pc))
    ensures forall at :: at in sh.conns ==> at in m.sh.conns && m.sh.conns[at] == sh.conns[at]
  {
  }

  lemma CalmPlainStep(env: Env, sh: Shared, t: nat, th: Thread, good: bool, m: Move)
    requires PlainStep(env, sh, t, th, good) == Some(m)
    requires SharesSlot(sh, th) && !Closes(th.call)
    ensures m.sh.failedPings == sh.failedPings && SharesSlot(m.sh, th.(pc := m.pc))
    ensures forall at :: at in sh.conns ==> at in m.sh.conns && m.sh.conns[at] == sh.conns[at]
  {
  }

  lemma NextKeepsShare(env: Env, s: State, a: Action, s': State)
    requires Inv(s) && ShareInv(s) && Next(env, s, a) == Some(s')
    ensures ShareInv(s')
  {
    if Calm(s') {
      assert forall t :: 0 <= t < |s.threads| ==> s'.threads[t].call == s.threads[t].call;
      if a.Step? {
        var t := a.thread;
        var th := s.threads[t];
        FailedPingsGrow(env, s.sh, t, th, a.good, ThreadStep(env, s.sh, t, th, a.good).value);
        WriterPingFailed(s, t);
        CalmStep(env, s.sh, t, th, a.good, ThreadStep(env, s.sh, t, th, a.good).value);
        assert Calm(s);
        forall u | 0 <= u < |s'.threads| ensures SharesSlot(s'.sh, s'.threads[u]) {
          assert SharesSlot(s.sh, s.threads[u]);
        }
      } else {
        assert Calm(s);
        forall u | 0 <= u < |s'.threads| ensures SharesSlot(s'.sh, s'.threads[u]) {
          assert u < |s.threads| ==> SharesSlot(s.sh, s.threads[u]) && s'.threads[u] == s.threads[u];
        }
      }
    }
  }

  lemma FailedPingsGrow(env: Env, sh: Shared, t: nat, th: Thread, good: bool, m: Move)
    requires ThreadStep(env, sh, t, th, good) == Some(m)
    ensures sh.failedPings <= m.sh.failedPings
  {
  }

  /** Without a failed ping no thread is in a position to displace a handle. */
  lemma WriterPingFailed(s: State, t: nat)
    requires Inv(s) && t < |s.threads| && s.sh.failedPings == 0
    ensures !PingFailed(s.sh, s.threads[t])
  {
    assert ThreadLock(s.sh, t, s.threads[t].pc);
  }

  lemma {:induction false} AfterKeepsShare(env: Env, s: State, actions: seq<Action>)
    requires Inv(s) && ShareInv(s)
    ensures After(env, s, actions).Some? ==> ShareInv(After(env, s, actions).value)
    decreases |actions|
  {
    if actions != [] && Next(env, s, actions[0]).Some? {
      var s' := Next(env, s, actions[0]).value;
      NextKeepsInv(env, s, actions[0], s');
      NextKeepsShare(env, s, actions[0], s');
      AfterKeepsShare(env, s', actions[1..]);
    }
  }

  /** Any two calls that got a handle for the same slot got the same handle, the cached one. */
  lemma CallersShareTheHandle(env: Env, s: State, actions: seq<Action>, t: nat, u: nat)
    requires Reachable(env, s, actions) && Calm(s)
    requires t < |s.threads| && u < |s.threads| && s.threads[t].slot == s.threads[u].slot
    requires Resulting(s.threads[t].pc).Some? && Resulting(s.threads[u].pc).Some?
    ensures Resulting(s.threads[t].pc) == Resulting(s.threads[u].pc)
    ensures s.threads[t].slot in s.sh.conns && s.sh.conns[s.threads[t].slot] == Resulting(s.threads[t].pc).value
  {
    assert Inv(INITIAL) && ShareInv(INITIAL) by { ReachableInv(env, INITIAL, []); }
    AfterKeepsShare(env, INITIAL, actions);
    assert SharesSlot(s.sh, s.threads[t]) && SharesSlot(s.sh, s.threads[u]);
  }

  /** Of all the handles opened for a slot, only the cached one is open: the others failed their first
      ping and were closed. */
  lemma OneOpenHandlePerSlot(env: Env, s: State, actions: seq<Action>, h: nat)
    requires Reachable(env, s, actions) && Calm(s) && s.sh.writer == None && h < |s.sh.handles|
    ensures s.sh.handles[h].closes == 0 <==> Cached(s.sh, h)
  {
    HandlesPartition(env, s, actions, h);
    DisplacedArePaidFor(env, s, actions);
    assert s.sh.displaced == {};
  }

  /** A call to get a connection returns the handle that any other call of the slot has got. */
  lemma GetFindsTheHandle(env: Env, s: State, actions: seq<Action>, t: nat, g: nat, good: bool, s': State)
    requires Reachable(env, s, actions) && Calm(s)
    requires t < |s.threads| && g < |s.threads| && s.threads[t].slot == s.threads[g].slot
    requires Resulting(s.threads[t].pc).Some? && s.threads[g].pc == Getting
    requires Next(env, s, Step(g, good)) == Some(s')
    ensures s'.threads[g].pc == Done(Ok(Resulting(s.threads[t].pc).value))
  {
    CallersShareTheHandle(env, s, actions, t, t);
  }
}
