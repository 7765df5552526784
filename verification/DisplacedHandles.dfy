/** Schedules on which a connector loses a handle: opened, cached, displaced, and still open when everything
    has been closed (lib/cluster/tables/connection.go). */
module DisplacedHandles {
  import opened Text
  import opened Connector
  import opened HandleLedger

  /** Thread `t` is about to begin the first attempt of a connect that finds its shard configured and the lock
      free. */
  predicate AboutToConnect(s: State, t: nat) {
    && t < |s.threads| && s.threads[t].call.Connect? && s.threads[t].pc == ConfigWait(CONNECT_ATTEMPTS - 1)
    && s.threads[t].slot.shard in s.sh.configs && Free(s.sh)
  }

  function NewHandle(s: State, t: nat): Handle
    requires AboutToConnect(s, t)
  {
    Handle(s.threads[t].slot, TargetOf(s.sh.configs[s.threads[t].slot.shard], s.threads[t].slot.kind), 0)
  }

  /** The state but for the lock and the program point of thread `t`. */
  function Where(s: State, t: nat, writer: Option<nat>, readers: set<nat>, pc: Pc): State
    requires t < |s.threads|
  {
    State(s.sh.(writer := writer, readers := readers), s.threads[t := s.threads[t].(pc := pc)])
  }

  /** The thread takes the lock and finds nothing cached, or a handle that does not answer. */
  lemma TakesTheSlot(env: Env, s: State, actions: seq<Action>, t: nat) returns (s': State, actions': seq<Action>)
    requires Reachable(env, s, actions) && AboutToConnect(s, t)
    ensures Reachable(env, s', actions')
    ensures var slot := s.threads[t].slot;
            var failed := if slot in s.sh.conns then 1 else 0;
            s' == Where(s.(sh := s.sh.(failedPings := s.sh.failedPings + failed)), t, Some(t), {},
                        Opening(CONNECT_ATTEMPTS - 1, s.sh.configs[slot.shard]))
  {
    var config := s.sh.configs[s.threads[t].slot.shard];
    s', actions' := Proceed(env, s, actions, Step(t, true));
    assert s' == Where(s, t, None, {t}, ConfigRead(2));
    s', actions' := Proceed(env, s', actions', Step(t, true));
    assert s' == Where(s, t, None, {}, SlotWait(2, config));
    s', actions' := Proceed(env, s', actions', Step(t, true));
    assert s' == Where(s, t, Some(t), {}, SlotCheck(2, config));
    s', actions' := Proceed(env, s', actions', Step(t, false));
  }

  /** It opens a handle, which answers. */
  lemma OpensAHandle(env: Env, s: State, actions: seq<Action>, t: nat, config: ClientConfig)
    returns (s': State, actions': seq<Action>)
    requires Reachable(env, s, actions) && t < |s.threads|
    requires s.threads[t].pc == Opening(CONNECT_ATTEMPTS - 1, config) && s.sh.writer == Some(t) && s.sh.readers == {}
    ensures Reachable(env, s', actions')
    ensures var slot := s.threads[t].slot;
            s' == Where(s.(sh := s.sh.(handles := s.sh.handles + [Handle(slot, TargetOf(config, slot.kind), 0)])),
                        t, Some(t), {}, Storing(|s.sh.handles|))
  {
    var slot, h := s.threads[t].slot, |s.sh.handles|;
    var grown := s.(sh := s.sh.(handles := s.sh.handles + [Handle(slot, TargetOf(config, slot.kind), 0)]));
    s', actions' := Proceed(env, s, actions, Step(t, true));
    assert s' == Where(grown, t, Some(t), {}, Testing(2, h));
    s', actions' := Proceed(env, s', actions', Step(t, true));
  }

  /** It stores the handle and returns. */
  lemma StoresItsHandle(env: Env, s: State, actions: seq<Action>, t: nat, h: nat)
    returns (s': State, actions': seq<Action>)
    requires Reachable(env, s, actions) && t < |s.threads| && s.threads[t].call.Connect?
    requires s.threads[t].pc == Storing(h) && s.sh.writer == Some(t) && s.sh.readers == {}
    ensures Reachable(env, s', actions') && Free(s'.sh)
    ensures s'.sh.configs == s.sh.configs && s'.sh.handles == s.sh.handles
    ensures var slot := s.threads[t].slot;
            && s'.sh.conns == s.sh.conns[slot := h]
            && s'.sh.displaced == s.sh.displaced + if slot in s.sh.conns then {s.sh.conns[slot]} else {}
  {
    s', actions' := Proceed(env, s, actions, Step(t, true));
    s', actions' := Proceed(env, s', actions', Step(t, true));
  }

  /** A connect whose cached handle, if any, does not answer, and whose new one does. */
  lemma ConnectsAnew(env: Env, s: State, actions: seq<Action>, t: nat) returns (s': State, actions': seq<Action>)
    requires Reachable(env, s, actions) && AboutToConnect(s, t)
    ensures Reachable(env, s', actions') && Free(s'.sh) && s'.sh.configs == s.sh.configs
    ensures s'.sh.handles == s.sh.handles + [NewHandle(s, t)]
    ensures s'.sh.conns == s.sh.conns[s.threads[t].slot := |s.sh.handles|]
    ensures var slot := s.threads[t].slot;
            s'.sh.displaced == s.sh.displaced + if slot in s.sh.conns then {s.sh.conns[slot]} else {}
  {
    s', actions' := TakesTheSlot(env, s, actions, t);
    s', actions' := OpensAHandle(env, s', actions', t, s.sh.configs[s.threads[t].slot.shard]);
    s', actions' := StoresItsHandle(env, s', actions', t, |s.sh.handles|);
  }

  lemma Configured(env: Env, config: ClientConfig) returns (s: State, actions: seq<Action>)
    ensures Reachable(env, s, actions) && Free(s.sh) && s.sh.configs == map[0 := config]
    ensures s.sh.conns == map[] && s.sh.handles == [] && s.sh.displaced == {}
  {
    s, actions := Proceed(env, INITIAL, [], Spawn(Call.AddConfig(config), Slot(Read, 0)));
    s, actions := Proceed(env, s, actions, Step(0, true));
    s, actions := Proceed(env, s, actions, Step(0, true));
  }

  /** Another caller connects to the read slot of shard 0. */
  lemma AnotherConnect(env: Env, s: State, actions: seq<Action>) returns (s': State, actions': seq<Action>)
    requires Reachable(env, s, actions) && Free(s.sh) && 0 in s.sh.configs
    ensures Reachable(env, s', actions') && Free(s'.sh) && s'.sh.configs == s.sh.configs
    ensures |s'.sh.handles| == |s.sh.handles| + 1 && s'.sh.handles[..|s.sh.handles|] == s.sh.handles
    ensures s'.sh.handles[|s.sh.handles|].slot == Slot(Read, 0) && s'.sh.handles[|s.sh.handles|].closes == 0
    ensures s'.sh.conns == s.sh.conns[Slot(Read, 0) := |s.sh.handles|]
    ensures s'.sh.displaced == s.sh.displaced + if Slot(Read, 0) in s.sh.conns then {s.sh.conns[Slot(Read, 0)]} else {}
  {
    var t := |s.threads|;
    s', actions' := Proceed(env, s, actions, Spawn(Call.Connect, Slot(Read, 0)));
    assert s'.sh == s.sh && s'.threads[t] == Thread(Call.Connect, Slot(Read, 0), ConfigWait(2));
    s', actions' := ConnectsAnew(env, s', actions', t);
  }

  /** Two connects to one slot, the second of which finds the cached handle dead, leave a displaced handle:
      open, and in no slot. */
  lemma HandleIsDisplaced(env: Env, config: ClientConfig) returns (s: State, actions: seq<Action>)
    ensures Reachable(env, s, actions) && Free(s.sh) && |s.sh.handles| == 2
    ensures s.sh.displaced == {0} && s.sh.conns == map[Slot(Read, 0) := 1]
    ensures s.sh.handles[0].closes == 0 && !Cached(s.sh, 0)
  {
    s, actions := Configured(env, config);
    s, actions := AnotherConnect(env, s, actions);
    s, actions := AnotherConnect(env, s, actions);
  }

  /** And CloseAll does not close it. */
  lemma HandleStaysOpen(env: Env, config: ClientConfig) returns (s: State, actions: seq<Action>)
    ensures Reachable(env, s, actions) && Free(s.sh) && s.sh.conns == map[] && |s.sh.handles| == 2
    ensures s.sh.handles[0].closes == 0 && s.sh.handles[1].closes == 1
  {
    s, actions := HandleIsDisplaced(env, config);
    var t := |s.threads|;
    s, actions := Proceed(env, s, actions, Spawn(Call.CloseAll, Slot(Read, 0)));
    assert s.threads[t] == Thread(Call.CloseAll, Slot(Read, 0), CloseWait);
    s, actions := Proceed(env, s, actions, Step(t, true));
    assert s.threads[t] == Thread(Call.CloseAll, Slot(Read, 0), Closing);
    var before, earlier := s, actions;
    s, actions := Proceed(env, before, earlier, Step(t, true));
    AfterCloseAll(env, before, earlier, t, true, s);
    ReachableInv(env, s, actions);
    assert s.sh.displaced == {0};
  }
}
