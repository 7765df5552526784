/** Where a connector's handles lead when only its fan-outs add configurations. */
module HandleTargets {
  import opened Text
  import opened Routing
  import opened Connector
  import opened HandleLedger
  import opened FanOuts

  /** The configuration leads to endpoint `shard`, with the database of one of the two fan-outs. */
  predicate LeadsTo(env: Env, shard: int, config: ClientConfig) {
    && 0 <= shard < env.numShards
    && (config == EndpointConfig(env, Read, shard) || config == EndpointConfig(env, Write, shard))
  }

  /** The configuration a connect attempt has read. */
  function Holding(pc: Pc): Option<ClientConfig> {
    match pc
    case SlotWait(_, config) => Some(config)
    case SlotCheck(_, config) => Some(config)
    case Opening(_, config) => Some(config)
    case _ => None
  }

  predicate ThreadTargets(env: Env, th: Thread) {
    Holding(th.pc).Some? ==> LeadsTo(env, th.slot.shard, Holding(th.pc).value)
  }

  predicate HandleTarget(env: Env, h: Handle) {
    && 0 <= h.slot.shard < env.numShards
    && (h.target == TargetOf(EndpointConfig(env, Read, h.slot.shard), h.slot.kind)
        || h.target == TargetOf(EndpointConfig(env, Write, h.slot.shard), h.slot.kind))
  }

  ghost predicate OnlyFanOutsConfigure(s: State) {
    forall t :: 0 <= t < |s.threads| ==> !s.threads[t].call.AddConfig?
  }

  ghost predicate SharedTargets(env: Env, sh: Shared) {
    && (forall i :: i in sh.configs ==> LeadsTo(env, i, sh.configs[i]))
    && (forall h :: 0 <= h < |sh.handles| ==> HandleTarget(env, sh.handles[h]))
  }

  ghost predicate TargetInv(env: Env, s: State) {
    OnlyFanOutsConfigure(s) ==>
      SharedTargets(env, s.sh) && forall t :: 0 <= t < |s.threads| ==> ThreadTargets(env, s.threads[t])
  }

  lemma TargetStep(env: Env, sh: Shared, t: nat, th: Thread, good: bool, m: Move)
    requires ThreadStep(env, sh, t, th, good) == Some(m)
    requires SharedTargets(env, sh) && ThreadTargets(env, th) && !th.call.AddConfig?
    requires th.pc.Adding? ==> th.call.Fan? && 0 <= th.slot.shard < env.numShards
    ensures SharedTargets(env, m.sh) && ThreadTargets(env, th.(pc := m.pc))
  {
    if th.pc.Adding? {
      assert LeadsTo(env, th.slot.shard, ConfigToAdd(env, th));
    } else if th.pc.Opening? {
      OpenTarget(env, sh, th, good, m);
    } else {
      HandlesKeepTargets(env, sh, t, th, good, m);
      forall h | 0 <= h < |m.sh.handles| ensures HandleTarget(env, m.sh.handles[h]) {
        assert HandleTarget(env, sh.handles[h]);
      }
    }
  }

  lemma OpenTarget(env: Env, sh: Shared, th: Thread, good: bool, m: Move)
    requires SlotStep(sh, th, good) == Some(m) && th.pc.Opening?
    requires SharedTargets(env, sh) && ThreadTargets(env, th)
    ensures SharedTargets(env, m.sh) && Holding(m.pc) == None
  {
    assert LeadsTo(env, th.slot.shard, th.pc.config);
  }

  lemma HandlesKeepTargets(env: Env, sh: Shared, t: nat, th: Thread, good: bool, m: Move)
    requires ThreadStep(env, sh, t, th, good) == Some(m) && !th.pc.Adding? && !th.pc.Opening?
    ensures m.sh.configs == sh.configs && |m.sh.handles| == |sh.handles|
    ensures forall h :: 0 <= h < |sh.handles| ==>
                          m.sh.handles[h].slot == sh.handles[h].slot && m.sh.handles[h].target == sh.handles[h].target
    ensures Holding(m.pc).Some? ==>
              Holding(m.pc) == Holding(th.pc)
              || (th.slot.shard in sh.configs && Holding(m.pc).value == sh.configs[th.slot.shard])
  {
    if UsesSlot(th.pc) {
      SlotKeepsTargets(sh, th, good, m);
    } else if Records(th.pc) {
      assert m.sh.handles == sh.handles && m.sh.configs == sh.configs;
    } else {
      PlainKeepsTargets(env, sh, t, th, good, m);
    }
  }

  lemma SlotKeepsTargets(sh: Shared, th: Thread, good: bool, m: Move)
    requires SlotStep(sh, th, good) == Some(m) && !th.pc.Opening?
    ensures m.sh.configs == sh.configs && |m.sh.handles| == |sh.handles|
    ensures forall h :: 0 <= h < |sh.handles| ==>
                          m.sh.handles[h].slot == sh.handles[h].slot && m.sh.handles[h].target == sh.handles[h].target
    ensures Holding(m.pc).Some? ==> Holding(m.pc) == Holding(th.pc)
  {
  }

  lemma PlainKeepsTargets(env: Env, sh: Shared, t: nat, th: Thread, good: bool, m: Move)
    requires PlainStep(env, sh, t, th, good) == Some(m) && !th.pc.Adding?
    ensures m.sh.configs == sh.configs && |m.sh.handles| == |sh.handles|
    ensures forall h :: 0 <= h < |sh.handles| ==>
                          m.sh.handles[h].slot == sh.handles[h].slot && m.sh.handles[h].target == sh.handles[h].target
    ensures Holding(m.pc).Some? ==>
              Holding(m.pc) == Holding(th.pc)
              || (th.slot.shard in sh.configs && Holding(m.pc).value == sh.configs[th.slot.shard])
  {
  }

  lemma NextKeepsTargets(env: Env, s: State, a: Action, s': State)
    requires FansInv(env, s) && TargetInv(env, s) && Next(env, s, a) == Some(s')
    ensures TargetInv(env, s')
  {
    if OnlyFanOutsConfigure(s') {
      assert forall t :: 0 <= t < |s.threads| ==> s'.threads[t].call == s.threads[t].call;
      assert OnlyFanOutsConfigure(s);
      if a.Step? {
        var t := a.thread;
        var th := s.threads[t];
        assert CallInv(s, t, th);
        if th.call.Fan? {
          assert FanAt(s, th.call.fan, env.numShards);
        }
        TargetStep(env, s.sh, t, th, a.good, ThreadStep(env, s.sh, t, th, a.good).value);
        forall u | 0 <= u < |s'.threads| ensures ThreadTargets(env, s'.threads[u]) {
          assert ThreadTargets(env, s.threads[u]);
        }
      } else {
        forall u | 0 <= u < |s'.threads| ensures ThreadTargets(env, s'.threads[u]) {
          assert u < |s.threads| ==> ThreadTargets(env, s.threads[u]) && s'.threads[u] == s.threads[u];
        }
      }
    }
  }

  lemma {:induction false} AfterKeepsTargets(env: Env, s: State, actions: seq<Action>)
    requires FansInv(env, s) && TargetInv(env, s)
    ensures After(env, s, actions).Some? ==> TargetInv(env, After(env, s, actions).value)
    decreases |actions|
  {
    if actions != [] && Next(env, s, actions[0]).Some? {
      var s' := Next(env, s, actions[0]).value;
      NextKeepsFans(env, s, actions[0], s');
      NextKeepsTargets(env, s, actions[0], s');
      AfterKeepsTargets(env, s', actions[1..]);
    }
  }

  lemma ReachableTargets(env: Env, s: State, actions: seq<Action>)
    requires Reachable(env, s, actions)
    ensures TargetInv(env, s)
  {
    ReachableFans(env, INITIAL, []);
    AfterKeepsTargets(env, INITIAL, actions);
  }

  /** A cached handle leads to the host of its shard's endpoint, at the port of its kind. */
  lemma CachedHandleLeadsToEndpoint(env: Env, s: State, actions: seq<Action>, at: Slot)
    requires Reachable(env, s, actions) && OnlyFanOutsConfigure(s) && at in s.sh.conns
    ensures s.sh.conns[at] < |s.sh.handles| && 0 <= at.shard < env.numShards
    ensures var target := s.sh.handles[s.sh.conns[at]].target;
            var e := SqlEndpoint(env.network, env.domain, env.readPort, env.writePort, at.shard);
            target.host == e.host && target.port == (if at.kind.Read? then e.readPort else e.writePort)
  {
    ReachableInv(env, s, actions);
    ReachableTargets(env, s, actions);
    assert HandleTarget(env, s.sh.handles[s.sh.conns[at]]);
  }

  // ---- the database of a read handle ----

  /** Every handle opened for reading is on the connector's own database. */
  ghost predicate ReadsOwnDatabase(env: Env, s: State) {
    forall h :: 0 <= h < |s.sh.handles| && s.sh.handles[h].slot.kind.Read? ==>
                  s.sh.handles[h].target.database == env.database
  }

  /** The shared state and the two goroutines of shard 0 at a point of the schedule below; nothing has
      been opened so far. */
  predicate Scene(env: Env, s: State, read: Pc, write: Pc, writer: Option<nat>, readers: set<nat>,
                  config: Option<ClientConfig>)
    requires env.numShards > 0
  {
    && |s.threads| == 2 * env.numShards
    && s.threads[0] == Thread(Fan(0), Slot(Read, 0), read)
    && s.threads[env.numShards] == Thread(Fan(1), Slot(Write, 0), write)
    && s.sh.writer == writer && s.sh.readers == readers && s.sh.conns == map[] && s.sh.handles == []
    && (config.Some? ==> 0 in s.sh.configs && s.sh.configs[0] == config.value)
    && (forall t :: 0 <= t < |s.threads| ==> s.threads[t].call.Fan?)
  }

  /** Both fan-outs are under way, and the write goroutine of shard 0 has put its configuration over the
      one of the read goroutine. */
  lemma ConfigurationIsReplaced(env: Env) returns (s: State, actions: seq<Action>)
    requires HasEndpoints(env)
    ensures Reachable(env, s, actions)
    ensures Scene(env, s, ConfigWait(2), ConfigWait(2), None, {}, Some(EndpointConfig(env, Write, 0)))
  {
    var n := env.numShards;
    s, actions := INITIAL, [];
    s, actions := Proceed(env, s, actions, StartFan(Read));
    s, actions := Proceed(env, s, actions, StartFan(Write));
    assert Scene(env, s, AddWait, AddWait, None, {}, None);
    s, actions := Proceed(env, s, actions, Step(0, true));
    assert Scene(env, s, Adding, AddWait, Some(0), {}, None);
    s, actions := Proceed(env, s, actions, Step(0, true));
    assert Scene(env, s, ConfigWait(2), AddWait, None, {}, None);
    s, actions := Proceed(env, s, actions, Step(n, true));
    assert Scene(env, s, ConfigWait(2), Adding, Some(n), {}, None);
    s, actions := Proceed(env, s, actions, Step(n, true));
  }

  /** The read goroutine goes on to open its handle with it. */
  lemma ReplacedConfigurationIsUsed(env: Env) returns (s: State, actions: seq<Action>)
    requires HasEndpoints(env)
    ensures Reachable(env, s, actions) && OnlyFanOutsConfigure(s)
    ensures s.sh.handles == [Handle(Slot(Read, 0), TargetOf(EndpointConfig(env, Write, 0), Read), 0)]
  {
    var w := EndpointConfig(env, Write, 0);
    s, actions := ConfigurationIsReplaced(env);
    s, actions := Proceed(env, s, actions, Step(0, true));
    assert Scene(env, s, ConfigRead(2), ConfigWait(2), None, {0}, Some(w));
    s, actions := Proceed(env, s, actions, Step(0, true));
    assert Scene(env, s, SlotWait(2, w), ConfigWait(2), None, {}, Some(w));
    s, actions := Proceed(env, s, actions, Step(0, true));
    assert Scene(env, s, SlotCheck(2, w), ConfigWait(2), Some(0), {}, Some(w));
    s, actions := Proceed(env, s, actions, Step(0, true));
    assert Scene(env, s, Opening(2, w), ConfigWait(2), Some(0), {}, Some(w));
    s, actions := Proceed(env, s, actions, Step(0, true));
  }

  /** Under every schedule every read handle is on the connector's database, if and only if that
      database is the default one: the write fan-out leaves the database of its configurations at the
      default, and its configurations replace those of the read fan-out. */
  lemma ReadDatabaseIff(env: Env)
    requires HasEndpoints(env)
    ensures (forall s, actions :: Reachable(env, s, actions) && OnlyFanOutsConfigure(s) ==> ReadsOwnDatabase(env, s))
            <==> env.database == "mysql"
  {
    if env.database == DEFAULT_DATABASE {
      forall s, actions | Reachable(env, s, actions) && OnlyFanOutsConfigure(s) ensures ReadsOwnDatabase(env, s) {
        ReachableTargets(env, s, actions);
        forall h | 0 <= h < |s.sh.handles| && s.sh.handles[h].slot.kind.Read?
          ensures s.sh.handles[h].target.database == env.database
        {
          assert HandleTarget(env, s.sh.handles[h]);
        }
      }
    } else {
      var s, actions := ReplacedConfigurationIsUsed(env);
      assert !ReadsOwnDatabase(env, s) by {
        assert s.sh.handles[0].target.database == DEFAULT_DATABASE;
      }
    }
  }
}
