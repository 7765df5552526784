/** MultiDBConnector (lib/cluster/tables/connection.go) as a step system: any number of concurrent
    calls, a reader-writer mutex, and a ledger of every database handle that was ever opened.

    A call moves one program point at a time. Opening and pinging a database succeed or fail as the
    schedule says; both return. Reading a map and releasing the lock, and closing handles and
    releasing the lock, are one step, since nothing else can run in between. */
module Connector {
  import opened Text
  import opened Routing

  datatype Kind = Read | Write

  /** A place in the connector's two connection maps. */
  datatype Slot = Slot(kind: Kind, shard: int)

  datatype ClientConfig = ClientConfig(host: string, readPort: int, writePort: int, database: string)

  /** What the connector is created with. */
  datatype Env = Env(network: string, domain: string, database: string, numShards: int, readPort: int, writePort: int)

  const DEFAULT_DATABASE := "mysql"

  /** SQLEndpoints accepts the connector's shard count and ports. */
  predicate HasEndpoints(env: Env) {
    env.numShards > 0 && env.readPort > 0 && env.writePort > 0
  }

  /** The configuration the fan-out adds for a shard. Only the read fan-out sets the database. */
  function EndpointConfig(env: Env, kind: Kind, shard: nat): ClientConfig {
    var e := SqlEndpoint(env.network, env.domain, env.readPort, env.writePort, shard);
    ClientConfig(e.host, e.readPort, e.writePort, if kind.Read? then env.database else DEFAULT_DATABASE)
  }

  // ---- handles ----

  /** What a handle was opened to. */
  datatype Target = Target(host: string, port: int, database: string)

  function TargetOf(config: ClientConfig, kind: Kind): Target {
    Target(config.host, if kind.Read? then config.readPort else config.writePort, config.database)
  }

  /** A handle: the slot and target it was opened for, and how often it was closed. */
  datatype Handle = Handle(slot: Slot, target: Target, closes: nat)

  // ---- calls ----

  datatype Call =
    | Connect
    | AddConfig(config: ClientConfig)
    | Get
    | Close
    | CloseAll
    | Fan(fan: nat)   // a goroutine of ConnectAllShardsRead or ConnectAllShardsWrite

  datatype Result = Ok(handle: nat) | Errored | Finished

  const CONNECT_ATTEMPTS := 3

  /** Program points. `left` is the number of attempts that remain after the current one. */
  datatype Pc =
    | AddWait | Adding
    | ConfigWait(left: nat) | ConfigRead(left: nat)
    | SlotWait(left: nat, config: ClientConfig) | SlotCheck(left: nat, config: ClientConfig)
    | Opening(left: nat, config: ClientConfig) | Testing(left: nat, handle: nat)
    | Dropping(left: nat, handle: nat) | Storing(handle: nat)
    | Unlocking(handle: nat) | Releasing(left: nat)
    | Sleeping(left: nat)
    | GetWait | Getting
    | CloseWait | Closing
    | RecordWait(result: Result) | Recording(result: Result)
    | Done(result: Result)

  /** A call with the slot it is about. Close uses the shard of its slot only. */
  datatype Thread = Thread(call: Call, slot: Slot, pc: Pc)

  /** The shared state of one fan-out: goroutine `base + i` serves shard i. */
  datatype FanOut = FanOut(kind: Kind, base: nat, size: nat, mu: Option<nat>, results: map<int, nat>, errors: seq<int>)

  /** Everything but the program points. */
  datatype Shared = Shared(readers: set<nat>, writer: Option<nat>,
                           configs: map<int, ClientConfig>, conns: map<Slot, nat>,
                           handles: seq<Handle>, displaced: set<nat>, failedPings: nat, abandoned: nat,
                           fans: seq<FanOut>)

  datatype State = State(sh: Shared, threads: seq<Thread>)

  const INITIAL := State(Shared({}, None, map[], map[], [], {}, 0, 0, []), [])

  datatype Action =
    | Spawn(call: Call, slot: Slot)
    | StartFan(kind: Kind)
    | Step(thread: nat, good: bool)   // `good`: the ping, open or wait of this step succeeds

  function FirstPc(call: Call): Pc {
    match call
    case Connect => ConfigWait(CONNECT_ATTEMPTS - 1)
    case AddConfig(_) => AddWait
    case Get => GetWait
    case Close => CloseWait
    case CloseAll => CloseWait
    case Fan(_) => AddWait
  }

  /** What a step makes of the shared state and of its thread's program point. */
  datatype Move = Move(sh: Shared, pc: Pc)

  /** connect returns: a goroutine goes on to record the result. */
  function EndConnect(call: Call, result: Result): Pc {
    if call.Fan? then RecordWait(result) else Done(result)
  }

  /** An attempt has failed: wait for the next one, or give up. */
  function FailAttempt(call: Call, left: nat): Pc {
    if left == 0 then EndConnect(call, Errored) else Sleeping(left)
  }

  predicate Free(sh: Shared) {
    sh.writer == None && sh.readers == {}
  }

  /** The slots a Close or CloseAll empties. */
  predicate Clears(call: Call, slot: Slot, at: Slot) {
    call.CloseAll? || (call.Close? && at.shard == slot.shard)
  }

  function CloseHandles(handles: seq<Handle>, conns: map<Slot, nat>, call: Call, slot: Slot): (closed: seq<Handle>)
    ensures |closed| == |handles|
  {
    seq(|handles|, h requires 0 <= h < |handles| =>
      if handles[h].slot in conns && conns[handles[h].slot] == h && Clears(call, slot, handles[h].slot)
      then handles[h].(closes := handles[h].closes + 1) else handles[h])
  }

  /** An attempt ends without a new handle to store: a cached one that failed its ping stays. */
  function Abandoned(sh: Shared, slot: Slot): Shared {
    if slot in sh.conns then sh.(abandoned := sh.abandoned + 1) else sh
  }

  /** The checks and stores of connect, under the write lock. */
  function SlotStep(sh: Shared, th: Thread, good: bool): Option<Move> {
    match th.pc
    case SlotCheck(left, config) =>
      if th.slot !in sh.conns then Some(Move(sh, Opening(left, config)))
      else if good then Some(Move(sh, Unlocking(sh.conns[th.slot])))
      else Some(Move(sh.(failedPings := sh.failedPings + 1), Opening(left, config)))
    case Opening(left, config) =>
      if !good then Some(Move(Abandoned(sh, th.slot), Releasing(left)))
      else Some(Move(sh.(handles := sh.handles + [Handle(th.slot, TargetOf(config, th.slot.kind), 0)]),
                     Testing(left, |sh.handles|)))
    case Testing(left, h) => Some(Move(sh, if good then Storing(h) else Dropping(left, h)))
    case Dropping(left, h) =>
      if h >= |sh.handles| then None
      else
        var dropped := sh.handles[h].(closes := sh.handles[h].closes + 1);
        Some(Move(Abandoned(sh, th.slot).(handles := sh.handles[h := dropped]), Releasing(left)))
    case Storing(h) =>
      var previous := if th.slot in sh.conns then {sh.conns[th.slot]} else {};
      Some(Move(sh.(conns := sh.conns[th.slot := h], displaced := sh.displaced + previous), Unlocking(h)))
    case Unlocking(h) => Some(Move(sh.(writer := None), EndConnect(th.call, Ok(h))))
    case Releasing(left) => Some(Move(sh.(writer := None), FailAttempt(th.call, left)))
    case _ => None
  }

  function ConfigToAdd(env: Env, th: Thread): ClientConfig {
    if th.call.AddConfig? then th.call.config
    else EndpointConfig(env, th.slot.kind, if th.slot.shard >= 0 then th.slot.shard else 0)
  }

  /** The steps that take the lock or use it otherwise, and the wait between attempts. */
  function PlainStep(env: Env, sh: Shared, t: nat, th: Thread, good: bool): Option<Move> {
    match th.pc
    case AddWait => if Free(sh) then Some(Move(sh.(writer := Some(t)), Adding)) else None
    case Adding =>
      Some(Move(sh.(configs := sh.configs[th.slot.shard := ConfigToAdd(env, th)], writer := None),
                if th.call.Fan? then ConfigWait(CONNECT_ATTEMPTS - 1) else Done(Finished)))
    case ConfigWait(left) =>
      if sh.writer == None then Some(Move(sh.(readers := sh.readers + {t}), ConfigRead(left))) else None
    case ConfigRead(left) =>
      Some(Move(sh.(readers := sh.readers - {t}),
                if th.slot.shard in sh.configs then SlotWait(left, sh.configs[th.slot.shard])
                else FailAttempt(th.call, left)))
    case SlotWait(left, config) =>
      if Free(sh) then Some(Move(sh.(writer := Some(t)), SlotCheck(left, config))) else None
    case Sleeping(left) =>
      Some(Move(sh, if good && left > 0 then ConfigWait(left - 1) else EndConnect(th.call, Errored)))
    case GetWait => if sh.writer == None then Some(Move(sh.(readers := sh.readers + {t}), Getting)) else None
    case Getting =>
      Some(Move(sh.(readers := sh.readers - {t}), Done(if th.slot in sh.conns then Ok(sh.conns[th.slot]) else Errored)))
    case CloseWait => if Free(sh) then Some(Move(sh.(writer := Some(t)), Closing)) else None
    case Closing =>
      Some(Move(sh.(handles := CloseHandles(sh.handles, sh.conns, th.call, th.slot),
                    conns := map at | at in sh.conns && !Clears(th.call, th.slot, at) :: sh.conns[at],
                    writer := None), Done(Finished)))
    case _ => None
  }

  /** Recording a result under the fan-out's own mutex. */
  function RecordStep(sh: Shared, t: nat, th: Thread): Option<Move> {
    if !th.call.Fan? || th.call.fan >= |sh.fans| then None else
      var f := th.call.fan;
      var fan := sh.fans[f];
      match th.pc
      case RecordWait(result) =>
        if fan.mu == None then Some(Move(sh.(fans := sh.fans[f := fan.(mu := Some(t))]), Recording(result))) else None
      case Recording(result) =>
        var recorded :=
          if result.Ok? then fan.(results := fan.results[th.slot.shard := result.handle], mu := None)
          else fan.(errors := fan.errors + [th.slot.shard], mu := None);
        Some(Move(sh.(fans := sh.fans[f := recorded]), Done(result)))
      case _ => None
  }

  predicate UsesSlot(pc: Pc) {
    pc.SlotCheck? || pc.Opening? || pc.Testing? || pc.Dropping? || pc.Storing? || pc.Unlocking? || pc.Releasing?
  }

  predicate Records(pc: Pc) {
    pc.RecordWait? || pc.Recording?
  }

  function ThreadStep(env: Env, sh: Shared, t: nat, th: Thread, good: bool): Option<Move> {
    if UsesSlot(th.pc) then SlotStep(sh, th, good)
    else if Records(th.pc) then RecordStep(sh, t, th)
    else PlainStep(env, sh, t, th, good)
  }

  function Goroutines(f: nat, kind: Kind, size: nat): seq<Thread> {
    seq(size, i requires 0 <= i < size => Thread(Fan(f), Slot(kind, i), AddWait))
  }

  function Next(env: Env, s: State, a: Action): Option<State> {
    match a
    case Spawn(call, slot) =>
      if call.Fan? then None else Some(s.(threads := s.threads + [Thread(call, slot, FirstPc(call))]))
    case StartFan(kind) =>
      if !HasEndpoints(env) then None
      else Some(State(s.sh.(fans := s.sh.fans + [FanOut(kind, |s.threads|, env.numShards, None, map[], [])]),
                      s.threads + Goroutines(|s.sh.fans|, kind, env.numShards)))
    case Step(t, good) =>
      if t >= |s.threads| then None else
        match ThreadStep(env, s.sh, t, s.threads[t], good)
        case None => None
        case Some(m) => Some(State(m.sh, s.threads[t := s.threads[t].(pc := m.pc)]))
  }

  function After(env: Env, s: State, actions: seq<Action>): Option<State>
    decreases |actions|
  {
    if actions == [] then Some(s) else
      match Next(env, s, actions[0])
      case None => None
      case Some(s') => After(env, s', actions[1..])
  }

  predicate Reachable(env: Env, s: State, actions: seq<Action>) {
    After(env, INITIAL, actions) == Some(s)
  }

  lemma {:induction false} AfterSnoc(env: Env, s: State, actions: seq<Action>, a: Action)
    requires After(env, s, actions).Some?
    ensures After(env, s, actions + [a]) == Next(env, After(env, s, actions).value, a)
    decreases |actions|
  {
    if actions == [] {
      assert [] + [a] == [a] && [a][1..] == [];
    } else {
      assert (actions + [a])[1..] == actions[1..] + [a];
      AfterSnoc(env, Next(env, s, actions[0]).value, actions[1..], a);
    }
  }

  /** One action further along a schedule. */
  lemma Proceed(env: Env, s: State, actions: seq<Action>, a: Action) returns (s': State, actions': seq<Action>)
    requires Reachable(env, s, actions) && Next(env, s, a).Some?
    ensures Reachable(env, s', actions') && s' == Next(env, s, a).value
  {
    AfterSnoc(env, INITIAL, actions, a);
    s', actions' := Next(env, s, a).value, actions + [a];
  }

  // ---- the lock ----

  predicate HoldsWrite(pc: Pc) {
    pc.Adding? || pc.Closing? || UsesSlot(pc)
  }

  predicate HoldsRead(pc: Pc) {
    pc.ConfigRead? || pc.Getting?
  }

  /** The lock is held by exactly the threads whose program points say so. */
  predicate ThreadLock(sh: Shared, t: nat, pc: Pc) {
    (HoldsWrite(pc) <==> sh.writer == Some(t)) && (HoldsRead(pc) <==> t in sh.readers)
  }

  predicate LockInv(s: State) {
    && (s.sh.writer.Some? ==> s.sh.readers == {} && s.sh.writer.value < |s.threads|)
    && (forall t :: t in s.sh.readers ==> t < |s.threads|)
    && (forall t :: 0 <= t < |s.threads| ==> ThreadLock(s.sh, t, s.threads[t].pc))
  }

  /** What a step of thread t may do to the lock. */
  predicate LockMoves(sh: Shared, t: nat, m: Move) {
    && ThreadLock(m.sh, t, m.pc) && (m.sh.writer.Some? ==> m.sh.readers == {})
    && (m.sh.writer == sh.writer || (m.sh.writer == Some(t) && sh.writer == None)
        || (m.sh.writer == None && sh.writer == Some(t)))
    && (m.sh.readers == sh.readers || m.sh.readers == sh.readers + {t} || m.sh.readers == sh.readers - {t})
  }

  lemma SlotStepLocks(sh: Shared, t: nat, th: Thread, good: bool, m: Move)
    requires ThreadLock(sh, t, th.pc) && (sh.writer.Some? ==> sh.readers == {})
    requires SlotStep(sh, th, good) == Some(m)
    ensures LockMoves(sh, t, m)
  {
  }

  lemma PlainStepLocks(env: Env, sh: Shared, t: nat, th: Thread, good: bool, m: Move)
    requires ThreadLock(sh, t, th.pc) && (sh.writer.Some? ==> sh.readers == {})
    requires PlainStep(env, sh, t, th, good) == Some(m)
    ensures LockMoves(sh, t, m)
  {
  }

  lemma StepLocks(env: Env, sh: Shared, t: nat, th: Thread, good: bool, m: Move)
    requires ThreadLock(sh, t, th.pc) && (sh.writer.Some? ==> sh.readers == {})
    requires ThreadStep(env, sh, t, th, good) == Some(m)
    ensures LockMoves(sh, t, m)
  {
    if UsesSlot(th.pc) {
      SlotStepLocks(sh, t, th, good, m);
    } else if !Records(th.pc) {
      PlainStepLocks(env, sh, t, th, good, m);
    }
  }

  lemma NextKeepsLock(env: Env, s: State, a: Action, s': State)
    requires LockInv(s) && Next(env, s, a) == Some(s')
    ensures LockInv(s')
  {
    match a
    case Step(t, good) =>
      StepLocks(env, s.sh, t, s.threads[t], good, ThreadStep(env, s.sh, t, s.threads[t], good).value);
      forall u | 0 <= u < |s'.threads| ensures ThreadLock(s'.sh, u, s'.threads[u].pc) {
        assert ThreadLock(s.sh, u, s.threads[u].pc);
      }
    case Spawn(call, slot) => NewThreadsAreUnlocked(s, s');
    case StartFan(kind) => NewThreadsAreUnlocked(s, s');
  }

  lemma NewThreadsAreUnlocked(s: State, s': State)
    requires LockInv(s) && s'.sh.writer == s.sh.writer && s'.sh.readers == s.sh.readers
    requires |s.threads| <= |s'.threads| && forall t :: 0 <= t < |s.threads| ==> s'.threads[t] == s.threads[t]
    requires forall t :: |s.threads| <= t < |s'.threads| ==>
                           !HoldsWrite(s'.threads[t].pc) && !HoldsRead(s'.threads[t].pc)
    ensures LockInv(s')
  {
    forall u | 0 <= u < |s'.threads| ensures ThreadLock(s'.sh, u, s'.threads[u].pc) {
      if u < |s.threads| {
        assert ThreadLock(s.sh, u, s.threads[u].pc);
      }
    }
  }
}
