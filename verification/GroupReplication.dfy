/** Joining a shard's replication group (lib/cluster/db/db.go, JoinGroupReplication and
    StartSQLContainers), as a protocol between any number of runs on any number of nodes.

    Every SQL statement is one atomic step on the database of its node. Any statement may be
    refused, and any statement may take effect and still be reported as failed. Runs interleave
    freely, may be killed at any point and started again, and a member may leave its group at any
    time. */
module GroupReplication {
  import opened Text
  import opened SqlNode

  // ---- the databases ----

  /** A member has been out of any group so far, is in one, or was in one. */
  datatype Membership = Never | In(group: nat) | Left(group: nat)

  /** The group replication state of one MySQL server. `starts` counts how often
      START GROUP_REPLICATION reached the server, whatever came of it. */
  datatype Db = Db(replUser: bool, bootstrap: bool, groupName: string, localAddress: string, seeds: string,
                   member: Membership, starts: nat)

  const FRESH_DB := Db(false, false, "", "", "", Never, 0)

  /** The nodes of a cluster and the settings each of them is given. */
  datatype Naming = Naming(nodes: set<Node>, groupName: string, address: Node -> string, seeds: Node -> string)

  /** A node's seed setting never lists a member of another shard. */
  ghost predicate Isolating(nm: Naming) {
    forall n, m :: n in nm.nodes && m in nm.nodes && nm.address(m) in Split(nm.seeds(n), ',') ==> m.shard == n.shard
  }

  // ---- the statements ----

  datatype Statement =
    | PluginStatus | PluginSql | PreparePlugin | ExecutePlugin | DeallocatePlugin
    | SetGroupName(name: string) | SetLocalAddress(address: string) | SetGroupSeeds(seeds: string)
    | SetAllowlist | SetSslMode | SetRecoverySsl | SetRecoveryCa | SetRecoveryCert | SetRecoveryKey
    | SetLogBin(on: bool) | CreateReplUser | GrantRepl | FlushPrivileges
    | SetBootstrap(on: bool)
    | StopGroupReplication | ResetBinaryLogs | ResetReplica | ChangeSource
    | StartGroupReplication | QueryMembers | ScanMembers

  function CommonStatements(nm: Naming, n: Node): seq<Statement> {
    [PluginStatus, PluginSql, PreparePlugin, ExecutePlugin, DeallocatePlugin,
     SetGroupName(nm.groupName), SetLocalAddress(nm.address(n)), SetGroupSeeds(nm.seeds(n)),
     SetAllowlist, SetSslMode, SetRecoverySsl, SetRecoveryCa, SetRecoveryCert, SetRecoveryKey,
     SetLogBin(false), CreateReplUser, GrantRepl, FlushPrivileges, SetLogBin(true)]
  }

  function RoleStatements(n: Node): seq<Statement> {
    if n.rep == 0 then [SetBootstrap(true)]
    else [StopGroupReplication, ResetBinaryLogs, ResetReplica, ChangeSource]
  }

  function FinalStatements(): seq<Statement> {
    [StartGroupReplication, SetBootstrap(false)]
  }

  /** Everything one call of JoinGroupReplication asks of the server, in order. */
  function Program(nm: Naming, n: Node): seq<Statement> {
    CommonStatements(nm, n) + RoleStatements(n) + FinalStatements() + [QueryMembers, ScanMembers]
  }

  const SET_NAME_AT := 5
  const SET_ADDRESS_AT := 6
  const SET_SEEDS_AT := 7
  const CREATE_USER_AT := 15
  const ROLE_AT := 19

  function StartAt(n: Node): nat {
    if n.rep == 0 then 20 else 23
  }

  function Length(n: Node): nat {
    StartAt(n) + 4
  }

  /** Statements that take a server out of its group or rewrite its log or its channels. */
  predicate Disruptive(s: Statement) {
    s.StopGroupReplication? || s.ResetBinaryLogs? || s.ResetReplica? || s.ChangeSource?
  }

  /** What the protocol needs to know of the statement at a program point. */
  predicate Fits(nm: Naming, n: Node, pc: nat, s: Statement) {
    && (s.SetGroupName? <==> pc == SET_NAME_AT) && (s.SetGroupName? ==> s.name == nm.groupName)
    && (s.SetLocalAddress? <==> pc == SET_ADDRESS_AT) && (s.SetLocalAddress? ==> s.address == nm.address(n))
    && (s.SetGroupSeeds? <==> pc == SET_SEEDS_AT) && (s.SetGroupSeeds? ==> s.seeds == nm.seeds(n))
    && (s.CreateReplUser? <==> pc == CREATE_USER_AT)
    && (s.StartGroupReplication? <==> pc == StartAt(n))
    && (s == SetBootstrap(true) <==> n.rep == 0 && pc == ROLE_AT)
    && (s == SetBootstrap(false) <==> pc == StartAt(n) + 1)
    && (Disruptive(s) <==> n.rep != 0 && ROLE_AT <= pc < StartAt(n))
    && (s.StopGroupReplication? <==> n.rep != 0 && pc == ROLE_AT)
  }

  lemma ProgramFits(nm: Naming, n: Node, pc: nat)
    requires pc < |Program(nm, n)|
    ensures |Program(nm, n)| == Length(n) && Fits(nm, n, pc, Program(nm, n)[pc])
  {
    var s := Program(nm, n)[pc];
    if pc < ROLE_AT {
      assert s == CommonStatements(nm, n)[pc];
    } else if pc < StartAt(n) {
      assert s == RoleStatements(n)[pc - ROLE_AT];
    } else if pc < StartAt(n) + 2 {
      assert s == FinalStatements()[pc - StartAt(n)];
    } else {
      assert s == [QueryMembers, ScanMembers][pc - StartAt(n) - 2];
    }
  }

  // ---- the world ----

  /** What becomes of a statement: done, refused without effect, or done but reported as failed. */
  datatype Fate = Done | Refused | Lost

  datatype Phase =
    | Attempt(pc: nat)     // inside JoinGroupReplication, about to execute statement pc
    | Waiting              // asleep between two attempts
    | Returned(ok: bool)   // StartSQLContainers returned
    | Killed               // the process went away

  /** One call of StartSQLContainers, with the attempts it still has after the current one. */
  datatype Run = Run(node: Node, retries: nat, phase: Phase)

  const NUM_RETRIES := 5

  /** `groups[g]` is the node that bootstrapped group g. */
  datatype World = World(dbs: map<Node, Db>, runs: seq<Run>, groups: seq<Node>)

  datatype Action =
    | Launch(node: Node)
    | Exec(run: nat, fate: Fate, contact: Node)
    | Wake(run: nat)
    | Kill(run: nat)
    | Depart(node: Node)

  function FreshWorld(nm: Naming): World {
    World(map n | n in nm.nodes :: FRESH_DB, [], [])
  }

  /** A server lets a joiner in when it is a member, listens on one of the joiner's seed addresses
      and serves a group of the same name. */
  predicate Admits(w: World, joiner: Db, contact: Node) {
    && contact in w.dbs
    && w.dbs[contact].member.In?
    && w.dbs[contact].groupName == joiner.groupName
    && w.dbs[contact].localAddress in Split(joiner.seeds, ',')
  }

  /** The effect of a statement on its server, or None where the server refuses it. The group list
      grows when the statement bootstraps a group. */
  function Effect(w: World, n: Node, s: Statement, contact: Node): Option<World>
    requires n in w.dbs
  {
    var db := w.dbs[n];
    match s
    case SetGroupName(name) => Some(w.(dbs := w.dbs[n := db.(groupName := name)]))
    case SetLocalAddress(address) => Some(w.(dbs := w.dbs[n := db.(localAddress := address)]))
    case SetGroupSeeds(seeds) => Some(w.(dbs := w.dbs[n := db.(seeds := seeds)]))
    case CreateReplUser => if db.replUser then None else Some(w.(dbs := w.dbs[n := db.(replUser := true)]))
    case SetBootstrap(on) => Some(w.(dbs := w.dbs[n := db.(bootstrap := on)]))
    case StopGroupReplication =>
      Some(w.(dbs := w.dbs[n := if db.member.In? then db.(member := Left(db.member.group)) else db]))
    case StartGroupReplication =>
      if db.member.In? then None
      else if db.bootstrap then
        Some(w.(dbs := w.dbs[n := db.(member := In(|w.groups|))], groups := w.groups + [n]))
      else if Admits(w, db, contact) then
        Some(w.(dbs := w.dbs[n := db.(member := In(w.dbs[contact].member.group))]))
      else None
    case _ => Some(w)
  }

  function CountStart(w: World, n: Node, s: Statement): World
    requires n in w.dbs
  {
    if s.StartGroupReplication? then w.(dbs := w.dbs[n := w.dbs[n].(starts := w.dbs[n].starts + 1)]) else w
  }

  /** The run moves past a statement that succeeded; past the last one, StartSQLContainers returns nil. */
  function Advance(r: Run): Run
    requires r.phase.Attempt?
  {
    r.(phase := if r.phase.pc + 1 == Length(r.node) then Returned(true) else Attempt(r.phase.pc + 1))
  }

  /** A failed statement ends the attempt, and the last failed attempt ends the run. */
  function Fail(r: Run): Run {
    r.(phase := if r.retries == 0 then Returned(false) else Waiting)
  }

  /** Run `i` executes statement `s`. */
  function Perform(w: World, i: nat, s: Statement, fate: Fate, contact: Node): Option<World>
    requires i < |w.runs| && w.runs[i].node in w.dbs && w.runs[i].phase.Attempt?
  {
    var r := w.runs[i];
    var counted := CountStart(w, r.node, s);
    if fate.Refused? then Some(counted.(runs := w.runs[i := Fail(r)]))
    else
      match Effect(counted, r.node, s, contact)
      case None => None
      case Some(w') => Some(w'.(runs := w.runs[i := if fate.Done? then Advance(r) else Fail(r)]))
  }

  /** The world after an action, or None where the action is not possible. */
  function Next(nm: Naming, w: World, a: Action): Option<World> {
    match a
    case Launch(n) =>
      if n !in w.dbs then None else Some(w.(runs := w.runs + [Run(n, NUM_RETRIES - 1, Attempt(0))]))
    case Exec(i, fate, contact) =>
      if i < |w.runs| && w.runs[i].node in w.dbs
         && w.runs[i].phase.Attempt? && w.runs[i].phase.pc < |Program(nm, w.runs[i].node)|
      then Perform(w, i, Program(nm, w.runs[i].node)[w.runs[i].phase.pc], fate, contact) else None
    case Wake(i) =>
      if i < |w.runs| && w.runs[i].phase.Waiting? && w.runs[i].retries > 0
      then Some(w.(runs := w.runs[i := w.runs[i].(retries := w.runs[i].retries - 1, phase := Attempt(0))])) else None
    case Kill(i) =>
      if i < |w.runs| && (w.runs[i].phase.Attempt? || w.runs[i].phase.Waiting?)
      then Some(w.(runs := w.runs[i := w.runs[i].(phase := Killed)])) else None
    case Depart(n) =>
      if n in w.dbs && w.dbs[n].member.In?
      then Some(w.(dbs := w.dbs[n := w.dbs[n].(member := Left(w.dbs[n].member.group))])) else None
  }

  /** The world after a whole schedule. */
  function After(nm: Naming, w: World, actions: seq<Action>): Option<World>
    decreases |actions|
  {
    if actions == [] then Some(w) else
      match Next(nm, w, actions[0])
      case None => None
      case Some(w') => After(nm, w', actions[1..])
  }

  predicate Reachable(nm: Naming, w: World, actions: seq<Action>) {
    After(nm, FreshWorld(nm), actions) == Some(w)
  }

  // ---- the invariant ----

  predicate PastCreateUser(r: Run) {
    r.phase.Attempt? && r.phase.pc > CREATE_USER_AT
  }

  predicate DbInv(nm: Naming, groups: seq<Node>, n: Node, db: Db) {
    && db.starts <= 1
    && (!db.replUser ==> db.starts == 0 && !db.bootstrap)
    && (db.bootstrap ==> n.rep == 0)
    && (!db.member.Never? ==> db.starts == 1 && db.groupName == nm.groupName && db.localAddress == nm.address(n)
                              && db.member.group < |groups| && groups[db.member.group].shard == n.shard)
  }

  /** What holds of the database of a run that is about to execute statement `pc`. */
  predicate PointInv(nm: Naming, db: Db, n: Node, pc: nat) {
    && pc < Length(n)
    && (pc > SET_NAME_AT ==> db.groupName == nm.groupName)
    && (pc > SET_ADDRESS_AT ==> db.localAddress == nm.address(n))
    && (pc > SET_SEEDS_AT ==> db.seeds == nm.seeds(n))
    && (pc > CREATE_USER_AT ==> db.replUser)
    && (CREATE_USER_AT < pc <= StartAt(n) ==> db.starts == 0 && db.member.Never?)
    && (pc == StartAt(n) ==> (db.bootstrap <==> n.rep == 0))
    && (pc > StartAt(n) ==> db.starts == 1 && !db.member.Never?)
    && (pc > StartAt(n) + 1 ==> !db.bootstrap)
  }

  predicate RunInv(nm: Naming, r: Run, db: Db) {
    && (r.phase.Attempt? ==> PointInv(nm, db, r.node, r.phase.pc))
    && (r.phase == Returned(true) ==> db.replUser && db.starts == 1 && !db.member.Never? && !db.bootstrap)
  }

  predicate GroupInv(g: nat, founder: Node, db: Db) {
    founder.rep == 0 && !db.member.Never? && db.member.group == g
  }

  /** Two runs of one node are not both past CREATE USER, nor is one of them past it once another
      has returned nil. */
  predicate Compatible(r1: Run, r2: Run) {
    r1.node == r2.node && PastCreateUser(r1) ==> !PastCreateUser(r2) && r2.phase != Returned(true)
  }

  ghost predicate Inv(nm: Naming, w: World) {
    && w.dbs.Keys == nm.nodes
    && (forall n :: n in w.dbs ==> DbInv(nm, w.groups, n, w.dbs[n]))
    && (forall i :: 0 <= i < |w.runs| ==> w.runs[i].node in w.dbs && RunInv(nm, w.runs[i], w.dbs[w.runs[i].node]))
    && (forall g :: 0 <= g < |w.groups| ==> w.groups[g] in w.dbs && GroupInv(g, w.groups[g], w.dbs[w.groups[g]]))
    && (forall i, j :: 0 <= i < |w.runs| && 0 <= j < |w.runs| && i != j ==> Compatible(w.runs[i], w.runs[j]))
  }

  lemma FreshInv(nm: Naming)
    ensures Inv(nm, FreshWorld(nm))
  {
  }

  /** A statement touches the database and the run that execute it, and may found a group. */
  lemma PerformFrame(w: World, i: nat, s: Statement, fate: Fate, contact: Node, w': World)
    requires i < |w.runs| && w.runs[i].node in w.dbs && w.runs[i].phase.Attempt?
    requires Perform(w, i, s, fate, contact) == Some(w')
    ensures var n := w.runs[i].node;
            && n in w'.dbs && w'.dbs == w.dbs[n := w'.dbs[n]]
            && |w'.runs| == |w.runs| && w'.runs == w.runs[i := w'.runs[i]] && w'.runs[i].node == n
            && (w'.groups == w.groups || w'.groups == w.groups + [n])
            && (w.dbs[n].replUser ==> w'.dbs[n].replUser)
            && (!fate.Done? ==> w'.runs[i] == Fail(w.runs[i]))
            && (fate.Done? ==> w'.runs[i] == Advance(w.runs[i]))
  {
  }

  /** The executing node and run keep their invariants. */
  lemma SelfKept(nm: Naming, w: World, i: nat, s: Statement, fate: Fate, contact: Node, w': World)
    requires i < |w.runs| && w.runs[i].node in w.dbs && w.runs[i].phase.Attempt?
    requires Perform(w, i, s, fate, contact) == Some(w')
    requires var r := w.runs[i]; Fits(nm, r.node, r.phase.pc, s) && RunInv(nm, r, w.dbs[r.node])
                                 && DbInv(nm, w.groups, r.node, w.dbs[r.node])
    requires s.StartGroupReplication? && contact in w.dbs && Admits(w, w.dbs[w.runs[i].node], contact) ==>
               contact.shard == w.runs[i].node.shard && DbInv(nm, w.groups, contact, w.dbs[contact])
    ensures var n := w.runs[i].node;
            && DbInv(nm, w'.groups, n, w'.dbs[n]) && RunInv(nm, w'.runs[i], w'.dbs[n])
            && (w'.groups != w.groups ==> GroupInv(|w.groups|, n, w'.dbs[n]))
            && (!w.dbs[n].member.Never? ==> !w'.dbs[n].member.Never? && w'.dbs[n].member.group == w.dbs[n].member.group)
  {
    if s.StartGroupReplication? {
      StartKept(nm, w, i, fate, contact, w');
    } else {
      OtherKept(nm, w, i, s, fate, contact, w');
    }
  }

  lemma StartKept(nm: Naming, w: World, i: nat, fate: Fate, contact: Node, w': World)
    requires i < |w.runs| && w.runs[i].node in w.dbs && w.runs[i].phase.Attempt?
    requires Perform(w, i, StartGroupReplication, fate, contact) == Some(w')
    requires var r := w.runs[i]; r.phase.pc == StartAt(r.node) && RunInv(nm, r, w.dbs[r.node])
                                 && DbInv(nm, w.groups, r.node, w.dbs[r.node])
    requires contact in w.dbs && Admits(w, w.dbs[w.runs[i].node], contact) ==>
               contact.shard == w.runs[i].node.shard && DbInv(nm, w.groups, contact, w.dbs[contact])
    ensures var n := w.runs[i].node;
            && DbInv(nm, w'.groups, n, w'.dbs[n]) && RunInv(nm, w'.runs[i], w'.dbs[n])
            && (w'.groups != w.groups ==> GroupInv(|w.groups|, n, w'.dbs[n])) && w.dbs[n].member.Never?
  {
    assert w.dbs[w.runs[i].node].starts == 0;
  }

  lemma OtherKept(nm: Naming, w: World, i: nat, s: Statement, fate: Fate, contact: Node, w': World)
    requires i < |w.runs| && w.runs[i].node in w.dbs && w.runs[i].phase.Attempt? && !s.StartGroupReplication?
    requires Perform(w, i, s, fate, contact) == Some(w')
    requires var r := w.runs[i]; Fits(nm, r.node, r.phase.pc, s) && RunInv(nm, r, w.dbs[r.node])
                                 && DbInv(nm, w.groups, r.node, w.dbs[r.node])
    ensures var n := w.runs[i].node;
            && DbInv(nm, w'.groups, n, w'.dbs[n]) && RunInv(nm, w'.runs[i], w'.dbs[n]) && w'.groups == w.groups
            && (!w.dbs[n].member.Never? ==> !w'.dbs[n].member.Never? && w'.dbs[n].member.group == w.dbs[n].member.group)
  {
  }

  /** So does any other run of the same node. */
  lemma PeerKept(nm: Naming, w: World, i: nat, s: Statement, fate: Fate, contact: Node, w': World, r2: Run)
    requires i < |w.runs| && w.runs[i].node in w.dbs && w.runs[i].phase.Attempt?
    requires Perform(w, i, s, fate, contact) == Some(w')
    requires var r := w.runs[i]; Fits(nm, r.node, r.phase.pc, s) && RunInv(nm, r, w.dbs[r.node])
    requires r2.node == w.runs[i].node && RunInv(nm, r2, w.dbs[r2.node])
    requires Compatible(w.runs[i], r2)
    requires r2.phase == Returned(true) || PastCreateUser(r2) ==> w.dbs[r2.node].replUser
    ensures RunInv(nm, r2, w'.dbs[r2.node])
    ensures Compatible(r2, w.runs[i]) ==> Compatible(w'.runs[i], r2) && Compatible(r2, w'.runs[i])
  {
  }

  /** One run and one database change, and everything about them still holds. */
  lemma Assemble(nm: Naming, w: World, n: Node, i: nat, w': World)
    requires Inv(nm, w) && n in w.dbs && n in w'.dbs && i < |w.runs| && w.runs[i].node == n
    requires w'.dbs == w.dbs[n := w'.dbs[n]]
    requires |w'.runs| == |w.runs| && w'.runs == w.runs[i := w'.runs[i]] && w'.runs[i].node == n
    requires w'.groups == w.groups || (w'.groups == w.groups + [n] && GroupInv(|w.groups|, n, w'.dbs[n]))
    requires DbInv(nm, w'.groups, n, w'.dbs[n]) && RunInv(nm, w'.runs[i], w'.dbs[n])
    requires !w.dbs[n].member.Never? ==> !w'.dbs[n].member.Never? && w'.dbs[n].member.group == w.dbs[n].member.group
    requires forall j :: 0 <= j < |w.runs| && j != i && w.runs[j].node == n ==> RunInv(nm, w.runs[j], w'.dbs[n])
    requires forall j :: 0 <= j < |w.runs| && j != i ==>
                           Compatible(w'.runs[i], w.runs[j]) && Compatible(w.runs[j], w'.runs[i])
    ensures Inv(nm, w')
  {
    assert forall j :: 0 <= j < |w.runs| && j != i ==> w'.runs[j] == w.runs[j];
    forall g | 0 <= g < |w'.groups|
      ensures w'.groups[g] in w'.dbs && GroupInv(g, w'.groups[g], w'.dbs[w'.groups[g]])
    {
      assert g < |w.groups| ==> w'.groups[g] == w.groups[g] && GroupInv(g, w.groups[g], w.dbs[w.groups[g]]);
    }
    forall m | m in w'.dbs ensures DbInv(nm, w'.groups, m, w'.dbs[m]) {
      assert DbInv(nm, w.groups, m, w.dbs[m]);
    }
    forall j | 0 <= j < |w'.runs|
      ensures w'.runs[j].node in w'.dbs && RunInv(nm, w'.runs[j], w'.dbs[w'.runs[j].node])
    {
      assert RunInv(nm, w.runs[j], w.dbs[w.runs[j].node]);
    }
  }

  lemma PerformKeepsInv(nm: Naming, w: World, i: nat, s: Statement, fate: Fate, contact: Node, w': World)
    requires Isolating(nm) && Inv(nm, w) && i < |w.runs| && w.runs[i].phase.Attempt?
    requires w.runs[i].node in w.dbs && Perform(w, i, s, fate, contact) == Some(w')
    requires Fits(nm, w.runs[i].node, w.runs[i].phase.pc, s)
    ensures Inv(nm, w')
  {
    var r := w.runs[i];
    var n := r.node;
    PerformFrame(w, i, s, fate, contact, w');
    assert RunInv(nm, r, w.dbs[n]);
    SelfKept(nm, w, i, s, fate, contact, w');
    PeersKept(nm, w, i, s, fate, contact, w');
    Assemble(nm, w, n, i, w');
  }

  lemma PeersKept(nm: Naming, w: World, i: nat, s: Statement, fate: Fate, contact: Node, w': World)
    requires Inv(nm, w) && i < |w.runs| && w.runs[i].phase.Attempt?
    requires w.runs[i].node in w.dbs && Perform(w, i, s, fate, contact) == Some(w')
    requires Fits(nm, w.runs[i].node, w.runs[i].phase.pc, s)
    requires w.runs[i].node in w'.dbs && |w'.runs| == |w.runs| && w'.runs[i].node == w.runs[i].node
    ensures forall j :: 0 <= j < |w.runs| && j != i && w.runs[j].node == w.runs[i].node ==>
                          RunInv(nm, w.runs[j], w'.dbs[w.runs[i].node])
    ensures forall j :: 0 <= j < |w.runs| && j != i ==>
                          Compatible(w'.runs[i], w.runs[j]) && Compatible(w.runs[j], w'.runs[i])
  {
    var r := w.runs[i];
    forall j | 0 <= j < |w.runs| && j != i
      ensures w.runs[j].node == r.node ==> RunInv(nm, w.runs[j], w'.dbs[r.node])
      ensures Compatible(w'.runs[i], w.runs[j]) && Compatible(w.runs[j], w'.runs[i])
    {
      assert Compatible(r, w.runs[j]) && Compatible(w.runs[j], r);
      if w.runs[j].node == r.node {
        PeerKept(nm, w, i, s, fate, contact, w', w.runs[j]);
      }
    }
  }

  lemma NextKeepsInv(nm: Naming, w: World, a: Action, w': World)
    requires Isolating(nm) && Inv(nm, w)
    requires Next(nm, w, a) == Some(w')
    ensures Inv(nm, w')
  {
    match a
    case Exec(i, fate, contact) =>
      var r := w.runs[i];
      ProgramFits(nm, r.node, r.phase.pc);
      PerformKeepsInv(nm, w, i, Program(nm, r.node)[r.phase.pc], fate, contact, w');
    case Depart(n) => DepartKeepsInv(nm, w, n, w');
    case Launch(n) => RunsOnly(nm, w, w');
    case Wake(i) => RunsOnly(nm, w, w');
    case Kill(i) => RunsOnly(nm, w, w');
  }

  lemma DepartKeepsInv(nm: Naming, w: World, n: Node, w': World)
    requires Inv(nm, w)
    requires Next(nm, w, Depart(n)) == Some(w')
    ensures Inv(nm, w')
  {
    assert w'.runs == w.runs && w'.groups == w.groups;
    forall j | 0 <= j < |w.runs| ensures RunInv(nm, w.runs[j], w'.dbs[w.runs[j].node]) {
      assert RunInv(nm, w.runs[j], w.dbs[w.runs[j].node]);
    }
  }

  /** Runs that begin an attempt, or end, claim nothing. */
  lemma RunsOnly(nm: Naming, w: World, w': World)
    requires Inv(nm, w) && w'.dbs == w.dbs && w'.groups == w.groups && |w.runs| <= |w'.runs|
    requires forall j :: 0 <= j < |w'.runs| ==> w'.runs[j].node in w.dbs
    requires forall j :: 0 <= j < |w'.runs| && !(j < |w.runs| && w'.runs[j] == w.runs[j]) ==>
                           w'.runs[j].phase == Attempt(0) || w'.runs[j].phase == Killed
    ensures Inv(nm, w')
  {
  }

  lemma {:induction false} AfterKeepsInv(nm: Naming, w: World, actions: seq<Action>)
    requires Isolating(nm) && Inv(nm, w)
    ensures After(nm, w, actions).Some? ==> Inv(nm, After(nm, w, actions).value)
    decreases |actions|
  {
    if actions != [] && Next(nm, w, actions[0]).Some? {
      NextKeepsInv(nm, w, actions[0], Next(nm, w, actions[0]).value);
      AfterKeepsInv(nm, Next(nm, w, actions[0]).value, actions[1..]);
    }
  }

  lemma ReachableInv(nm: Naming, w: World, actions: seq<Action>)
    requires Isolating(nm) && Reachable(nm, w, actions)
    ensures Inv(nm, w)
  {
    FreshInv(nm);
    AfterKeepsInv(nm, FreshWorld(nm), actions);
  }
}
