/** What joining promises about a whole cluster, over every schedule of every number of runs. */
module ShardGroups {
  import opened Text
  import opened SqlNode
  import opened GroupReplication

  function Nodes(c: Cluster): (nodes: set<Node>)
    ensures forall n :: n in nodes <==> InCluster(c, n)
  {
    set rep: nat, shard: nat | 0 <= rep < c.shardSize && 0 <= shard < c.numShards :: Node(rep, shard)
  }

  /** The settings the cluster code derives. Every shard uses the same group name. */
  function NamingOf(c: Cluster): Naming {
    Naming(Nodes(c), c.groupName, n => LocalAddress(c, n), n => GroupSeedsValue(c, n))
  }

  lemma DerivedNamingIsolates(c: Cluster)
    requires WellNamed(c)
    ensures Isolating(NamingOf(c))
  {
    var nm := NamingOf(c);
    forall n, m | n in nm.nodes && m in nm.nodes && nm.address(m) in Split(nm.seeds(n), ',')
      ensures m.shard == n.shard
    {
      SeedIsOfOwnShard(c, n, m);
    }
  }

  lemma ClusterInv(c: Cluster, w: World, actions: seq<Action>)
    requires WellNamed(c) && Reachable(NamingOf(c), w, actions)
    ensures Inv(NamingOf(c), w)
  {
    DerivedNamingIsolates(c);
    ReachableInv(NamingOf(c), w, actions);
  }

  /** A node that is, or was, in a group belongs to the shard of the node that bootstrapped it. */
  lemma ShardIsolation(c: Cluster, w: World, actions: seq<Action>, n: Node)
    requires WellNamed(c) && Reachable(NamingOf(c), w, actions)
    requires n in w.dbs && !w.dbs[n].member.Never?
    ensures w.dbs[n].member.group < |w.groups|
    ensures w.groups[w.dbs[n].member.group] == Node(0, n.shard)
  {
    ClusterInv(c, w, actions);
    assert DbInv(NamingOf(c), w.groups, n, w.dbs[n]);
    var g := w.dbs[n].member.group;
    assert GroupInv(g, w.groups[g], w.dbs[w.groups[g]]);
  }

  /** Over any number of retries and re-runs, each shard bootstraps at most one group, and only its
      replica 0 does. */
  lemma OneGroupPerShard(c: Cluster, w: World, actions: seq<Action>, g: nat, h: nat)
    requires WellNamed(c) && Reachable(NamingOf(c), w, actions)
    requires g < |w.groups| && h < |w.groups|
    ensures w.groups[g].rep == 0
    ensures w.groups[g].shard == w.groups[h].shard ==> g == h
  {
    ClusterInv(c, w, actions);
    assert GroupInv(g, w.groups[g], w.dbs[w.groups[g]]);
    assert GroupInv(h, w.groups[h], w.dbs[w.groups[h]]);
  }

  /** However often a node is retried, START GROUP_REPLICATION reaches its server at most once, and
      no statement that could disrupt a member is executed once it has. */
  lemma MembersAreNotDisrupted(c: Cluster, w: World, actions: seq<Action>, i: nat, fate: Fate, contact: Node)
    requires WellNamed(c) && Reachable(NamingOf(c), w, actions)
    requires Next(NamingOf(c), w, Exec(i, fate, contact)).Some?
    ensures var db := w.dbs[w.runs[i].node];
            && db.starts <= 1
            && (var s := Program(NamingOf(c), w.runs[i].node)[w.runs[i].phase.pc];
                s.StartGroupReplication? || Disruptive(s) ==> db.starts == 0 && db.member.Never?)
  {
    ClusterInv(c, w, actions);
    var nm := NamingOf(c);
    var r := w.runs[i];
    assert DbInv(nm, w.groups, r.node, w.dbs[r.node]);
    assert RunInv(nm, r, w.dbs[r.node]);
    ProgramFits(nm, r.node, r.phase.pc);
  }

  /** StartSQLContainers returning nil means that the node joined its own shard's group, with a
      single START, and no longer has the bootstrap flag on. */
  lemma NilMeansMember(c: Cluster, w: World, actions: seq<Action>, i: nat)
    requires WellNamed(c) && Reachable(NamingOf(c), w, actions)
    requires i < |w.runs| && w.runs[i].phase == Returned(true)
    ensures var n := w.runs[i].node;
            && n in w.dbs && !w.dbs[n].bootstrap && w.dbs[n].starts == 1 && !w.dbs[n].member.Never?
            && w.dbs[n].member.group < |w.groups| && w.groups[w.dbs[n].member.group] == Node(0, n.shard)
  {
    ClusterInv(c, w, actions);
    assert RunInv(NamingOf(c), w.runs[i], w.dbs[w.runs[i].node]);
    ShardIsolation(c, w, actions, w.runs[i].node);
  }

  predicate HasReturnedNil(w: World, n: Node) {
    exists i :: 0 <= i < |w.runs| && w.runs[i].node == n && w.runs[i].phase == Returned(true)
  }

  /** When `init` has succeeded on two replicas of a shard and neither has left since, both are in
      the one group of that shard. */
  lemma ShardConverges(c: Cluster, w: World, actions: seq<Action>, n: Node, m: Node)
    requires WellNamed(c) && Reachable(NamingOf(c), w, actions)
    requires HasReturnedNil(w, n) && HasReturnedNil(w, m) && n.shard == m.shard
    ensures n in w.dbs && m in w.dbs
    ensures !w.dbs[n].member.Never? && !w.dbs[m].member.Never?
    ensures w.dbs[n].member.group == w.dbs[m].member.group
  {
    var i :| 0 <= i < |w.runs| && w.runs[i].node == n && w.runs[i].phase == Returned(true);
    var j :| 0 <= j < |w.runs| && w.runs[j].node == m && w.runs[j].phase == Returned(true);
    NilMeansMember(c, w, actions, i);
    NilMeansMember(c, w, actions, j);
    OneGroupPerShard(c, w, actions, w.dbs[n].member.group, w.dbs[m].member.group);
  }

  // ---- retries that cannot succeed ----

  /** The replication user exists, and the attempt that created it is over without success. */
  predicate Stuck(w: World, n: Node) {
    && n in w.dbs && w.dbs[n].replUser
    && forall i :: 0 <= i < |w.runs| && w.runs[i].node == n ==>
                     !PastCreateUser(w.runs[i]) && w.runs[i].phase != Returned(true)
  }

  lemma NextKeepsStuck(nm: Naming, w: World, a: Action, w': World, n: Node)
    requires Stuck(w, n) && Next(nm, w, a) == Some(w')
    ensures Stuck(w', n)
  {
    if a.Exec? {
      var r := w.runs[a.run];
      ProgramFits(nm, r.node, r.phase.pc);
      PerformFrame(w, a.run, Program(nm, r.node)[r.phase.pc], a.fate, a.contact, w');
      if r.node == n {
        assert !PastCreateUser(r);
      }
    }
  }

  /** No retry and no re-run on a stuck node ever returns nil. */
  lemma {:induction false} StuckForever(nm: Naming, w: World, actions: seq<Action>, n: Node)
    requires Stuck(w, n)
    ensures After(nm, w, actions).Some? ==>
              Stuck(After(nm, w, actions).value, n) && !HasReturnedNil(After(nm, w, actions).value, n)
    decreases |actions|
  {
    if actions != [] && Next(nm, w, actions[0]).Some? {
      var w' := Next(nm, w, actions[0]).value;
      NextKeepsStuck(nm, w, actions[0], w', n);
      StuckForever(nm, w', actions[1..], n);
    }
  }

  predicate Interrupts(a: Action, i: nat) {
    a == Kill(i) || (a.Exec? && a.run == i && !a.fate.Done?)
  }

  lemma InterruptionLeavesStuck(nm: Naming, w: World, i: nat, a: Action, w': World)
    requires Inv(nm, w) && i < |w.runs| && PastCreateUser(w.runs[i])
    requires Interrupts(a, i) && Next(nm, w, a) == Some(w')
    ensures Stuck(w', w.runs[i].node)
  {
    var r := w.runs[i];
    var n := r.node;
    assert RunInv(nm, r, w.dbs[n]);
    if a.Exec? {
      ProgramFits(nm, n, r.phase.pc);
      PerformFrame(w, i, Program(nm, n)[r.phase.pc], a.fate, a.contact, w');
    }
    assert !PastCreateUser(w'.runs[i]) && w'.runs[i].phase != Returned(true);
    assert w'.runs == w.runs[i := w'.runs[i]];
    forall j | 0 <= j < |w'.runs| && w'.runs[j].node == n
      ensures !PastCreateUser(w'.runs[j]) && w'.runs[j].phase != Returned(true)
    {
      assert j != i ==> Compatible(w.runs[i], w.runs[j]) && w'.runs[j] == w.runs[j];
    }
  }

  /** An attempt that is interrupted after it created the replication user leaves its node stuck:
      the retries of StartSQLContainers, and any later run, fail at CREATE USER. */
  lemma InterruptedAttemptIsFatal(c: Cluster, w: World, before: seq<Action>, i: nat, a: Action, w': World,
                                  later: seq<Action>)
    requires WellNamed(c) && Reachable(NamingOf(c), w, before)
    requires i < |w.runs| && PastCreateUser(w.runs[i])
    requires Interrupts(a, i) && Next(NamingOf(c), w, a) == Some(w')
    ensures After(NamingOf(c), w', later).Some? ==>
              !HasReturnedNil(After(NamingOf(c), w', later).value, w.runs[i].node)
  {
    ClusterInv(c, w, before);
    InterruptionLeavesStuck(NamingOf(c), w, i, a, w');
    StuckForever(NamingOf(c), w', later, w.runs[i].node);
  }
}
