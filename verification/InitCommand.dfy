/** The init command (lib/cluster/commands/init.go): a run for every node of every shard, and what has been
    built when all of them succeed. */
module InitCommand {
  import opened SqlNode
  import opened GroupReplication
  import opened ShardGroups

  /** The order in which the nested loops come to the nodes. */
  predicate Before(n: Node, m: Node) {
    n.shard < m.shard || (n.shard == m.shard && n.rep < m.rep)
  }

  predicate Ordered(nodes: seq<Node>) {
    forall i, j :: 0 <= i < j < |nodes| ==> Before(nodes[i], nodes[j])
  }

  /** Starts every node of the cluster, each of them once. */
  method LaunchNodes(c: Cluster) returns (launched: seq<Node>)
    ensures Ordered(launched)
    ensures forall n :: n in launched <==> InCluster(c, n)
  {
    launched := [];
    for shard := 0 to c.numShards
      invariant Ordered(launched)
      invariant forall n :: n in launched <==> n.rep < c.shardSize && n.shard < shard
    {
      for rep := 0 to c.shardSize
        invariant Ordered(launched)
        invariant forall n :: n in launched <==>
                                (n.rep < c.shardSize && n.shard < shard) || (n.shard == shard && n.rep < rep)
      {
        assert forall i :: 0 <= i < |launched| ==> launched[i] in launched;
        launched := launched + [Node(rep, shard)];
      }
    }
  }

  /** The guard of the Redis `Init`. */
  predicate CreatesRedisCluster(n: Node) {
    n.rep == 0 && n.shard == 0
  }

  /** Of the nodes started, exactly one goes on to create the Redis cluster, and it is the first one. */
  lemma OneNodeCreatesRedisCluster(c: Cluster, launched: seq<Node>, i: nat)
    requires Ordered(launched) && forall n :: n in launched <==> InCluster(c, n)
    requires i < |launched|
    ensures CreatesRedisCluster(launched[i]) <==> i == 0
  {
    assert launched[i] in launched;
    assert launched[0] in launched;
    assert InCluster(c, Node(0, 0));
    assert Node(0, 0) in launched;
    var k :| 0 <= k < |launched| && launched[k] == Node(0, 0);
    assert k == 0 by {
      assert k > 0 ==> Before(launched[0], launched[k]);
    }
    assert i > 0 ==> Before(launched[0], launched[i]);
  }

  /** A node that is or was in a group. */
  predicate Joined(w: World, n: Node, g: nat) {
    n in w.dbs && !w.dbs[n].member.Never? && w.dbs[n].member.group == g
  }

  /** When every node's run has returned nil, whatever the interleaving, the failures and the re-runs, each
      shard has one group, founded by its replica 0 and joined by all its replicas and no other node. */
  lemma InitBuildsTheCluster(c: Cluster, w: World, actions: seq<Action>, launched: seq<Node>, shard: nat)
    returns (g: nat)
    requires WellNamed(c) && Reachable(NamingOf(c), w, actions)
    requires forall n :: n in launched <==> InCluster(c, n)
    requires forall n :: n in launched ==> HasReturnedNil(w, n)
    requires shard < c.numShards && c.shardSize > 0
    ensures g < |w.groups| && w.groups[g] == Node(0, shard)
    ensures forall h :: 0 <= h < |w.groups| && w.groups[h].shard == shard ==> h == g
    ensures forall n :: InCluster(c, n) ==> (Joined(w, n, g) <==> n.shard == shard)
  {
    var founder := Node(0, shard);
    assert founder in launched;
    ShardConverges(c, w, actions, founder, founder);
    g := w.dbs[founder].member.group;
    ShardIsolation(c, w, actions, founder);
    forall h | 0 <= h < |w.groups| && w.groups[h].shard == shard ensures h == g {
      OneGroupPerShard(c, w, actions, g, h);
    }
    forall n | InCluster(c, n) ensures Joined(w, n, g) <==> n.shard == shard {
      assert n in launched;
      ShardConverges(c, w, actions, n, n);
      ShardIsolation(c, w, actions, n);
      if n.shard == shard {
        ShardConverges(c, w, actions, founder, n);
      }
    }
  }
}
