/** The `redis-cli --cluster create` command (lib/cluster/mem/memory.go). */
module RedisCluster {
  import opened Text
  import opened Addressing
  import opened SqlNode
  import opened Routing

  const HEAD: seq<string> :=
    ["redis-cli", "--tls", "--cert", "/etc/certs/mem-server-cert.pem", "--key", "/etc/certs/mem-server-key.pem",
     "--cacert", "/etc/certs/mem-ca-cert.pem", "--cluster", "create"]

  function Tail(c: Cluster): seq<string> {
    ["--cluster-replicas", Itoa(c.shardSize - 1), "--cluster-yes"]
  }

  /** The address of a Redis node, as the other parts of the cluster name it. */
  function MemAddress(c: Cluster, rep: nat, shard: nat): string {
    (if c.network != HOST_NETWORK then NodeContainer(MEM, c.tenant, rep, shard)
     else NodeHost(HOST_NETWORK, c.domain, rep, shard)) + ":" + Itoa(REDIS_PORT)
  }

  /** The addresses of one replica, shard by shard. */
  function Row(c: Cluster, rep: nat): seq<string> {
    seq(c.numShards, shard requires 0 <= shard < c.numShards => MemAddress(c, rep, shard))
  }

  /** The addresses of the first `reps` replicas. */
  function Rows(c: Cluster, reps: nat): seq<string> {
    if reps == 0 then [] else Rows(c, reps - 1) + Row(c, reps - 1)
  }

  function MemAddresses(c: Cluster): seq<string> {
    Rows(c, c.shardSize)
  }

  lemma SmallRemainder(k: nat, n: nat)
    requires k < n
    ensures k % n == k
  {
  }

  /** The loop body's choice of a host, which formats host names itself: the address the rest of the
      cluster uses. `offset` is the shard index modulo the number of shards. */
  method HostEntry(c: Cluster, rep: nat, shard: nat, offset: nat) returns (host: string)
    requires offset == shard
    ensures host == MemAddress(c, rep, shard)
  {
    LabelForms(c.domain, rep, shard);
    var letter := [Letter(rep)];
    if offset == 0 {
      if c.network != HOST_NETWORK {
        host := NodeContainer(MEM, c.tenant, rep, shard) + ":" + Itoa(REDIS_PORT);
      } else {
        host := "shard-" + letter + "." + c.domain + ":" + Itoa(REDIS_PORT);
      }
      return;
    }
    if c.network != HOST_NETWORK {
      host := NodeContainer(MEM, c.tenant, rep, shard) + ":" + Itoa(REDIS_PORT);
    } else {
      host := "shard-" + letter + "-" + Itoa(offset) + "." + c.domain + ":" + Itoa(REDIS_PORT);
    }
  }

  /** The inner loop: one replica's addresses, appended to the command so far. */
  method AppendRow(c: Cluster, rep: nat, base: seq<string>) returns (cmd: seq<string>)
    ensures cmd == base + Row(c, rep)
  {
    cmd := base;
    ghost var row := Row(c, rep);
    for shard := 0 to c.numShards
      invariant cmd == base + row[..shard]
    {
      SmallRemainder(shard, c.numShards);
      var host := HostEntry(c, rep, shard, shard % c.numShards);
      assert row[..shard + 1] == row[..shard] + [row[shard]];
      cmd := cmd + [host];
    }
    assert row[..c.numShards] == row;
  }

  /** The outer loop. */
  method AppendHosts(c: Cluster, base: seq<string>) returns (cmd: seq<string>)
    ensures cmd == base + MemAddresses(c)
  {
    cmd := base;
    for rep := 0 to c.shardSize
      invariant cmd == base + Rows(c, rep)
    {
      cmd := AppendRow(c, rep, cmd);
    }
  }

  // ---- the shape of the list ----

  lemma MulMonotone(a: nat, b: nat, n: nat)
    requires a <= b
    ensures a * n <= b * n
  {
  }

  lemma DivisionIsUnique(q: nat, r: nat, n: nat)
    requires r < n
    ensures (q * n + r) / n == q && (q * n + r) % n == r
  {
    var x := q * n + r;
    var q', r' := x / n, x % n;
    assert x == q' * n + r';
    if q' < q {
      MulMonotone(q' + 1, q, n);
    } else if q < q' {
      MulMonotone(q + 1, q', n);
    }
  }

  lemma {:induction false} RowsShape(c: Cluster, reps: nat, rep: nat, shard: nat)
    requires rep < reps && shard < c.numShards
    ensures |Rows(c, reps)| == reps * c.numShards
    ensures rep * c.numShards + shard < reps * c.numShards
    ensures Rows(c, reps)[rep * c.numShards + shard] == MemAddress(c, rep, shard)
  {
    RowsLength(c, reps);
    RowsLength(c, reps - 1);
    MulMonotone(rep + 1, reps, c.numShards);
    if rep < reps - 1 {
      RowsShape(c, reps - 1, rep, shard);
    }
  }

  lemma {:induction false} RowsLength(c: Cluster, reps: nat)
    ensures |Rows(c, reps)| == reps * c.numShards
  {
    if reps > 0 {
      RowsLength(c, reps - 1);
      assert reps * c.numShards == (reps - 1) * c.numShards + c.numShards;
    }
  }

  // ---- what the command promises ----

  /** Entry k is replica k / NumShards of shard k % NumShards. */
  lemma EntryIndices(c: Cluster, k: nat) returns (rep: nat, shard: nat)
    requires k < |MemAddresses(c)|
    ensures c.numShards > 0 && rep == k / c.numShards && shard == k % c.numShards
    ensures rep < c.shardSize && k == rep * c.numShards + shard
    ensures MemAddresses(c)[k] == MemAddress(c, rep, shard)
  {
    RowsLength(c, c.shardSize);
    rep, shard := k / c.numShards, k % c.numShards;
    assert k == rep * c.numShards + shard;
    if rep >= c.shardSize {
      MulMonotone(c.shardSize, rep, c.numShards);
    }
    RowsShape(c, c.shardSize, rep, shard);
  }

  lemma MemAddressInjective(c: Cluster, rep1: nat, shard1: nat, rep2: nat, shard2: nat)
    requires MemAddress(c, rep1, shard1) == MemAddress(c, rep2, shard2)
    ensures Letter(rep1) == Letter(rep2) && shard1 == shard2
  {
    var name1 := if c.network != HOST_NETWORK then NodeContainer(MEM, c.tenant, rep1, shard1)
                 else NodeHost(HOST_NETWORK, c.domain, rep1, shard1);
    var name2 := if c.network != HOST_NETWORK then NodeContainer(MEM, c.tenant, rep2, shard2)
                 else NodeHost(HOST_NETWORK, c.domain, rep2, shard2);
    AppendInjective(name1 + ":", name2 + ":", Itoa(REDIS_PORT));
    AppendInjective(name1, name2, ":");
    NodeContainerInjective(MEM, c.tenant, rep1, shard1, rep2, shard2);
    NodeHostInjective(c.domain, rep1, shard1, rep2, shard2);
  }

  lemma SameAddressSameNode(c: Cluster, rep1: nat, shard1: nat, rep2: nat, shard2: nat)
    requires c.shardSize <= FIRST_SURROGATE_REPLICA && rep1 < c.shardSize && rep2 < c.shardSize
    requires MemAddress(c, rep1, shard1) == MemAddress(c, rep2, shard2)
    ensures rep1 == rep2 && shard1 == shard2
  {
    MemAddressInjective(c, rep1, shard1, rep2, shard2);
    LettersDistinct(rep1, rep2);
  }

  /** Every node's address is listed at one place and nowhere else. */
  lemma ListedExactlyOnce(c: Cluster, n: Node, k: nat)
    requires InCluster(c, n) && c.shardSize <= FIRST_SURROGATE_REPLICA && k < |MemAddresses(c)|
    ensures MemAddresses(c)[k] == MemAddress(c, n.rep, n.shard) <==> k == n.rep * c.numShards + n.shard
  {
    var rep, shard := EntryIndices(c, k);
    if MemAddress(c, rep, shard) == MemAddress(c, n.rep, n.shard) {
      SameAddressSameNode(c, rep, shard, n.rep, n.shard);
    }
    if k == n.rep * c.numShards + n.shard {
      RowsShape(c, c.shardSize, n.rep, n.shard);
    }
  }

  /** What `redis-cli` reads off the command: the addresses stand between "create" and "--cluster-replicas", and
      of them it makes the first (addresses / (replicas + 1)) masters. These are as many as there are shards, and
      replica 0 of every shard, in shard order. */
  ghost predicate MakesMasters(c: Cluster, cmd: seq<string>) {
    && |cmd| >= 13 && cmd[9] == "create"
    && var at := |cmd| - 3;
       cmd[at] == "--cluster-replicas" && cmd[at + 2] == "--cluster-yes"
       && Atoi(cmd[at + 1]).Some?
       && var replicas := Atoi(cmd[at + 1]).value;
          replicas >= 0 && (at - 10) / (replicas + 1) == c.numShards
          && forall k :: 0 <= k < c.numShards ==> 10 + k < at && cmd[10 + k] == MemAddress(c, 0, k)
  }

  /** Where the parts of a command of ten, some and three words are. */
  lemma PartsOf(head: seq<string>, hosts: seq<string>, tail: seq<string>, cmd: seq<string>)
    requires |head| == 10 && |tail| == 3 && cmd == head + hosts + tail
    ensures |cmd| == |hosts| + 13 && cmd[9] == head[9]
    ensures var at := |cmd| - 3; cmd[at] == tail[0] && cmd[at + 1] == tail[1] && cmd[at + 2] == tail[2]
    ensures forall k :: 0 <= k < |hosts| ==> cmd[10 + k] == hosts[k]
  {
  }

  lemma FirstOnesAreReplicaZero(c: Cluster)
    requires c.shardSize >= 1
    ensures |MemAddresses(c)| / c.shardSize == c.numShards
    ensures forall k :: 0 <= k < c.numShards ==> k < |MemAddresses(c)| && MemAddresses(c)[k] == MemAddress(c, 0, k)
  {
    RowsLength(c, c.shardSize);
    DivisionIsUnique(c.numShards, 0, c.shardSize);
    assert c.numShards * c.shardSize + 0 == |MemAddresses(c)|;
    forall k | 0 <= k < c.numShards ensures k < |MemAddresses(c)| && MemAddresses(c)[k] == MemAddress(c, 0, k) {
      RowsShape(c, c.shardSize, 0, k);
      assert 0 * c.numShards + k == k;
    }
  }

  lemma MastersAreReplicaZero(c: Cluster, cmd: seq<string>)
    requires c.shardSize >= 1 && IsInt64(c.shardSize)
    requires cmd == HEAD + MemAddresses(c) + Tail(c)
    ensures MakesMasters(c, cmd)
  {
    PartsOf(HEAD, MemAddresses(c), Tail(c), cmd);
    FirstOnesAreReplicaZero(c);
    AtoiItoa(c.shardSize - 1);
  }

  lemma EveryNodeListed(c: Cluster, rep: nat, shard: nat)
    requires rep < c.shardSize && shard < c.numShards
    ensures MemAddress(c, rep, shard) in MemAddresses(c)
  {
    RowsShape(c, c.shardSize, rep, shard);
    assert MemAddresses(c)[rep * c.numShards + shard] in MemAddresses(c);
  }

  /** The command names a Redis node exactly as the container layer created it. */
  lemma CommandNamesContainers(c: Cluster, n: Node)
    requires InCluster(c, n) && c.network != HOST_NETWORK
    ensures ContainerOf(c, n, RedisTarget) + ":" + Itoa(TargetPort(RedisTarget)) in MemAddresses(c)
  {
    EveryNodeListed(c, n.rep, n.shard);
    assert ContainerOf(c, n, RedisTarget) + ":" + Itoa(TargetPort(RedisTarget)) == MemAddress(c, n.rep, n.shard);
  }

  method CreateRedisClusterCommand(c: Cluster) returns (cmd: seq<string>)
    ensures cmd == HEAD + MemAddresses(c) + Tail(c)
    ensures c.shardSize >= 1 && IsInt64(c.shardSize) ==> MakesMasters(c, cmd)
  {
    cmd := AppendHosts(c, HEAD);
    cmd := cmd + ["--cluster-replicas", Itoa(c.shardSize - 1), "--cluster-yes"];
    if c.shardSize >= 1 && IsInt64(c.shardSize) {
      MastersAreReplicaZero(c, cmd);
    }
  }
}
