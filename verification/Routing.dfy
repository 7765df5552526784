/** The host ports a cluster off the host network publishes, and where its clients' connections end up
    (db.go, mem/memory.go, tables/connection.go, memconn/mem_conn.go). */
module Routing {
  import opened Text
  import opened Addressing
  import opened SqlNode

  const ROUTER_READ := 6446
  const ROUTER_WRITE := 6447
  const REDIS_PORT := 6373
  const MEM := "mem"
  const LOCALHOST := "127.0.0.1"
  const MAX_PORT := 65535

  // ---- publication ----

  datatype Target = SqlTarget | GroupTarget | RouterReadTarget | RouterWriteTarget | RedisTarget

  function TargetPort(t: Target): int {
    match t
    case SqlTarget => SQL_PORT
    case GroupTarget => GROUP_PORT
    case RouterReadTarget => ROUTER_READ
    case RouterWriteTarget => ROUTER_WRITE
    case RedisTarget => REDIS_PORT
  }

  function ContainerOf(c: Cluster, n: Node, t: Target): string {
    match t
    case SqlTarget => NodeContainer(SQL, c.tenant, n.rep, n.shard)
    case GroupTarget => NodeContainer(SQL, c.tenant, n.rep, n.shard)
    case RouterReadTarget => NodeContainer(SQL_ROUTER, c.tenant, n.rep, n.shard)
    case RouterWriteTarget => NodeContainer(SQL_ROUTER, c.tenant, n.rep, n.shard)
    case RedisTarget => NodeContainer(MEM, c.tenant, n.rep, n.shard)
  }

  /** The host port of a published target: `mapPort` for MySQL and its router, a formula of its own
      for Redis. */
  function HostPort(c: Cluster, n: Node, t: Target): PortResult {
    if t.RedisTarget? then Port(REDIS_PORT + n.rep * 10 + n.shard * 100)
    else NodePort(c.network, TargetPort(t), n.rep, n.shard)
  }

  /** Some node of the cluster publishes its target `t` on the host port. */
  predicate Publishes(c: Cluster, port: int, n: Node, t: Target) {
    InCluster(c, n) && HostPort(c, n, t) == Port(port)
  }

  predicate OffHost(c: Cluster) {
    c.network != HOST_NETWORK && c.shardSize <= 9
  }

  ghost predicate PortsDistinct(c: Cluster) {
    forall port, n1, t1, n2, t2 :: Publishes(c, port, n1, t1) && Publishes(c, port, n2, t2) ==> n1 == n2 && t1 == t2
  }

  lemma SamePort(n1: Node, t1: Target, n2: Node, t2: Target)
    requires n1.rep < MAX_SHARD_SIZE && n2.rep < MAX_SHARD_SIZE
    requires TargetPort(t1) + 10 * n1.rep + 100 * n1.shard == TargetPort(t2) + 10 * n2.rep + 100 * n2.shard
    requires n1 != n2 || t1 != t2
    ensures {t1, t2} == {SqlTarget, RouterReadTarget}
    ensures var a, b := if t1 == SqlTarget then n1 else n2, if t1 == SqlTarget then n2 else n1;
            (a.rep == b.rep + 4 && a.shard == b.shard + 31) || (b.rep == a.rep + 6 && a.shard == b.shard + 32)
  {
  }

  /** No two published ports of a cluster collide exactly when it has at most four replicas a shard
      or at most thirty-one shards. */
  lemma PortsDistinctIff(c: Cluster)
    requires OffHost(c)
    ensures PortsDistinct(c) <==> c.shardSize <= 4 || c.numShards <= 31
  {
    if c.shardSize <= 4 || c.numShards <= 31 {
      forall port, n1, t1, n2, t2 | Publishes(c, port, n1, t1) && Publishes(c, port, n2, t2)
        ensures n1 == n2 && t1 == t2
      {
        NoCollision(c, port, n1, t1, n2, t2);
      }
    } else {
      assert Publishes(c, 6446, Node(4, 31), SqlTarget);
      assert Publishes(c, 6446, Node(0, 0), RouterReadTarget);
    }
  }

  lemma NoCollision(c: Cluster, port: int, n1: Node, t1: Target, n2: Node, t2: Target)
    requires OffHost(c) && (c.shardSize <= 4 || c.numShards <= 31)
    requires Publishes(c, port, n1, t1) && Publishes(c, port, n2, t2)
    ensures n1 == n2 && t1 == t2
  {
    if n1 != n2 || t1 != t2 {
      SamePort(n1, t1, n2, t2);
      assert false;
    }
  }

  /** Every published port is a valid TCP port exactly when the highest group replication port is. */
  lemma PortsInRangeIff(c: Cluster)
    requires OffHost(c) && c.shardSize > 0 && c.numShards > 0
    ensures (forall port, n, t :: Publishes(c, port, n, t) ==> 0 < port <= MAX_PORT)
            <==> 33061 + 10 * (c.shardSize - 1) + 100 * (c.numShards - 1) <= 65535
  {
    var last := Node(c.shardSize - 1, c.numShards - 1);
    var top := GROUP_PORT + 10 * (c.shardSize - 1) + 100 * (c.numShards - 1);
    assert Publishes(c, top, last, GroupTarget);
  }

  // ---- client endpoints ----

  datatype ShardEndpoint = ShardEndpoint(index: nat, host: string, readPort: int, writePort: int)

  datatype EndpointError = BadShardCount | BadPort

  datatype Endpoints = Listed(endpoints: seq<ShardEndpoint>) | Failed(error: EndpointError)

  function PortOf(network: string, target: int, shard: nat): int {
    if network == HOST_NETWORK then target else target + 100 * shard
  }

  function SqlEndpoint(network: string, domain: string, readTarget: int, writeTarget: int, shard: nat): ShardEndpoint {
    ShardEndpoint(shard, NodeHost(network, domain, 0, shard),
                  PortOf(network, readTarget, shard), PortOf(network, writeTarget, shard))
  }

  method SQLEndpoints(network: string, domain: string, numShards: int, readTarget: int, writeTarget: int)
    returns (r: Endpoints)
    ensures numShards <= 0 ==> r == Failed(BadShardCount)
    ensures numShards > 0 && (readTarget <= 0 || writeTarget <= 0) ==> r == Failed(BadPort)
    ensures numShards > 0 && readTarget > 0 && writeTarget > 0 ==>
              && r.Listed? && |r.endpoints| == numShards
              && forall i :: 0 <= i < numShards ==>
                               r.endpoints[i] == SqlEndpoint(network, domain, readTarget, writeTarget, i)
  {
    if numShards <= 0 {
      return Failed(BadShardCount);
    }
    if readTarget <= 0 || writeTarget <= 0 {
      return Failed(BadPort);
    }
    var blank := ShardEndpoint(0, "", 0, 0);
    var slots := new ShardEndpoint[numShards](_ => blank);
    for shard := 0 to numShards
      invariant forall i :: 0 <= i < shard ==> slots[i] == SqlEndpoint(network, domain, readTarget, writeTarget, i)
    {
      var read, write := NodePort(network, readTarget, 0, shard), NodePort(network, writeTarget, 0, shard);
      slots[shard] := ShardEndpoint(shard, NodeHost(network, domain, 0, shard), read.port, write.port);
    }
    return Listed(slots[..]);
  }

  datatype MemEndpoint = MemEndpoint(index: nat, host: string, port: int)

  datatype MemEndpointList = MemListed(endpoints: seq<MemEndpoint>) | MemFailed(error: EndpointError)

  method MemEndpoints(network: string, domain: string, numShards: int, target: int) returns (r: MemEndpointList)
    ensures numShards <= 0 ==> r == MemFailed(BadShardCount)
    ensures numShards > 0 && target <= 0 ==> r == MemFailed(BadPort)
    ensures numShards > 0 && target > 0 ==>
              && r.MemListed? && |r.endpoints| == numShards
              && forall i :: 0 <= i < numShards ==>
                               r.endpoints[i] ==
                               MemEndpoint(i, NodeHost(network, domain, 0, i), PortOf(network, target, i))
  {
    if numShards <= 0 {
      return MemFailed(BadShardCount);
    }
    if target <= 0 {
      return MemFailed(BadPort);
    }
    var blank := MemEndpoint(0, "", 0);
    var slots := new MemEndpoint[numShards](_ => blank);
    for shard := 0 to numShards
      invariant forall i :: 0 <= i < shard ==>
                              slots[i] == MemEndpoint(i, NodeHost(network, domain, 0, i), PortOf(network, target, i))
    {
      slots[shard] := MemEndpoint(shard, NodeHost(network, domain, 0, shard), NodePort(network, target, 0, shard).port);
    }
    return MemListed(slots[..]);
  }

  // ---- end to end ----

  /** A connection from the host to `host:port` reaches target `t` of node `n`, and nothing else. */
  ghost predicate Reaches(c: Cluster, host: string, port: int, n: Node, t: Target) {
    && host == LOCALHOST && Publishes(c, port, n, t)
    && forall m, u :: Publishes(c, port, m, u) ==> m == n && u == t
  }

  /** The destinations written into the router configuration of a node, as the router reads them. */
  function RouterDestinations(c: Cluster, n: Node): seq<string> {
    Split(Join(Addresses(c, n.shard, SQL_PORT), ','), ',')
  }

  /** Client endpoint i leads to the router of replica 0 of shard i, for reads and for writes, and to
      no other container. */
  lemma SqlEndpointReachesRouter(c: Cluster, i: nat)
    requires OffHost(c) && (c.shardSize <= 4 || c.numShards <= 31)
    requires 0 < c.shardSize && i < c.numShards
    ensures var e := SqlEndpoint(c.network, c.domain, ROUTER_READ, ROUTER_WRITE, i);
            && Reaches(c, e.host, e.readPort, Node(0, i), RouterReadTarget)
            && Reaches(c, e.host, e.writePort, Node(0, i), RouterWriteTarget)
  {
    PortsDistinctIff(c);
    var e := SqlEndpoint(c.network, c.domain, ROUTER_READ, ROUTER_WRITE, i);
    assert Publishes(c, e.readPort, Node(0, i), RouterReadTarget);
    assert Publishes(c, e.writePort, Node(0, i), RouterWriteTarget);
  }

  /** The two routings of the router's configuration. */
  datatype Mode = ReadWrite | ReadOnly

  /** The mode behind a router port: the configuration serves writes on 6446, which db.go calls the read
      port, and reads only on 6447. */
  function ModeOf(t: Target): Option<Mode> {
    match t
    case RouterReadTarget => Some(ReadWrite)
    case RouterWriteTarget => Some(ReadOnly)
    case _ => None
  }

  /** The programs that connect to all shards, with the target ports they ask for. */
  datatype Client = QueryServer | MigrateCommand

  function ReadTarget(client: Client): int {
    if client.QueryServer? then 6446 else 6447
  }

  function WriteTarget(client: Client): int {
    if client.QueryServer? then 6447 else 6446
  }

  /** The write endpoints of the migrate command lead to the routing that takes writes and its read
      endpoints to the read-only one; for the query server it is the other way round. */
  lemma EndpointModes(c: Cluster, client: Client, i: nat) returns (write: Target, read: Target)
    requires OffHost(c) && (c.shardSize <= 4 || c.numShards <= 31)
    requires 0 < c.shardSize && i < c.numShards
    ensures var e := SqlEndpoint(c.network, c.domain, ReadTarget(client), WriteTarget(client), i);
            Reaches(c, e.host, e.writePort, Node(0, i), write) && Reaches(c, e.host, e.readPort, Node(0, i), read)
    ensures ModeOf(write) == Some(if client.MigrateCommand? then ReadWrite else ReadOnly)
    ensures ModeOf(read) == Some(if client.MigrateCommand? then ReadOnly else ReadWrite)
  {
    PortsDistinctIff(c);
    var e := SqlEndpoint(c.network, c.domain, ReadTarget(client), WriteTarget(client), i);
    write := if client.MigrateCommand? then RouterReadTarget else RouterWriteTarget;
    read := if client.MigrateCommand? then RouterWriteTarget else RouterReadTarget;
    assert Publishes(c, e.writePort, Node(0, i), write);
    assert Publishes(c, e.readPort, Node(0, i), read);
  }

  /** A router's destinations are, in replica order, the MySQL containers of its own shard, and every
      MySQL container of the cluster among them is of that shard. */
  lemma RouterServesOwnShard(c: Cluster, n: Node, m: Node)
    requires WellNamed(c) && c.network != HOST_NETWORK && c.shardSize <= FIRST_SURROGATE_REPLICA
    requires InCluster(c, n) && InCluster(c, m)
    ensures |RouterDestinations(c, n)| == c.shardSize
    ensures RouterDestinations(c, n)[m.rep] == ContainerOf(c, Node(m.rep, n.shard), SqlTarget) + ":" + Itoa(SQL_PORT)
    ensures ContainerOf(c, m, SqlTarget) + ":" + Itoa(SQL_PORT) in RouterDestinations(c, n) <==> m.shard == n.shard
  {
    var addrs := Addresses(c, n.shard, SQL_PORT);
    forall k | 0 <= k < |addrs| ensures ',' !in addrs[k] {
      AddressHasNoComma(c, k, n.shard, SQL_PORT);
    }
    SplitJoin(addrs, ',');
    assert addrs[m.rep] == Address(c, m.rep, n.shard, SQL_PORT);
    if Address(c, m.rep, m.shard, SQL_PORT) in addrs {
      var k :| 0 <= k < |addrs| && addrs[k] == Address(c, m.rep, m.shard, SQL_PORT);
      ShardsDisjoint(c, k, n.shard, m.rep, m.shard, SQL_PORT);
    }
  }

  /** A node's own provisioning connection reaches its own MySQL server. */
  lemma ProvisioningReachesOwnServer(c: Cluster, n: Node)
    requires OffHost(c) && (c.shardSize <= 4 || c.numShards <= 31) && InCluster(c, n)
    ensures HostPort(c, n, SqlTarget).Port?
    ensures Reaches(c, LOCALHOST, HostPort(c, n, SqlTarget).port, n, SqlTarget)
  {
    PortsDistinctIff(c);
    assert Publishes(c, HostPort(c, n, SqlTarget).port, n, SqlTarget);
  }

  /** Redis endpoint i leads to the Redis container of replica 0 of shard i. */
  lemma MemEndpointReachesRedis(c: Cluster, i: nat)
    requires OffHost(c) && (c.shardSize <= 4 || c.numShards <= 31)
    requires 0 < c.shardSize && i < c.numShards
    ensures Reaches(c, NodeHost(c.network, c.domain, 0, i), PortOf(c.network, 6373, i), Node(0, i), RedisTarget)
  {
    PortsDistinctIff(c);
    assert Publishes(c, PortOf(c.network, REDIS_PORT, i), Node(0, i), RedisTarget);
  }

  /** In a cluster just beyond the bound, the first client endpoint is ambiguous: the MySQL server of
      replica 4 of shard 31 publishes the port of the first router. */
  lemma EndpointBeyondBound(c: Cluster)
    requires OffHost(c) && c.shardSize > 4 && c.numShards > 31
    ensures var e := SqlEndpoint(c.network, c.domain, ROUTER_READ, ROUTER_WRITE, 0);
            && Publishes(c, e.readPort, Node(4, 31), SqlTarget)
            && !Reaches(c, e.host, e.readPort, Node(0, 0), RouterReadTarget)
  {
    assert Publishes(c, 6446, Node(4, 31), SqlTarget);
  }

  /** On the host network the endpoint of shard i is the host that runs replica 0 of shard i, under
      the name its MySQL server reports, at the router's own ports. */
  lemma HostNetworkEndpoint(c: Cluster, i: nat)
    requires c.network == HOST_NETWORK
    ensures var e := SqlEndpoint(c.network, c.domain, ROUTER_READ, ROUTER_WRITE, i);
            e.host == ReportAddress(c, Node(0, i)) && e.readPort == ROUTER_READ && e.writePort == ROUTER_WRITE
  {
    LabelForms(c.domain, 0, i);
  }
}
