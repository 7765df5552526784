# A model of the Zygote cluster

Zygote runs a sharded, replicated cluster: every shard is a MySQL group-replication group of a few
replicas behind a router, and beside it a Redis cluster spans all shards. These Dafny modules model the
parts of `lib/cluster` that have to agree with one another for that to work, and prove what they promise
together.

- **Addresses.** `Text`, `Addressing` and `SqlNode` print and parse host names, container names and the
  address lists of a shard, over strings of characters. `Routing` and `RedisCluster` derive the published
  ports, the clients' endpoints and the `redis-cli --cluster create` command from them.
- **Joining a group.** `GroupReplication` is a state machine: each SQL statement of
  `JoinGroupReplication` is one step on its server, any statement may be refused, or take effect and still
  be reported as failed, runs interleave freely, are killed and started again, and members leave.
  `ShardGroups` states what every reachable world keeps, `JoinProspects` exactly which nodes can still be
  joined, `StrandedShards` how a shard is lost, `InitRaces`
  when an `init` without any fault succeeds, `SqlStartup` runs the statement lists and the retry counter as the code does and shows that what
  they do is a schedule of the state machine, and `InitCommand` is the fan-out over all nodes.
- **The connection cache.** `Connector` is `MultiDBConnector` as a step system with a reader-writer lock,
  one program point at a time, and a record of every handle that was ever opened. `HandleLedger`,
  `FanOuts`, `SharedHandles`, `HandleTargets`, `ConnectAttempts` and `ConnectorProgress` prove safety, retries
  and termination over all schedules; `DisplacedHandles` has a schedule that leaks a handle, `SecondAttempts`
  one on which every second attempt succeeds. `SequentialConnector` is the class with its maps, whose methods do what an undisturbed
  thread of the step system does.
- **Migrations.** `Migrations` gives each generated up/down pair its effect on schema and rows,
  `ReapplyMigrations` says when a list that was reverted can be applied again, and `MigrateCommand` has the
  `up` and `down` that step through the list.
- **Retrying and answering.** `Backoff` is the retry loop over int64 nanoseconds. `Responses` and
  `RedisController` are the HTTP handlers on top of retried operations.

A run is a sequence of actions, and the theorems quantify over every such sequence. Functions called
`After`, `RunUps`, `Retried` and the like are the specification; the methods beside them have the loops
and updates of the code and are proved equal to it.

## What is assumed of the servers

- `CREATE USER` fails when the user exists. `START GROUP_REPLICATION` with the bootstrap flag on founds a
  group; without it, it succeeds only through a member that is online, is listed in the seeds and has the
  same group name. One session serves one attempt.
- Databases are fresh at first, and only this code writes the replication settings.
- Opening, pinging and closing a database handle succeed or fail as they please, and return.
- `ALTER TABLE … DROP COLUMN` also takes the column out of indexes; it fails for a document column that
  generated columns draw from. Adding a column fills existing rows. A unique index is refused over rows that
  agree on its columns without a NULL, and a stored generated column or an index over a generated one where a
  document has no value of the column's type. What a path reads from a document is a function of document,
  path and type, and which values the collation takes for duplicates a relation on values, both the same
  throughout a run. BLOB, TEXT and JSON columns take no plain or unique index, and
  full-text indexes take text columns that are stored. Migrations are applied in the order of
  their list, a failed one marks the database dirty, and a dirty database is not migrated further.
- Whether writing an HTTP response succeeds is up to the client's side of the connection.

## Where the code does not do what it seems to intend

- A retry of `JoinGroupReplication` that follows a created replication user can never pass
  `CREATE USER` again (`lib/cluster/db/db.go:733`): `InterruptedAttemptIsFatal`,
  `WhenJoiningCanSucceed` for the exact condition, and `FailedGrantStrandsShard` for a schedule on which one
  failed statement keeps every node of a shard from ever joining.
- `init` starts all nodes at once (`lib/cluster/commands/init.go:61-79`), and a secondary whose START comes
  before its shard has a member is lost without any fault: `InitSucceedsIff`, `SecondaryCanBeLost`.
- A cached handle whose ping fails is overwritten without being closed
  (`lib/cluster/tables/connection.go:191,222`). The ledger therefore has a third place, displaced handles,
  `AfterCloseAll` says that these are exactly the handles that stay open, `EverythingIsClosedIff`
  when there are none, and `HandleStaysOpen` is a schedule that leaves one.
- `ConnectAllShardsWrite` does not set the database of its configurations, and they replace those of the
  read fan-out (`lib/cluster/tables/connection.go:261,313-316`): `ReadDatabaseIff`.
- The query server takes 6446 for reads and 6447 for writes (`lib/cluster/controller/sql.go:19-20`), while
  the router's configuration takes writes on 6446 and serves 6447 read-only, as the migrate command
  expects (`lib/cluster/container/templates/router.conf:13-21`): `EndpointModes`.
- `backoff.Permanent` (`lib/cluster/tables/connection.go:486`) means nothing to `BackoffConfig.Retry`, so
  every error is retried, and a query whose response cannot be written is executed again:
  `AttemptIsMadeIff`, `UnsentResultIsQueriedAgain`.
- `BindBody` returns nil after it has answered an unreadable body (`lib/cluster/server/http.go:174-180`), so
  the handler answers again: `QueryIsAnsweredOnceIff`, `CommandIsAnsweredOnceIff`.
- After a connection error the Redis handler ensures its connection, which does nothing within five
  minutes of the last check (`lib/cluster/controller/mem.go:81-83`): `ReconnectsIff`.
- The help of `migrate down` speaks of the last migration; the code reverts all of them
  (`lib/cluster/migration/migration.go:68`).
- A table migration over a table that exists does nothing on the way up and drops it on the way down:
  `DownsUndoUpsIff`, `ExistingTableIsLost`.
- Up, down and up again can fail although the first up succeeded: a column comes back with its default in
  every row, and a unique index over it is refused. `UpAgainIff` has the exact condition, `SecondUpRefused` an
  input.
- The delay of a very long retry wraps around to a negative duration: `LongRetryWraps`.

## Model

| member | source | states |
|---|---|---|
| Text.AtoiItoa | lib/cluster/utils/calc_indices.go:47 | parsing a printed number gives it back exactly when it fits an int |
| Text.SplitJoin | lib/cluster/db/db.go:308-310 | splitting a joined list gives the list back when no part contains the separator |
| Addressing.ParsedIndexInRange | lib/cluster/utils/calc_indices.go:20-58 | whatever the host name, an accepted one yields a replica in 0..25 and a shard that fits a non-negative int |
| Addressing.MappedPortIsItsOwn | lib/cluster/utils/cluster.go:20-33 | off the host network a port is mapped if and only if the replica is one of nine and the shard is not negative, and two nodes never get the same one |
| Addressing.AcceptedIff | lib/cluster/utils/calc_indices.go:20-58 | a host name is accepted as a node if and only if it is "shard-", a letter of either case for the replica, text without a dot whose part between its first two hyphens, if it has any, is the shard's number, and a dot |
| Addressing.HostRoundTrip | lib/cluster/utils/calc_indices.go:20-58 | parsing the printed host name gives back its indices if and only if the replica has a letter in a..z and the shard is not negative, for every domain |
| Addressing.MatchIsUnique | lib/cluster/utils/cluster.go:98 | the end-anchored suffix pattern matches at one position of a text at most |
| Addressing.SuffixOfPrintedHost | lib/cluster/utils/cluster.go:92-103 | the suffix read from a printed host is its letter and number, or nothing when the letter is not a lower-case one |
| Addressing.ContainerNameAgrees | lib/cluster/utils/cluster.go:141-149 | on a node whose environment names its printed host, the container looked up is the container created, if and only if the letter is a lower-case one and the shard is not negative |
| Addressing.PlainNameIff | lib/cluster/utils/cluster.go:141-149 | a container is looked up under its plain name if and only if the domain is unset or the default one |
| Addressing.NodeContainerInjective | lib/cluster/utils/cluster.go:47-52 | two nodes share a container name exactly when they share letter and shard |
| Addressing.NodeHostInjective | lib/cluster/utils/cluster.go:35-45 | two nodes share a host name exactly when they share letter and shard |
| Addressing.LettersDistinct | lib/cluster/utils/cluster.go:36 | replicas below the surrogate range have letters of their own |
| Addressing.SurrogateReplicasCollide | lib/cluster/utils/cluster.go:51 | beyond it they do not: two replicas share a container name |
| SqlNode.GenerateAddresses | lib/cluster/db/db.go:142-168 | the formatted list is, replica by replica, the address the other parts of the cluster use for that member |
| SqlNode.GroupReplicationHosts | lib/cluster/db/db.go:174-192 | one host per replica: of the node's own shard off the host network, of the shard asked for on it |
| SqlNode.LabelForms | lib/cluster/db/db.go:157-166 | the host forms written out in db.go are those of NodeHost |
| SqlNode.LocalAddressValue | lib/cluster/db/db.go:312-316 | a node's local address is its own entry in the seed list of its shard; a replica index beyond the shard size has none, and panics |
| SqlNode.JoinReportsHost | lib/cluster/db/db.go:267-275 | a node that joins under an accepted host name reports that name if and only if it is "shard-", a lower-case letter, possibly "-" and a positive decimal without leading zeros, and the domain |
| SqlNode.UpperCaseHostIsRenamed | lib/cluster/db/db.go:267-275 | an accepted host name with an upper-case letter is reported under another name |
| SqlNode.ShardsDisjoint | lib/cluster/db/db.go:142-168 | members of different shards never share an address |
| SqlNode.SeedsRoundTrip | lib/cluster/db/db.go:308-310 | the seed setting, taken apart at its commas, is the address list of the node's shard |
| SqlNode.SeedIsOfOwnShard | lib/cluster/db/db.go:308-316 | an address listed in a node's seeds is a member of its own shard |
| SqlNode.ShardMemberIsSeed | lib/cluster/db/db.go:308-316 | every member of the shard is listed in the seeds of each of them |
| GroupReplication.ProgramFits | lib/cluster/db/db.go:717-802 | which statements of the program set, create, disrupt or start anything, and at which points, for either role |
| GroupReplication.PerformFrame | lib/cluster/db/db.go:740-798 | a statement changes the database of its own server and its own run, and founds at most one group |
| GroupReplication.SelfKept | lib/cluster/db/db.go:703-825 | the executing run and its server keep their invariants whatever the fate of the statement |
| GroupReplication.PeersKept | lib/cluster/db/db.go:194-221 | so do all other runs, and no two runs of a node are both past CREATE USER |
| GroupReplication.NextKeepsInv | lib/cluster/db/db.go:194-221 | every action keeps the invariant of the whole world |
| GroupReplication.ReachableInv | lib/cluster/db/db.go:194-221 | the invariant holds in every world any schedule leads to |
| ShardGroups.DerivedNamingIsolates | lib/cluster/db/db.go:142-168 | the settings the code derives never list a member of another shard as a seed, though all shards share a group name |
| ShardGroups.ShardIsolation | lib/cluster/db/db.go:703-825 | over every schedule, a node that is or was in a group belongs to the shard of the node that founded it |
| ShardGroups.OneGroupPerShard | lib/cluster/db/db.go:754-760 | over any retries and re-runs, groups are founded by replicas 0 only and a shard has at most one |
| ShardGroups.MembersAreNotDisrupted | lib/cluster/db/db.go:762-798 | STOP, RESET, CHANGE and START reach a server only before its first start and before it was ever a member, and it is started once at most |
| ShardGroups.NilMeansMember | lib/cluster/db/db.go:194-221 | nil means that the node joined its own shard's group with a single start and that its bootstrap flag is off |
| ShardGroups.ShardConverges | lib/cluster/db/db.go:194-221 | two replicas of a shard that returned nil are of the same group |
| ShardGroups.StuckForever | lib/cluster/db/db.go:733 | a node whose user exists and whose attempt is over never returns nil again, over every later schedule |
| ShardGroups.InterruptedAttemptIsFatal | lib/cluster/db/db.go:205-214 | an attempt that fails or is killed after CREATE USER leaves its node in that state |
| JoinProspects.DerivedNamingCovers | lib/cluster/db/db.go:308-310 | every member of a shard is a seed of every other |
| JoinProspects.ClearRunFinishes | lib/cluster/db/db.go:703-825 | a run with its preconditions met can be carried to its end without touching another node |
| JoinProspects.HopelessNeverReturnsNil | lib/cluster/db/db.go:194-221 | a node that is stuck, or a secondary of a shard that has no member and cannot get one, never returns nil |
| JoinProspects.WhenJoiningCanSucceed | lib/cluster/db/db.go:194-221 | in every reachable world a node can still return nil if and only if it is not stuck and, if it is a secondary yet to start, its shard has a member or a replica 0 that can still found the group |
| StrandedShards.FailedGrantStrandsShard | lib/cluster/db/db.go:733-734 | for every shard of every cluster, a schedule with one failed statement after which no node of the shard ever returns nil |
| InitRaces.EarlyStartIsFatal | lib/cluster/db/db.go:782-798 | a secondary that starts while its shard has no member is refused, whatever the contact, and never returns nil, over every later schedule |
| InitRaces.InitSucceedsIff | lib/cluster/commands/init.go:61-81 | over every schedule in which each node is launched once and statements fail only where their server must refuse them, run to its end: all runs return nil if and only if every secondary came to its START when its shard had a member |
| InitRaces.SecondaryCanBeLost | lib/cluster/commands/init.go:61-81 | for every secondary of every cluster, such a schedule after which it never returns nil |
| InitRaces.InitCanRunSmoothly | lib/cluster/commands/init.go:61-81 | for every cluster, such a schedule on which all runs return nil and all nodes are members |
| JoinProspects.InitCanSucceed | lib/cluster/commands/init.go:57-82 | for every cluster some schedule makes every node a member and returns nil everywhere |
| SqlStartup.ProgramParts | lib/cluster/db/db.go:717-802 | the lists the code runs through make up the program, statement by statement |
| SqlStartup.Operator.Exec | lib/cluster/db/db.go:741 | one statement is one action of the schedule, and fails exactly when it is not answered `Done` or the server refuses it |
| SqlStartup.Operator.ExecNext | lib/cluster/db/db.go:741-749 | whether the server refuses a statement is foreseen from the world the attempt began in |
| SqlStartup.Operator.ExecAll | lib/cluster/db/db.go:740-751 | a list fails if and only if one of its statements is not answered `Done` or is one the server refuses |
| SqlStartup.Operator.TakeRole | lib/cluster/db/db.go:753-780 | replica 0 sets the bootstrap flag, every other replica leaves its group and resets, and comes to its START exactly when nothing stopped it so far |
| SqlStartup.Operator.Finish | lib/cluster/db/db.go:782-824 | START, the bootstrap flag's reset and the status query end the attempt with nil exactly when nothing stops them |
| SqlStartup.Operator.JoinGroupReplication | lib/cluster/db/db.go:703-825 | an attempt returns nil if and only if every statement is answered `Done`, there is no replication user yet and the node can start; a failed one leaves nothing that matters to the next, or the user |
| SqlStartup.Operator.StartSQLContainers | lib/cluster/db/db.go:194-221 | nil is returned if and only if the replica container starts and one of five attempts gets through while every one before it failed before it created the replication user; whatever the servers answer, the attempts are a schedule of the state machine |
| SqlStartup.UntouchedPrimaryJoinsAtOnce | lib/cluster/db/db.go:203-217 | that holds at the first attempt for a replica 0 on a fresh server that answers `Done` throughout |
| InitCommand.LaunchNodes | lib/cluster/commands/init.go:61-79 | every node of the cluster is started, in order, and none twice |
| InitCommand.OneNodeCreatesRedisCluster | lib/cluster/mem/memory.go:184-187 | of the nodes started exactly the first goes on to create the Redis cluster |
| InitCommand.InitBuildsTheCluster | lib/cluster/commands/init.go:44-84 | when every node has returned nil, each shard has exactly one group, founded by its replica 0 and joined by all its replicas and by no other node |
| Routing.PortsDistinctIff | lib/cluster/utils/cluster.go:20-33 | no two published ports of a cluster off the host network collide if and only if it has at most 4 replicas a shard or at most 31 shards |
| Routing.PortsInRangeIff | lib/cluster/db/db.go:134-137 | all published ports are valid if and only if the highest group-replication port is |
| Routing.SQLEndpoints | lib/cluster/tables/connection.go:110-129 | bad counts and ports are refused in that order; otherwise endpoint i is the host and ports of replica 0 of shard i |
| Routing.MemEndpoints | lib/cluster/memconn/mem_conn.go:31-48 | the same for Redis |
| Routing.SqlEndpointReachesRouter | lib/cluster/db/db.go:255-258 | under the port bound, endpoint i leads to the router of replica 0 of shard i and to no other container |
| Routing.EndpointModes | lib/cluster/container/templates/router.conf:11-23 | write endpoints of the migrate command reach the read-write routing and read endpoints the read-only one; for the query server it is the other way round |
| Routing.RouterServesOwnShard | lib/cluster/db/db.go:227-234 | a router's destinations are its shard's MySQL containers in replica order, and a MySQL container is among them exactly when it is of that shard |
| Routing.ProvisioningReachesOwnServer | lib/cluster/db/db.go:681-686 | under the bound, the connection a node is provisioned through reaches its own server only |
| Routing.MemEndpointReachesRedis | lib/cluster/mem/memory.go:129-131 | under the bound, Redis endpoint i leads to the Redis container of replica 0 of shard i only |
| Routing.EndpointBeyondBound | lib/cluster/utils/cluster.go:32 | beyond the bound the first endpoint is ambiguous: a MySQL server publishes the first router's port |
| Routing.HostNetworkEndpoint | lib/cluster/tables/connection.go:119-127 | on the host network endpoint i is the host its MySQL server reports, at the router's own ports |
| RedisCluster.HostEntry | lib/cluster/mem/memory.go:160-175 | the host the loop formats is the address the rest of the cluster uses, on either network |
| RedisCluster.AppendRow | lib/cluster/mem/memory.go:156-176 | the inner loop appends the addresses of one replica, shard by shard |
| RedisCluster.AppendHosts | lib/cluster/mem/memory.go:155-177 | the nested loops append the rows of all replicas |
| RedisCluster.CreateRedisClusterCommand | lib/cluster/mem/memory.go:140-182 | the replica count read off the command divides the addresses it lists into as many masters as there are shards, and these are replica 0 of every shard, in shard order |
| RedisCluster.EntryIndices | lib/cluster/mem/memory.go:154-177 | entry k of the list is replica k / NumShards of shard k % NumShards |
| RedisCluster.ListedExactlyOnce | lib/cluster/mem/memory.go:154-177 | a node's address stands at the one place its indices give and nowhere else |
| RedisCluster.MastersAreReplicaZero | lib/cluster/mem/memory.go:180 | so does every list of the command's form, for any number of shards and replicas |
| RedisCluster.CommandNamesContainers | lib/cluster/mem/memory.go:160-172 | the command lists the containers under the names and port they were created with |
| Backoff.Retry | lib/cluster/utils/backoff.go:22-53 | the function is called up to and including the first success, cancellation or last attempt, every delay is the one of its attempt, and the result says which of the three ended it |
| Backoff.CallsAreDetermined | lib/cluster/utils/backoff.go:22-53 | that fixes the number of calls |
| Backoff.DelayIsIdealIff | lib/cluster/utils/backoff.go:37-40 | a delay is min(2^attempt * initial, cap) if and only if the product fits in 64 bits or wraps to a value that is capped all the same |
| Backoff.ScheduleWithoutWrap | lib/cluster/utils/backoff.go:37-40 | when the longest product fits, every delay is the ideal one, within 0..cap, and none is shorter than the one before |
| Backoff.LongRetryWraps | lib/cluster/utils/backoff.go:37-40 | thirty-six attempts from one second reach a negative delay |
| Backoff.SleptIsTotal | lib/cluster/utils/backoff.go:43-48 | a run without wrap-around has slept the sum of its ideal delays |
| Backoff.TotalClosedForm | lib/cluster/utils/backoff.go:37-40 | that sum is a geometric prefix and a tail at the cap |
| Backoff.TotalSplits | lib/cluster/utils/backoff.go:37-40 | every number of waits splits in that way |
| Backoff.RedisInitSleeps | lib/cluster/mem/memory.go:200-204 | nine waits for the Redis cluster take 243 seconds |
| Connector.NextKeepsLock | lib/cluster/tables/connection.go:153-226 | at every point the lock is held by exactly the threads whose program points say so, by one writer or by readers |
| HandleLedger.SelfStep | lib/cluster/tables/connection.go:186-223 | every step of a thread keeps the ledger and accounts for the handle it has in flight |
| HandleLedger.PeerStep | lib/cluster/tables/connection.go:186-187 | and leaves the handles of other threads alone |
| HandleLedger.ReachableInv | lib/cluster/tables/connection.go:153-434 | the ledger holds after every schedule of connects, gets, closes and fan-outs |
| HandleLedger.HandlesPartition | lib/cluster/tables/connection.go:186-225 | outside the write lock every handle ever opened is exactly one of: cached in the one slot it was opened for and open, closed once, displaced |
| HandleLedger.CachedHandlesAreOpen | lib/cluster/tables/connection.go:377-434 | a cached handle has never been closed, at any point |
| HandleLedger.DisplacedArePaidFor | lib/cluster/tables/connection.go:191-222 | outside the write lock there is exactly one displaced handle for every failed ping of a cached one, but for those whose attempt opened no new handle that answered |
| HandleLedger.AfterCloseAll | lib/cluster/tables/connection.go:407-434 | CloseAll leaves both maps empty, and the handles never closed are exactly the displaced ones |
| HandleLedger.EverythingIsClosedIff | lib/cluster/tables/connection.go:407-434 | after CloseAll every handle ever opened is closed if and only if no failed ping of a cached one was followed by opening another that answered |
| DisplacedHandles.HandleIsDisplaced | lib/cluster/tables/connection.go:191-222 | a schedule of two connects that leaves a handle open and in no slot |
| DisplacedHandles.HandleStaysOpen | lib/cluster/tables/connection.go:407-434 | and CloseAll after it does not close that handle |
| FanOuts.OwnFanStep | lib/cluster/tables/connection.go:253-283 | a goroutine records its own shard once, under the fan-out's mutex, and nothing else |
| FanOuts.ReachableFans | lib/cluster/tables/connection.go:239-348 | the accounts of all fan-outs are sound after every schedule |
| FanOuts.FanOutAccountsForEveryShard | lib/cluster/tables/connection.go:286-292 | when all goroutines have ended, every shard is either in the results, with a handle opened for that shard and kind, or once among the errors; no error means every shard is connected |
| SharedHandles.CallersShareTheHandle | lib/cluster/tables/connection.go:190-193 | while cached pings succeed and nobody closes, all callers of a slot get the one cached handle |
| SharedHandles.GetFindsTheHandle | lib/cluster/tables/connection.go:351-374 | and a call that gets the connection of the slot returns it |
| ConnectAttempts.ErroredIff | lib/cluster/tables/connection.go:157-225 | over every schedule, a connect or goroutine that has ended has ended in an error if and only if three of its attempts failed or a wait of its was cancelled |
| ConnectAttempts.FanOutErrorIff | lib/cluster/tables/connection.go:271-283 | a completed fan-out has a shard among its errors under exactly that condition |
| SecondAttempts.EveryShardRecovers | lib/cluster/tables/connection.go:239-293 | a fan-out over any number of shards in which every first attempt fails and no shard is among the errors |
| SharedHandles.OneOpenHandlePerSlot | lib/cluster/tables/connection.go:190-223 | and of all handles opened for a slot only the cached one is open |
| HandleTargets.ReachableTargets | lib/cluster/tables/connection.go:256-264 | when only fan-outs add configurations, every configuration and handle leads to its shard's endpoint, over every schedule |
| HandleTargets.CachedHandleLeadsToEndpoint | lib/cluster/tables/connection.go:172-222 | a cached handle of shard i was opened to the host of endpoint i, at the port of its kind |
| HandleTargets.ReplacedConfigurationIsUsed | lib/cluster/tables/connection.go:313-324 | a schedule in which a read handle is opened with the write fan-out's configuration |
| HandleTargets.ReadDatabaseIff | lib/cluster/tables/connection.go:261 | read handles are on the connector's database over every schedule if and only if that database is the default one |
| ConnectorProgress.StepsAreBounded | lib/cluster/tables/connection.go:153-226 | the steps of any schedule are bounded by a measure of attempts left and program points |
| ConnectorProgress.NoDeadlock | lib/cluster/tables/connection.go:162-188 | while a call has not ended some thread can run, even if a waiting writer keeps readers out |
| ConnectorProgress.EveryCallEnds | lib/cluster/tables/connection.go:153-348 | every finite set of calls ends: schedules are bounded, and one that cannot go on has ended every call |
| ConnectorProgress.LocksAreNotNested | lib/cluster/utils/backoff.go:43-48 | no lock is held during a wait, and neither mutex is taken under the other |
| SequentialConnector.StepsReachOutcome | lib/cluster/tables/connection.go:186-223 | the steps of the locked section, taken undisturbed, come to the outcome the class is held to |
| SequentialConnector.OutcomeKeepsLedger | lib/cluster/tables/connection.go:186-223 | that outcome accounts for every handle |
| SequentialConnector.MultiDBConnector.AddConfig | lib/cluster/tables/connection.go:132-138 | sets the configuration of one shard and nothing else |
| SequentialConnector.MultiDBConnector.Section | lib/cluster/tables/connection.go:186-223 | leaves maps and handles as the undisturbed steps of the protocol do |
| SequentialConnector.MultiDBConnector.Connect | lib/cluster/tables/connection.go:153-226 | succeeds if and only if the shard is configured and some attempt that is reached finds its cached handle alive or opens one that answers; the result is cached and no other slot changes |
| SequentialConnector.MultiDBConnector.GetConnection | lib/cluster/tables/connection.go:351-374 | returns what the slot holds, or an error when it holds nothing |
| SequentialConnector.MultiDBConnector.CloseSlot | lib/cluster/tables/connection.go:385-390 | closes and forgets the slot's handle, failing exactly when closing fails |
| SequentialConnector.MultiDBConnector.Close | lib/cluster/tables/connection.go:377-404 | both handles of the shard are closed and forgotten as the Close step of the protocol does, and an error is returned exactly when one could not be closed cleanly |
| SequentialConnector.MultiDBConnector.CloseAll | lib/cluster/tables/connection.go:407-434 | every cached handle is closed once and both maps are empty, even when closes fail |
| SequentialConnector.ShardIsTwoSlots | lib/cluster/tables/connection.go:385-397 | closing the read and then the write slot of a shard is the one Close step of the protocol |
| Migrations.AddedColumnHolds | lib/cluster/db/templates/create_column_up.sql:1-5 | a generated column holds the default of its type in every row, NULL for the three types without one, and nothing else changes |
| Migrations.PropertyHolds | lib/cluster/db/templates/create_property_up.sql:1-2 | a property holds what the server reads at its path of each row's document, and a stored one only what converts |
| Migrations.IndexIsAdded | lib/cluster/db/templates/create_index_up.sql:1-4 | an index gets its prefixed name and its columns, unique wins over full-text, and the rows of a unique one differ |
| Migrations.DropUndoesAdd | lib/cluster/db/templates/create_column_down.sql:1 | dropping a column right after it was added gives back columns, indexes and all rows without it |
| Migrations.AddKeepsWellFormed | lib/cluster/db/templates/create_column_up.sql:1-5 | adding a column gives every row a value for it and leaves the other values alone |
| Migrations.ColumnDownStep | lib/cluster/db/templates/create_column_down.sql:1 | on the way down a column's drop succeeds, finds no index on the column and gives the schema from before it was added |
| Migrations.IndexDownStep | lib/cluster/db/templates/create_index_down.sql:1-2 | on the way down an index's drop succeeds and leaves the other indexes in place and order |
| Migrations.DatabaseDownStep | lib/cluster/db/templates/create_db_down.sql:1 | on the way down a database is dropped with none of the original tables in it |
| Migrations.TableDownStep | lib/cluster/db/templates/create_table_down.sql:1 | on the way down a table is dropped with everything in it |
| Migrations.DownsFollowUps | lib/cluster/db/db.go:449-668 | all downs, last first, succeed and lead back through the schemas of the ups |
| Migrations.DownsRestoreSchema | lib/cluster/migration/migration.go:54-80 | whatever the application wrote in between, all downs after all ups bring back the schema and the rows of the original tables without the added columns |
| Migrations.UpsKeepRows | lib/cluster/migration/migration.go:30-52 | the ups leave every original row as it was, apart from the columns they add |
| Migrations.CreatedIsGone | lib/cluster/db/templates/create_table_down.sql:1 | after successful downs no table named by a table migration is left |
| Migrations.DownsUndoUpsIff | lib/cluster/db/templates/create_table_up.sql:1-5 | when all ups succeed, all downs restore schema and rows if and only if no table migration names a table that was there before, or one altered earlier in the list |
| Migrations.ExistingTableIsLost | lib/cluster/db/templates/create_table_up.sql:1-5 | a list on which they do not: a migration for a table that exists loses it with its rows |
| ReapplyMigrations.UpsFill | lib/cluster/db/templates/create_column_up.sql:1-5 | after the ups an original table has its rows filled with the initial values of the columns added, and a new table has none |
| ReapplyMigrations.UpsSucceedIff | lib/cluster/migration/migration.go:30-52 | of two servers of one schema, when the ups succeed on one they succeed on the other if and only if no row of its original tables stands in the way of a generated column or an index, and they lead to one schema |
| ReapplyMigrations.UpAgainIff | lib/cluster/commands/smoke.go:93-97 | up, any writes, down: the second up succeeds if and only if the rows that survive in the original tables, with the columns added before filled in, allow every stored generated column and every index of the list; it ends in the schema of the first |
| ReapplyMigrations.UpAgain | lib/cluster/commands/smoke.go:93-97 | a list that alters only tables of its own can be applied again after any writes |
| ReapplyMigrations.PropertiesApplyAgain | lib/cluster/db/db.go:565-601 | so can a list that adds only properties and indexes to the original tables: what a server keeps true, in the tables altered, of the generated columns it checks and of unique indexes is enough |
| ReapplyMigrations.UpsKeepConsistent | lib/cluster/db/templates/create_property_up.sql:1-2 | and the ups keep that true of every table, whatever virtual properties they add |
| ReapplyMigrations.UniquePropertyAgain | lib/cluster/db/templates/create_property_up.sql:1-2 | for one, a property with a unique index over it |
| ReapplyMigrations.UniqueColumnAgainIff | lib/cluster/db/templates/create_index_up.sql:1-4 | a column with a unique index over it, added to an original table, can be applied again if and only if at most one row is left in the table |
| ReapplyMigrations.CreatedColumn | lib/cluster/db/templates/create_column_up.sql:1-5 | a generated column has the name asked for, and a default value whenever an index can be put on it |
| ReapplyMigrations.SecondUpRefused | lib/cluster/db/templates/create_index_up.sql:1-4 | an input, for every collation that tells two addresses apart: a unique index over an e-mail column, two rows that differ in it, a second up that is refused |
| MigrateCommand.Migrator.Up | lib/cluster/migration/migration.go:30-52 | applies everything pending and stops dirty at the first migration that fails; having nothing left to apply, or no directory, is no error; a directory without a migration is one, and so is a missing connection or source, which change nothing |
| MigrateCommand.Migrator.Down | lib/cluster/migration/migration.go:54-80 | reverts every applied migration, last first, and fails with the migration, the connection, the source or the version that fails |
| MigrateCommand.Migrator.Cycle | lib/cluster/commands/smoke.go:93-97 | up, down, up, down, up on a harmless list that is not empty succeeds exactly when the first up does, and ends as the first up did |
| Responses.Context.BindBody | lib/cluster/server/http.go:174-180 | a body that does not bind is answered at once, and an error is returned only when that answer could not be written |
| Responses.OperationAnswersOnce | lib/cluster/tables/connection.go:453-490 | a retried operation writes at most one response successfully, nothing after it, and succeeds exactly when it does |
| Responses.AttemptIsMadeIff | lib/cluster/tables/connection.go:476-489 | an attempt is made if and only if none before it succeeded or was cancelled, permanent errors included |
| Responses.LastAttemptDecides | lib/cluster/tables/connection.go:476-489 | the operation fails exactly when its last attempt does |
| Responses.RetriedAsBackoff | lib/cluster/tables/connection.go:470-476 | attempts and result are those of the backoff loop |
| Responses.LastColumnWins | lib/cluster/controller/sql.go:102-114 | a row object holds, under each name, the value of the last column of that name |
| Responses.NoColumnIsLostIff | lib/cluster/controller/sql.go:102-114 | every column reaches the client if and only if no two share a name |
| Responses.ReadRow | lib/cluster/controller/sql.go:102-114 | the loop builds that object, with text for bytes and null for no value |
| Responses.QueryAttempt | lib/cluster/controller/sql.go:73-121 | an attempt writes all rows, or one failure, or nothing when the query itself fails |
| Responses.QueryHandler | lib/cluster/controller/sql.go:59-122 | the responses written, the times the query is run and the error are those of the specification, and with nil the client has been shown the reply to the last query |
| Responses.BoundQueryIsAnsweredOnce | lib/cluster/controller/sql.go:59-122 | for a body that binds, at most one response is written, nothing follows it, and nil is returned exactly when it is |
| Responses.QueryIsAnsweredOnceIff | lib/cluster/controller/sql.go:61-70 | in general no response follows a written one if and only if the body binds, or that could not be reported, or the rest of the handler writes nothing |
| Responses.UnboundBodyIsAnsweredTwice | lib/cluster/server/http.go:174-180 | a body that does not bind and leaves the query empty is answered twice |
| Responses.UnsentResultIsQueriedAgain | lib/cluster/controller/sql.go:73-121 | a query that any attempt but the last has got a table for runs again if and only if its response could not be written and the request was not cancelled |
| Responses.QueryIsShown | lib/cluster/controller/sql.go:83-120 | when the handler returns nil on a query that is not empty, the last response has one object for each row of the last reply, in order, with the value of the last column of each name; a reply that cannot be read has the failure |
| Responses.BadRequestsAreRefused | lib/cluster/controller/sql.go:60-70 | an empty query and a body that does not bind are answered as the client's errors, the former without a query |
| Responses.StatusIsShown | lib/cluster/tables/connection.go:503-550 | when the status handler returns nil, the last response has the members' rows of the last reply, in order, or the failure |
| Responses.StatusAttempt | lib/cluster/tables/connection.go:504-549 | an attempt at the status writes one response in every case |
| Responses.GenericQueryHandler | lib/cluster/tables/connection.go:503-550 | the responses, queries and error are those of the retried operation |
| Responses.ClusterStatusHandler | lib/cluster/controller/sql.go:135-153 | the responses, queries and error are those of the specification |
| Responses.StatusIsAnsweredOnce | lib/cluster/controller/sql.go:135-153 | a status request is always responded to, at most one response is written, nothing follows it, and nil is returned exactly when it is |
| Responses.StatusIsQueriedAgainIff | lib/cluster/tables/connection.go:503-550 | the status is queried again if and only if no response could be written: a query that fails is not retried |
| RedisController.RunsKeepLedger | lib/cluster/controller/mem.go:66-106 | under any interleaving of ensureConnection and Close, the client kept is the only one open and every other was closed once |
| RedisController.ClosedStaysClosed | lib/cluster/controller/mem.go:66-106 | a client that was given up is never kept again |
| RedisController.ClientIsStillThereIff | lib/cluster/controller/mem.go:109-131 | a request finds the client it ensured when it sends its command if and only if all others in between found it recently checked |
| RedisController.ClientLastsFiveMinutes | lib/cluster/controller/mem.go:77-106 | a client found alive is kept unchanged by every request that starts within the next five minutes and closed by the first that starts later |
| RedisController.FirstClientIsCreated | lib/cluster/controller/mem.go:90-105 | without a client, one is created if and only if it answers |
| RedisController.ClientsAreFarBetween | lib/cluster/controller/mem.go:77-106 | over every schedule without Close and failed pings, no two clients are created within five minutes |
| RedisController.CommandsGoForward | lib/cluster/controller/mem.go:130-142 | retried commands go to the same client or a newer one, and the ledger holds |
| RedisController.ReconnectsIff | lib/cluster/controller/mem.go:130-142 | the retries touch the client if and only if, in an unbroken run of connection errors, one comes five minutes after the last check or later |
| RedisController.FreshRetriesDoNotReconnect | lib/cluster/controller/mem.go:130-142 | within that time all attempts at a command go to the one client and end in a failure response |
| RedisController.ReplyIsServedIff | lib/cluster/controller/mem.go:130-169 | a good response is sent if and only if some attempt gets a reply and all before it meet connection errors after which there still is a client, and it carries that reply |
| RedisController.CommandIsShown | lib/cluster/controller/mem.go:108-170 | the response to a command whose body binds is the value of its reply if there is a client and the command gets one, and else the failure |
| RedisController.CommandIsAnsweredOnceIff | lib/cluster/controller/mem.go:108-170 | a command is responded to exactly once unless its body does not bind, that was reported, and there is a connection |
| RedisController.RedisQueryController.EnsureConnection | lib/cluster/controller/mem.go:77-106 | keeps a recently checked client, otherwise closes it and keeps a new one if it answers; an error is returned exactly when none is kept |
| RedisController.RedisQueryController.Close | lib/cluster/controller/mem.go:66-75 | closes the client and forgets it, even when closing fails |
| RedisController.RedisQueryController.RetryCommand | lib/cluster/controller/mem.go:128-146 | the clients asked, the response and the client kept are those of the specification |
| RedisController.RedisQueryController.QueryHandler | lib/cluster/controller/mem.go:108-170 | so are the responses and the error of the whole handler |

## Left out

- Docker, SSH, TLS, certificates, volumes and the HTTP server: starting a container or opening a connection is success or failure.
- What MySQL group replication and Redis do beyond the statements above: elections, recovery, allowlists, SSL modes, and refusals for reasons of their own.
- Responses the HTTP framework writes itself when a handler returns an error.
- `logger.FatalIfErr` and `os.Exit`: a process that ends is a run that is killed, or an `Exit` result.
- Negative shard counts, shard sizes and indices in a node's own settings: they are natural numbers here, except where the code checks them.
- Go's int overflow in port arithmetic: ports are computed over unbounded integers.
- Bytes of non-ASCII text: strings are sequences of characters.
- SqlNode.JoinReportsHost: takes the domain the node was given and that of the host name to be the same; the `join` command passes the domain on its own.
- Routing.EndpointModes: the `sql` command's read port 7447 (`lib/cluster/commands/sql.go:19`) is not covered; only the router of shard 10 would publish it.
- Migrations.DownsUndoUpsIff: column names are compared by case, the primary key is not an index, and the server refuses a statement only for the reasons given above; others that depend on the schema alone, such as row size or key length, would not change the results.
- MigrateCommand.Migrator.Up: the files, versions and lock of the migration library.
- Migrations written by hand; the generated ones are databases, tables, columns, properties and indexes.
- SequentialConnector.MultiDBConnector.Connect: runs without interference; what interferes is the subject of `Connector` and the modules after it.
- Connector.NextKeepsLock: reading a map and releasing the read lock are one step, and so are closing handles and releasing the write lock.
- RedisController.RedisQueryController.QueryHandler: runs without other requests between its steps; `ClientIsStillThereIff` says what they can change.
- RedisController.ReplyIsServedIff: how a Redis value is turned into JSON is left out, and the five-second limit on the whole command is one of the other errors.
- RedisController.RunsKeepLedger: `memconn.Client` reports no error, since its shard count and port are positive constants.
- Responses.StatusAttempt: the reflection that allocates rows is left out; a row scans when it has a value for each field.
- `ClusterNodesHandler`, the command line, logging, `sqlCol` and the file names of migrations are left out.
