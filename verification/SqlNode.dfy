/** The addresses a MySQL node derives for itself and its peers (lib/cluster/db/db.go). */
module SqlNode {
  import opened Text
  import opened Addressing

  const GROUP_PORT := 33061
  const SQL_PORT := 3306
  const SQL := "sql"
  const SQL_ROUTER := "sql-router"

  /** What all the nodes of one cluster share. */
  datatype Cluster = Cluster(network: string, tenant: string, domain: string, groupName: string,
                             numShards: nat, shardSize: nat)

  datatype Node = Node(rep: nat, shard: nat)

  predicate InCluster(c: Cluster, n: Node) {
    n.rep < c.shardSize && n.shard < c.numShards
  }

  const LETTER_LIMIT := 0x8000_0000 - 'a' as int

  /** Names that survive being listed in a comma-separated setting. */
  predicate WellNamed(c: Cluster) {
    ',' !in c.tenant && ',' !in c.domain && c.shardSize <= LETTER_LIMIT
  }

  /** The name replica `rep` of shard `shard` is reachable under by the other nodes. */
  function MemberHost(c: Cluster, rep: nat, shard: nat): string {
    if c.network != HOST_NETWORK then NodeContainer(SQL, c.tenant, rep, shard)
    else NodeHost(HOST_NETWORK, c.domain, rep, shard)
  }

  function Address(c: Cluster, rep: nat, shard: nat, port: nat): string {
    MemberHost(c, rep, shard) + ":" + Itoa(port)
  }

  /** The address of every replica of a shard, in replica order. */
  function Addresses(c: Cluster, shard: nat, port: nat): (addrs: seq<string>)
    ensures |addrs| == c.shardSize
  {
    seq(c.shardSize, rep requires 0 <= rep < c.shardSize => Address(c, rep, shard, port))
  }

  method GenerateAddresses(c: Cluster, n: Node, port: nat) returns (addrs: seq<string>)
    ensures addrs == Addresses(c, n.shard, port)
  {
    if c.shardSize == 0 {
      return [];
    }
    var slots := new string[c.shardSize];
    if c.network != HOST_NETWORK {
      for rep := 0 to c.shardSize
        invariant forall k :: 0 <= k < rep ==> slots[k] == Address(c, k, n.shard, port)
      {
        slots[rep] := NodeContainer(SQL, c.tenant, rep, n.shard) + ":" + Itoa(port);
      }
      return slots[..];
    }
    for rep := 0 to c.shardSize
      invariant forall k :: 0 <= k < rep ==> slots[k] == Address(c, k, n.shard, port)
    {
      AddressForms(c, rep, n.shard, port);
      if n.shard > 0 {
        slots[rep] := "shard-" + [Letter(rep)] + "-" + Itoa(n.shard) + "." + c.domain + ":" + Itoa(port);
      } else {
        slots[rep] := "shard-" + [Letter(rep)] + "." + c.domain + ":" + Itoa(port);
      }
    }
    return slots[..];
  }

  lemma AddressForms(c: Cluster, rep: nat, shard: nat, port: nat)
    requires c.network == HOST_NETWORK
    ensures Address(c, rep, shard, port) ==
            if shard > 0 then "shard-" + [Letter(rep)] + "-" + Itoa(shard) + "." + c.domain + ":" + Itoa(port)
            else "shard-" + [Letter(rep)] + "." + c.domain + ":" + Itoa(port)
  {
    LabelForms(c.domain, rep, shard);
  }

  /** Off the host network the hosts follow the node's own shard; on it, the shard asked for. */
  method GroupReplicationHosts(c: Cluster, n: Node, shard: nat) returns (hosts: seq<string>)
    ensures |hosts| == c.shardSize
    ensures var s := if c.network == HOST_NETWORK then shard else n.shard;
            forall k :: 0 <= k < |hosts| ==> hosts[k] == MemberHost(c, k, s)
  {
    if c.shardSize == 0 {
      return [];
    }
    var slots := new string[c.shardSize];
    if c.network != HOST_NETWORK {
      for rep := 0 to c.shardSize
        invariant forall k :: 0 <= k < rep ==> slots[k] == MemberHost(c, k, n.shard)
      {
        slots[rep] := NodeContainer(SQL, c.tenant, rep, n.shard);
      }
      return slots[..];
    }
    for rep := 0 to c.shardSize
      invariant forall k :: 0 <= k < rep ==> slots[k] == MemberHost(c, k, shard)
    {
      slots[rep] := "shard-" + [Letter(rep)] + "." + c.domain;
      if shard > 0 {
        slots[rep] := "shard-" + [Letter(rep)] + "-" + Itoa(shard) + "." + c.domain;
      }
      LabelForms(c.domain, rep, shard);
    }
    return slots[..];
  }

  lemma LabelForms(domain: string, rep: nat, shard: nat)
    ensures NodeHost(HOST_NETWORK, domain, rep, shard) ==
            if shard > 0 then "shard-" + [Letter(rep)] + "-" + Itoa(shard) + "." + domain
            else "shard-" + [Letter(rep)] + "." + domain
  {
    var stem := "shard-" + [Letter(rep)];
    assert stem + ("-" + Itoa(shard)) == stem + "-" + Itoa(shard);
    assert stem + "" == stem;
  }

  function GroupSeedsValue(c: Cluster, n: Node): string {
    Join(Addresses(c, n.shard, GROUP_PORT), ',')
  }

  /** `GroupReplicationHosts(s.ShardIndex)[s.RepIndex]` with the group replication port; None when the
      index is out of range and the process panics, as for a host beyond the shard size it joins with. */
  method LocalAddressValue(c: Cluster, n: Node) returns (address: Option<string>)
    ensures address == if n.rep < c.shardSize then Some(Addresses(c, n.shard, GROUP_PORT)[n.rep]) else None
  {
    var hosts := GroupReplicationHosts(c, n, n.shard);
    if n.rep >= |hosts| {
      return None;
    }
    address := Some(hosts[n.rep] + ":" + Itoa(GROUP_PORT));
  }

  function LocalAddress(c: Cluster, n: Node): string {
    Address(c, n.rep, n.shard, GROUP_PORT)
  }

  /** The address a node reports to the other members. */
  function ReportAddress(c: Cluster, n: Node): string {
    if c.network != HOST_NETWORK then NodeContainer(SQL, c.tenant, n.rep, n.shard)
    else if n.shard == 0 then "shard-" + [Letter(n.rep)] + "." + c.domain
    else "shard-" + [Letter(n.rep)] + "-" + Itoa(n.shard) + "." + c.domain
  }

  // ---- what the addresses promise ----

  /** "shard-", a lower-case letter, "-" and a positive number as it is printed, if there is one, and the
      domain. */
  predicate SpelledOut(host: string, domain: string, letter: char, number: string) {
    && IsLower(letter) && (number == "" || Canonical(number))
    && host == "shard-" + [letter] + (if number == "" then "" else "-" + number) + "." + domain
  }

  function Number(shard: nat): string {
    if shard == 0 then "" else Itoa(shard)
  }

  lemma ReportIsSpelledOut(c: Cluster, rep: nat, shard: nat)
    requires c.network == HOST_NETWORK && rep <= 25
    ensures SpelledOut(ReportAddress(c, Node(rep, shard)), c.domain, Letter(rep), Number(shard))
  {
    LetterInRange(rep);
    if shard > 0 {
      DigitsAreCanonical(shard);
    }
    var head, number := "shard-" + [Letter(rep)], Number(shard);
    assert head + ("-" + number) == head + "-" + number;
    assert head + "" == head;
  }

  lemma SpelledOutIsPrinted(host: string, domain: string, letter: char, number: string) returns (shard: nat)
    requires SpelledOut(host, domain, letter, number)
    ensures IsLower(letter) && host == ShardLabel(letter, shard) + "." + domain
  {
    shard := 0;
    if number != "" {
      DigitsOfValue(number);
      shard := Value(number);
    }
  }

  lemma SpelledOutIsReported(c: Cluster, host: string, letter: char, number: string)
    requires c.network == HOST_NETWORK && GetClusterIndex(host).Parsed? && SpelledOut(host, c.domain, letter, number)
    ensures var i := GetClusterIndex(host).index;
            i.rep >= 0 && i.shard >= 0 && ReportAddress(c, Node(i.rep, i.shard)) == host
  {
    var shard := SpelledOutIsPrinted(host, c.domain, letter, number);
    PrintedHostIsReported(c, host, letter, shard);
  }

  lemma PrintedHostIsReported(c: Cluster, host: string, letter: char, shard: nat)
    requires c.network == HOST_NETWORK && GetClusterIndex(host).Parsed?
    requires IsLower(letter) && host == ShardLabel(letter, shard) + "." + c.domain
    ensures var i := GetClusterIndex(host).index;
            i.rep >= 0 && i.shard >= 0 && ReportAddress(c, Node(i.rep, i.shard)) == host
  {
    LabelIsParsed(c.domain, host, letter, shard);
    LabelIsReported(c, letter as int - 'a' as int, letter, shard);
  }

  lemma LabelIsParsed(domain: string, host: string, letter: char, shard: nat)
    requires IsLower(letter) && host == ShardLabel(letter, shard) + "." + domain && GetClusterIndex(host).Parsed?
    ensures GetClusterIndex(host).index == ClusterIndex(letter as int - 'a' as int, shard)
  {
    if shard > INT64_MAX {
      LargeNumberIsRejected(domain, letter, shard);
    } else {
      PrintedLabelParses(domain, letter, shard);
    }
  }

  lemma LabelIsReported(c: Cluster, rep: nat, letter: char, shard: nat)
    requires c.network == HOST_NETWORK && IsLower(letter) && letter as int == 'a' as int + rep
    ensures ReportAddress(c, Node(rep, shard)) == ShardLabel(letter, shard) + "." + c.domain
  {
    LetterInRange(rep);
    assert Letter(rep) == letter;
    LabelForms(c.domain, rep, shard);
  }

  /** A node that joins under the host name `host` reports that very name exactly when its letter is in lower
      case and its number, if it has one, is written as it would be printed; the parser also accepts other
      spellings. */
  lemma JoinReportsHost(c: Cluster, host: string)
    requires c.network == HOST_NETWORK && GetClusterIndex(host).Parsed?
    ensures var i := GetClusterIndex(host).index;
            i.rep >= 0 && i.shard >= 0 &&
            (ReportAddress(c, Node(i.rep, i.shard)) == host <==>
             exists letter, number :: SpelledOut(host, c.domain, letter, number))
  {
    ParsedIndexInRange(host);
    var i := GetClusterIndex(host).index;
    if ReportAddress(c, Node(i.rep, i.shard)) == host {
      ReportIsSpelledOut(c, i.rep, i.shard);
    }
    if letter, number :| SpelledOut(host, c.domain, letter, number) {
      SpelledOutIsReported(c, host, letter, number);
    }
  }

  /** `join` with an upper-case letter is accepted and reports another name than it was given. */
  lemma UpperCaseHostIsRenamed(c: Cluster)
    requires c.network == HOST_NETWORK && '.' !in c.domain
    ensures var host := "shard-A" + "." + c.domain;
            && GetClusterIndex(host) == Parsed(ClusterIndex(0, 0))
            && ReportAddress(c, Node(0, 0)) == "shard-a" + "." + c.domain
            && ReportAddress(c, Node(0, 0)) != host
  {
    var word, letter := "shard", "A";
    var stem := word + ['-'] + letter;
    SplitTwo(word, '-', letter);
    SplitTwo(stem, '.', c.domain);
    assert stem == "shard-A";
    assert stem + ['.'] + c.domain == "shard-A" + "." + c.domain;
    LetterInRange(0);
    assert "shard-" + [Letter(0)] == "shard-a";
    assert ("shard-a" + "." + c.domain)[6] != ("shard-A" + "." + c.domain)[6];
  }

  /** On one network, the members of different shards never share an address. */
  lemma ShardsDisjoint(c: Cluster, rep1: nat, shard1: nat, rep2: nat, shard2: nat, port: nat)
    requires Address(c, rep1, shard1, port) == Address(c, rep2, shard2, port)
    ensures shard1 == shard2 && Letter(rep1) == Letter(rep2)
  {
    AppendInjective(MemberHost(c, rep1, shard1) + ":", MemberHost(c, rep2, shard2) + ":", Itoa(port));
    AppendInjective(MemberHost(c, rep1, shard1), MemberHost(c, rep2, shard2), ":");
    NodeContainerInjective(SQL, c.tenant, rep1, shard1, rep2, shard2);
    NodeHostInjective(c.domain, rep1, shard1, rep2, shard2);
  }

  /** The seed setting of a node, taken apart again by the server, is the address list of its shard. */
  lemma SeedsRoundTrip(c: Cluster, n: Node)
    requires WellNamed(c) && InCluster(c, n)
    ensures Split(GroupSeedsValue(c, n), ',') == Addresses(c, n.shard, GROUP_PORT)
  {
    var addrs := Addresses(c, n.shard, GROUP_PORT);
    forall k | 0 <= k < |addrs| ensures ',' !in addrs[k] {
      AddressHasNoComma(c, k, n.shard, GROUP_PORT);
    }
    SplitJoin(addrs, ',');
  }

  lemma AddressHasNoComma(c: Cluster, rep: nat, shard: nat, port: nat)
    requires WellNamed(c) && rep < c.shardSize
    ensures ',' !in Address(c, rep, shard, port)
  {
    assert Letter(rep) != ',';
    DigitsHaveNo(Itoa(shard), ',');
    DigitsHaveNo(Itoa(port), ',');
    assert ',' !in "shard-";
    assert ',' !in ContainerSuffix(Letter(rep), shard);
    assert ',' !in SQL;
  }

  /** An address listed in a node's seed setting belongs to a member of the node's own shard. */
  lemma SeedIsOfOwnShard(c: Cluster, n: Node, m: Node)
    requires WellNamed(c) && InCluster(c, n)
    requires LocalAddress(c, m) in Split(GroupSeedsValue(c, n), ',')
    ensures m.shard == n.shard
  {
    SeedsRoundTrip(c, n);
    var addrs := Addresses(c, n.shard, GROUP_PORT);
    var k :| 0 <= k < |addrs| && addrs[k] == LocalAddress(c, m);
    ShardsDisjoint(c, k, n.shard, m.rep, m.shard, GROUP_PORT);
  }

  /** Every member of the shard, the node itself included, is listed in the node's seed setting. */
  lemma ShardMemberIsSeed(c: Cluster, n: Node, m: Node)
    requires WellNamed(c) && InCluster(c, n) && InCluster(c, m) && m.shard == n.shard
    ensures LocalAddress(c, m) in Split(GroupSeedsValue(c, n), ',')
  {
    SeedsRoundTrip(c, n);
    assert Addresses(c, n.shard, GROUP_PORT)[m.rep] == LocalAddress(c, m);
  }
}
