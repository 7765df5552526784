/** Host names, container names and ports (lib/cluster/utils/cluster.go and calc_indices.go). */
module Addressing {
  import opened Text

  const HOST_NETWORK := "host"
  const MY_DOMAIN := "my.zygote.run"
  const MAX_SHARD_SIZE := 9

  // ---- printers ----

  /** `'a' + rune(replicaIndex)`, converted to a string of one character. */
  function Letter(rep: int): char {
    RuneToChar(Wrap32('a' as int + Wrap32(rep)))
  }

  predicate IsLower(c: char) {
    'a' <= c <= 'z'
  }

  datatype PortResult = Port(port: int) | Exit

  /** The host port a target port is published on. The process exits on the indices it rejects. */
  function NodePort(network: string, target: int, rep: int, shard: int): PortResult {
    if network == HOST_NETWORK then Port(target)
    else if rep < 0 || shard < 0 then Exit
    else if rep >= MAX_SHARD_SIZE then Exit
    else Port(target + rep * 10 + 100 * shard)
  }

  /** Off the host network a port is mapped for the replicas 0 to 8 of any shard, and to each of these nodes a
      host port of its own: a tenth replica would share the port of the next shard. */
  lemma MappedPortIsItsOwn(network: string, target: int, rep: int, shard: int, rep': int, shard': int)
    requires network != HOST_NETWORK
    ensures NodePort(network, target, rep, shard).Port? <==> 0 <= rep < 9 && 0 <= shard
    ensures NodePort(network, target, rep, shard).Port?
            && NodePort(network, target, rep, shard) == NodePort(network, target, rep', shard') ==>
              rep == rep' && shard == shard'
  {
  }

  function ShardLabel(letter: char, shard: int): string {
    "shard-" + [letter] + if shard > 0 then "-" + Itoa(shard) else ""
  }

  function NodeHost(network: string, domain: string, rep: int, shard: int): string {
    if network != HOST_NETWORK then "127.0.0.1" else ShardLabel(Letter(rep), shard) + "." + domain
  }

  function ContainerSuffix(letter: char, shard: int): string {
    [letter] + if shard == 0 then "" else "-" + Itoa(shard)
  }

  function NodeContainer(nodeType: string, tenant: string, rep: int, shard: int): string {
    tenant + "-" + nodeType + "-" + ContainerSuffix(Letter(rep), shard)
  }

  // ---- the hostname parser ----

  datatype ClusterIndex = ClusterIndex(rep: int, shard: int)

  datatype ParseError = InvalidFormat | NotAShard | LetterRequired | NotALetter | BadNumber

  datatype ParseResult = Parsed(index: ClusterIndex) | Rejected(error: ParseError)

  function ToLower(c: char): char {
    if 'A' <= c <= 'Z' then (c as int + 32) as char else c
  }

  function GetClusterIndex(hostname: string): ParseResult {
    var parts := Split(hostname, '.');
    if |parts| < 2 then Rejected(InvalidFormat) else ParseLabel(Split(parts[0], '-'))
  }

  /** The indices spelled by the hyphen-separated components of the first host label. */
  function ParseLabel(components: seq<string>): ParseResult {
    if |components| < 2 || components[0] != "shard" then Rejected(NotAShard)
    else if |components[1]| < 1 then Rejected(LetterRequired)
    else
      var letter := ToLower(components[1][0]);
      if !IsLower(letter) then Rejected(NotALetter)
      else
        var rep := letter as int - 'a' as int;
        if |components| > 2 then
          match Atoi(components[2])
          case None => Rejected(BadNumber)
          case Some(num) => Parsed(ClusterIndex(rep, num))
        else Parsed(ClusterIndex(rep, 0))
  }

  /** Whatever the hostname, an accepted one yields indices of a possible node. */
  lemma ParsedIndexInRange(hostname: string)
    ensures GetClusterIndex(hostname).Parsed? ==>
              var i := GetClusterIndex(hostname).index; 0 <= i.rep <= 25 && 0 <= i.shard <= INT64_MAX
  {
    var stem := Split(hostname, '.')[0];
    SplitPieces(stem, '-');
    var components := Split(stem, '-');
    if |components| > 2 && components[2] != [] {
      assert components[2][0] in components[2];
    }
  }

  /** The replica a letter of either case stands for. */
  function LetterIndex(c: char): Option<int> {
    if 'a' <= c <= 'z' then Some(c as int - 'a' as int)
    else if 'A' <= c <= 'Z' then Some(c as int - 'A' as int)
    else None
  }

  /** The shard number of what follows the letter: 0 unless there is a hyphen, and else what stands between it
      and the next. */
  function ShardNumber(rest: string): Option<int> {
    var parts := Split(rest, '-');
    if |parts| > 1 then Atoi(parts[1]) else Some(0)
  }

  /** "shard-", a letter, anything without a dot in which a shard number can be found, and a dot. */
  predicate Spells(host: string, index: ClusterIndex, c: char, rest: string, tail: string) {
    && host == "shard-" + ([c] + rest) + ['.'] + tail && '.' !in rest
    && LetterIndex(c) == Some(index.rep) && ShardNumber(rest) == Some(index.shard)
  }

  lemma LetterIsFolded(c: char)
    ensures LetterIndex(c) == if IsLower(ToLower(c)) then Some(ToLower(c) as int - 'a' as int) else None
  {
  }

  /** The label's number, read from its components. */
  function ThirdPart(components: seq<string>): Option<int> {
    if |components| > 2 then Atoi(components[2]) else Some(0)
  }

  lemma LabelIsParsedIff(components: seq<string>, index: ClusterIndex)
    ensures ParseLabel(components) == Parsed(index) <==>
              && |components| >= 2 && components[0] == "shard" && components[1] != []
              && LetterIndex(components[1][0]) == Some(index.rep) && ThirdPart(components) == Some(index.shard)
  {
    if |components| >= 2 && components[1] != [] {
      LetterIsFolded(components[1][0]);
    }
  }

  lemma NumberOfRest(c: char, rest: string, components: seq<string>)
    requires c != '-' && components != [] && Split([c] + rest, '-') == components[1..]
    ensures ShardNumber(rest) == ThirdPart(components)
  {
    SplitAfterChar(c, rest, '-');
    var parts := Split(rest, '-');
    assert |parts| == |components| - 1;
    assert |parts| > 1 ==> components[2] == components[1..][1] == parts[1];
  }

  lemma SpelledLabelIsParsed(word: string, index: ClusterIndex, c: char, rest: string)
    requires word == "shard" && '-' !in word
    requires LetterIndex(c) == Some(index.rep) && ShardNumber(rest) == Some(index.shard)
    ensures ParseLabel(Split(word + ['-'] + ([c] + rest), '-')) == Parsed(index)
  {
    SplitCons(word, '-', [c] + rest);
    var components := [word] + Split([c] + rest, '-');
    NumberOfRest(c, rest, components);
    SplitAfterChar(c, rest, '-');
    LabelIsParsedIff(components, index);
  }

  lemma NoDotInLabel(c: char, rest: string)
    requires '.' !in rest && c != '.'
    ensures '.' !in "shard-" + ([c] + rest)
  {
  }

  lemma SpelledIsParsed(host: string, index: ClusterIndex, c: char, rest: string, tail: string)
    requires Spells(host, index, c, rest, tail)
    ensures GetClusterIndex(host) == Parsed(index)
  {
    var stem := "shard-" + ([c] + rest);
    NoDotInLabel(c, rest);
    SplitCons(stem, '.', tail);
    ShardDash([c] + rest);
    SpelledLabelIsParsed("shard", index, c, rest);
  }

  lemma ShardDash(after: string)
    ensures "shard" + ['-'] + after == "shard-" + after
  {
  }

  lemma LabelIsSpelled(stem: string, word: string, index: ClusterIndex) returns (c: char, rest: string)
    requires word == "shard" && ParseLabel(Split(stem, '-')) == Parsed(index)
    ensures stem == word + ['-'] + ([c] + rest)
    ensures LetterIndex(c) == Some(index.rep) && ShardNumber(rest) == Some(index.shard)
  {
    var components := Split(stem, '-');
    LabelIsParsedIff(components, index);
    SplitHead(stem, '-');
    c, rest := AfterTheWord(stem[|word| + 1..], components, index);
  }

  lemma AfterTheWord(after: string, components: seq<string>, index: ClusterIndex) returns (c: char, rest: string)
    requires |components| >= 2 && Split(after, '-') == components[1..] && components[1] != []
    requires LetterIndex(components[1][0]) == Some(index.rep) && ThirdPart(components) == Some(index.shard)
    ensures after == [c] + rest
    ensures LetterIndex(c) == Some(index.rep) && ShardNumber(rest) == Some(index.shard)
  {
    assert components[1..][0] == components[1];
    FirstOfSplit(after, '-');
    c, rest := after[0], after[1..];
    assert after == [c] + rest;
    NumberOfRest(c, rest, components);
  }

  lemma ParsedIsSpelled(host: string) returns (c: char, rest: string, tail: string)
    requires GetClusterIndex(host).Parsed?
    ensures Spells(host, GetClusterIndex(host).index, c, rest, tail)
  {
    SplitHead(host, '.');
    var stem := Split(host, '.')[0];
    tail := host[|stem| + 1..];
    c, rest := LabelIsSpelled(stem, "shard", GetClusterIndex(host).index);
    ShardDash([c] + rest);
    NoDotInRest(stem, c, rest);
  }

  lemma NoDotInRest(stem: string, c: char, rest: string)
    requires stem == "shard-" + ([c] + rest) && '.' !in stem
    ensures '.' !in rest
  {
    forall k | 0 <= k < |rest| ensures rest[k] != '.' {
      assert stem[k + 7] == rest[k];
    }
  }

  lemma FirstOfSplit(s: string, sep: char)
    requires |Split(s, sep)[0]| >= 1
    ensures s != [] && s[0] == Split(s, sep)[0][0]
  {
    assert Split(s, sep)[0] == s[..IndexOf(s, sep)];
  }

  /** Which host names are accepted, and as which node. */
  lemma AcceptedIff(host: string, index: ClusterIndex)
    ensures GetClusterIndex(host) == Parsed(index) <==> exists c, rest, tail :: Spells(host, index, c, rest, tail)
  {
    if GetClusterIndex(host) == Parsed(index) {
      var c, rest, tail := ParsedIsSpelled(host);
    }
    if c, rest, tail :| Spells(host, index, c, rest, tail) {
      SpelledIsParsed(host, index, c, rest, tail);
    }
  }

  lemma LetterInRange(rep: int)
    requires 0 <= rep <= 25
    ensures Letter(rep) as int == 'a' as int + rep && IsLower(Letter(rep))
  {
  }

  lemma SplitNumbered(word: string, letter: string, number: string)
    requires '-' !in word && '-' !in letter && '-' !in number
    ensures Split(word + "-" + letter + ("-" + number), '-') == [word, letter, number]
  {
    Reassociate(word, letter, number);
    SplitThree(word, '-', letter, number);
  }

  lemma Reassociate(word: string, letter: string, number: string)
    ensures word + "-" + letter + ("-" + number) == word + ['-'] + (letter + ['-'] + number)
  {
  }

  /** A host label splits into "shard", the letter and the number. */
  lemma SplitLabel(letter: char, shard: int)
    requires letter != '-'
    ensures Split(ShardLabel(letter, shard), '-') ==
            ["shard", [letter]] + if shard > 0 then [Itoa(shard)] else []
  {
    var word, mid := "shard", [letter];
    assert word + "-" == "shard-";
    if shard > 0 {
      var number := Itoa(shard);
      DigitsHaveNo(number, '-');
      SplitNumbered(word, mid, number);
    } else {
      SplitTwo(word, '-', mid);
      assert ShardLabel(letter, shard) == word + ['-'] + mid;
    }
  }

  lemma DigitsHaveNo(s: string, c: char)
    requires AllDigits(s) && !IsDigit(c)
    ensures c !in s
  {
  }

  lemma LabelHasNoDot(letter: char, shard: int)
    requires letter != '.'
    ensures '.' !in ShardLabel(letter, shard)
  {
    if shard > 0 {
      DigitsHaveNo(Itoa(shard), '.');
    }
  }

  lemma PrintedLabelParses(domain: string, letter: char, shard: int)
    requires IsLower(letter) && shard <= INT64_MAX
    ensures GetClusterIndex(ShardLabel(letter, shard) + "." + domain) ==
            Parsed(ClusterIndex(letter as int - 'a' as int, if shard > 0 then shard else 0))
  {
    var stem := ShardLabel(letter, shard);
    LabelHasNoDot(letter, shard);
    SplitCons(stem, '.', domain);
    SplitLabel(letter, shard);
    ComponentsParse(letter, shard);
  }

  lemma ComponentsParse(letter: char, shard: int)
    requires IsLower(letter) && shard <= INT64_MAX
    ensures ParseLabel(["shard", [letter]] + if shard > 0 then [Itoa(shard)] else []) ==
            Parsed(ClusterIndex(letter as int - 'a' as int, if shard > 0 then shard else 0))
  {
    AtoiItoa(shard);
  }

  /** A shard number beyond an int is refused. */
  lemma LargeNumberIsRejected(domain: string, letter: char, shard: int)
    requires IsLower(letter) && shard > INT64_MAX
    ensures GetClusterIndex(ShardLabel(letter, shard) + "." + domain).Rejected?
  {
    LabelHasNoDot(letter, shard);
    SplitCons(ShardLabel(letter, shard), '.', domain);
    SplitLabel(letter, shard);
    AtoiItoa(shard);
  }

  /** Parsing the printed host name gives back the indices exactly when they are those of a node
      with a letter in a..z. */
  lemma HostRoundTrip(domain: string, rep: int, shard: int)
    requires IsInt64(rep) && IsInt64(shard)
    ensures GetClusterIndex(NodeHost(HOST_NETWORK, domain, rep, shard)) == Parsed(ClusterIndex(rep, shard))
            <==> 0 <= rep <= 25 && 0 <= shard
  {
    var host := NodeHost(HOST_NETWORK, domain, rep, shard);
    ParsedIndexInRange(host);
    if 0 <= rep <= 25 && 0 <= shard {
      LetterInRange(rep);
      PrintedLabelParses(domain, Letter(rep), shard);
    }
  }

  // ---- the suffix parser ----

  /** `strings.CutSuffix`. */
  function CutSuffix(s: string, suffix: string): Option<string> {
    if |suffix| <= |s| && s[|s| - |suffix|..] == suffix then Some(s[..|s| - |suffix|]) else None
  }

  /** Does `-[a-z](-\d+)?$` match from position `i` to the end of the text? */
  predicate MatchesAt(b: string, i: nat) {
    && i + 1 < |b| && b[i] == '-' && IsLower(b[i + 1])
    && (i + 2 == |b| || (i + 3 < |b| && b[i + 2] == '-' && forall k :: i + 3 <= k < |b| ==> IsDigit(b[k])))
  }

  /** The leftmost match at or after `i`, as `FindString` reports it. */
  function FindFrom(b: string, i: nat): (found: Option<nat>)
    ensures found.None? ==> forall k :: i <= k ==> !MatchesAt(b, k)
    ensures found.Some? ==> MatchesAt(b, found.value)
    decreases |b| - i
  {
    if i >= |b| then None else if MatchesAt(b, i) then Some(i) else FindFrom(b, i + 1)
  }

  /** The text after the hyphen of the match, or "" when there is none. */
  function NodeSuffix(host: string, domain: string): string {
    match CutSuffix(host, "." + domain)
    case None => ""
    case Some(b) =>
      match FindFrom(b, 0)
      case None => ""
      case Some(i) => b[i + 1..]
  }

  /** The end-anchored pattern matches at no more than one position of any text. */
  lemma MatchIsUnique(b: string, i: nat, j: nat)
    requires MatchesAt(b, i) && MatchesAt(b, j)
    ensures i == j
  {
  }

  datatype Environment = Environment(zHost: string, zDomain: string, zTenant: string)

  function DomainName(env: Environment): string {
    if env.zDomain == "" then MY_DOMAIN else env.zDomain
  }

  function HostName(env: Environment): string {
    if env.zHost == "" then MY_DOMAIN else env.zHost
  }

  function TenantName(env: Environment): string {
    if env.zTenant == "" then "zygote" else env.zTenant
  }

  /** None when the process ends because the host name carries no suffix. */
  function ContainerName(env: Environment, name: string): Option<string> {
    if DomainName(env) == MY_DOMAIN then Some(name) else
      var suffix := NodeSuffix(HostName(env), DomainName(env));
      if suffix == "" then None else Some(TenantName(env) + "-" + name + "-" + suffix)
  }

  /** On the default domain containers go by their plain names; on any other the name has the tenant in front
      of it and a suffix after it, or there is none. */
  lemma PlainNameIff(env: Environment, name: string)
    ensures ContainerName(env, name) == Some(name) <==> env.zDomain == "" || env.zDomain == "my.zygote.run"
    ensures env.zDomain != "" && env.zDomain != "my.zygote.run" && ContainerName(env, name).Some? ==>
              |ContainerName(env, name).value| > |name| + 2
  {
  }

  /** The suffix read back from a printed host name. */
  lemma SuffixOfPrintedHost(domain: string, letter: char, shard: int)
    ensures NodeSuffix(ShardLabel(letter, shard) + "." + domain, domain) ==
            if !IsLower(letter) then "" else [letter] + if shard > 0 then "-" + Itoa(shard) else ""
  {
    var b := ShardLabel(letter, shard);
    var back := "." + domain;
    var host := b + "." + domain;
    assert host == b + back;
    assert host[|host| - |back|..] == back && host[..|host| - |back|] == b;
    LabelChars(letter, shard);
    if IsLower(letter) {
      assert MatchesAt(b, 5);
      MatchIsUnique(b, 5, FindFrom(b, 0).value);
      assert b[6..] == [letter] + if shard > 0 then "-" + Itoa(shard) else "";
    } else {
      forall i: nat ensures !MatchesAt(b, i) {
        NoMatchWithoutLetter(letter, shard, i);
      }
    }
  }

  lemma LabelChars(letter: char, shard: int)
    ensures var b := ShardLabel(letter, shard);
            && |b| >= 7 && b[..6] == "shard-" && b[5] == '-' && b[6] == letter
            && (shard <= 0 ==> |b| == 7)
            && (shard > 0 ==> |b| > 8 && b[7] == '-' && forall k :: 8 <= k < |b| ==> IsDigit(b[k]))
  {
    var b := ShardLabel(letter, shard);
    if shard > 0 {
      assert forall k :: 8 <= k < |b| ==> b[k] == Itoa(shard)[k - 8];
    }
  }

  lemma NoMatchWithoutLetter(letter: char, shard: int, i: nat)
    requires !IsLower(letter)
    ensures !MatchesAt(ShardLabel(letter, shard), i)
  {
    var b := ShardLabel(letter, shard);
    LabelChars(letter, shard);
    assert forall k :: 0 <= k < 6 ==> b[k] == b[..6][k];
  }

  /** On a node whose environment names its printed host, the containers the tooling looks up are
      the ones the cluster code created exactly when the replica letter is a lower-case letter and
      the shard index is not negative. */
  lemma ContainerNameAgrees(env: Environment, name: string, rep: int, shard: int)
    requires env.zDomain != "" && env.zDomain != MY_DOMAIN
    requires env.zHost == NodeHost(HOST_NETWORK, env.zDomain, rep, shard)
    ensures ContainerName(env, name) == Some(NodeContainer(name, TenantName(env), rep, shard))
            <==> IsLower(Letter(rep)) && shard >= 0
  {
    var letter := Letter(rep);
    SuffixOfPrintedHost(env.zDomain, letter, shard);
    var suffix := NodeSuffix(env.zHost, env.zDomain);
    PrependInjective(TenantName(env) + "-" + name + "-", suffix, ContainerSuffix(letter, shard));
    if shard < 0 {
      assert |ContainerSuffix(letter, shard)| > 1;
    }
  }

  // ---- distinct names ----

  /** A letter and a shard number can be read back from a container suffix. */
  lemma ContainerSuffixInjective(letter1: char, shard1: int, letter2: char, shard2: int)
    requires ContainerSuffix(letter1, shard1) == ContainerSuffix(letter2, shard2)
    ensures letter1 == letter2 && shard1 == shard2
  {
    var x := if shard1 == 0 then "" else "-" + Itoa(shard1);
    var y := if shard2 == 0 then "" else "-" + Itoa(shard2);
    SingleThenRest(letter1, x, letter2, y);
    if shard1 != 0 && shard2 != 0 {
      PrependInjective("-", Itoa(shard1), Itoa(shard2));
      ItoaInjective(shard1, shard2);
    }
  }

  lemma SingleThenRest(c: char, x: string, d: char, y: string)
    requires [c] + x == [d] + y
    ensures c == d && x == y
  {
    assert ([c] + x)[0] == c && ([d] + y)[0] == d;
    assert ([c] + x)[1..] == x && ([d] + y)[1..] == y;
  }

  lemma NodeContainerInjective(nodeType: string, tenant: string, rep1: int, shard1: int, rep2: int, shard2: int)
    ensures NodeContainer(nodeType, tenant, rep1, shard1) == NodeContainer(nodeType, tenant, rep2, shard2)
            <==> Letter(rep1) == Letter(rep2) && shard1 == shard2
  {
    var letter1, letter2 := Letter(rep1), Letter(rep2);
    if NodeContainer(nodeType, tenant, rep1, shard1) == NodeContainer(nodeType, tenant, rep2, shard2) {
      var front := tenant + "-" + nodeType + "-";
      PrependInjective(front, ContainerSuffix(letter1, shard1), ContainerSuffix(letter2, shard2));
      ContainerSuffixInjective(letter1, shard1, letter2, shard2);
    }
  }

  lemma LabelIsSuffixed(letter: char, shard: int)
    requires 0 <= shard
    ensures ShardLabel(letter, shard) == "shard-" + ContainerSuffix(letter, shard)
  {
  }

  lemma LabelInjective(letter1: char, shard1: int, letter2: char, shard2: int)
    requires 0 <= shard1 && 0 <= shard2
    requires ShardLabel(letter1, shard1) == ShardLabel(letter2, shard2)
    ensures letter1 == letter2 && shard1 == shard2
  {
    var x, y := ContainerSuffix(letter1, shard1), ContainerSuffix(letter2, shard2);
    LabelIsSuffixed(letter1, shard1);
    LabelIsSuffixed(letter2, shard2);
    PrependInjective("shard-", x, y);
    ContainerSuffixInjective(letter1, shard1, letter2, shard2);
  }

  lemma NodeHostInjective(domain: string, rep1: int, shard1: int, rep2: int, shard2: int)
    requires 0 <= shard1 && 0 <= shard2
    ensures NodeHost(HOST_NETWORK, domain, rep1, shard1) == NodeHost(HOST_NETWORK, domain, rep2, shard2)
            <==> Letter(rep1) == Letter(rep2) && shard1 == shard2
  {
    var letter1, letter2 := Letter(rep1), Letter(rep2);
    if NodeHost(HOST_NETWORK, domain, rep1, shard1) == NodeHost(HOST_NETWORK, domain, rep2, shard2) {
      AppendInjective(ShardLabel(letter1, shard1) + ".", ShardLabel(letter2, shard2) + ".", domain);
      AppendInjective(ShardLabel(letter1, shard1), ShardLabel(letter2, shard2), ".");
      LabelInjective(letter1, shard1, letter2, shard2);
    }
  }

  const FIRST_SURROGATE_REPLICA := 0xD800 - 'a' as int

  /** Replicas below the surrogate range have letters of their own. */
  lemma LettersDistinct(rep1: int, rep2: int)
    requires 0 <= rep1 < FIRST_SURROGATE_REPLICA && 0 <= rep2 < FIRST_SURROGATE_REPLICA
    ensures Letter(rep1) == Letter(rep2) <==> rep1 == rep2
  {
    assert Letter(rep1) as int == 'a' as int + rep1;
    assert Letter(rep2) as int == 'a' as int + rep2;
  }

  /** The first two replicas in the surrogate range share a container name. */
  lemma SurrogateReplicasCollide(nodeType: string, tenant: string, shard: int)
    ensures NodeContainer(nodeType, tenant, FIRST_SURROGATE_REPLICA, shard) ==
            NodeContainer(nodeType, tenant, FIRST_SURROGATE_REPLICA + 1, shard)
  {
    assert Letter(FIRST_SURROGATE_REPLICA) == Letter(FIRST_SURROGATE_REPLICA + 1);
  }
}
