/** A schedule on which a failed statement costs a whole shard (lib/cluster/db/db.go, JoinGroupReplication). */
module StrandedShards {
  import opened SqlNode
  import opened GroupReplication
  import opened ShardGroups
  import opened JoinProspects
  import opened Text

  /** A clear run reaches any later program point, touching nothing but its own node. */
  lemma {:induction false} ClearRunReaches(nm: Naming, w: World, i: nat, contact: Node, pc: nat)
    returns (later: seq<Action>, w': World)
    requires Isolating(nm) && Inv(nm, w) && i < |w.runs| && Clear(nm, w, i, contact)
    requires w.runs[i].phase.pc <= pc < Length(w.runs[i].node)
    ensures After(nm, w, later) == Some(w') && Inv(nm, w') && OnlyRun(w, i, w')
    ensures w'.runs[i].phase == Attempt(pc)
    decreases pc - w.runs[i].phase.pc
  {
    if w.runs[i].phase.pc == pc {
      later, w' := [], w;
    } else {
      var a := Exec(i, Done, contact);
      var w1 := ClearStep(nm, w, i, contact);
      var rest, w2 := ClearRunReaches(nm, w1, i, contact, pc);
      later, w' := [a] + rest, w2;
      assert later[1..] == rest;
    }
  }

  /** The first attempt of a replica 0 on a fresh cluster has created the replication user. */
  lemma UserIsCreated(c: Cluster, p: Node) returns (schedule: seq<Action>, w: World)
    requires WellNamed(c) && InCluster(c, p) && p.rep == 0
    ensures Reachable(NamingOf(c), w, schedule) && Inv(NamingOf(c), w)
    ensures |w.runs| == 1 && w.runs[0].node == p && w.runs[0].phase == Attempt(CREATE_USER_AT + 1)
    ensures w.dbs.Keys == Nodes(c) && forall n :: n in w.dbs && n != p ==> w.dbs[n] == FRESH_DB
  {
    var nm := NamingOf(c);
    DerivedNamingIsolates(c);
    FreshInv(nm);
    var w0 := FreshWorld(nm);
    var w1 := Next(nm, w0, Launch(p)).value;
    NextKeepsInv(nm, w0, Launch(p), w1);
    var rest, w2 := ClearRunReaches(nm, w1, 0, p, CREATE_USER_AT + 1);
    schedule, w := [Launch(p)] + rest, w2;
    assert schedule[1..] == rest;
  }

  lemma NobodyIsHopeful(nm: Naming, w: World, p: Node, n: Node)
    requires Stuck(w, p) && p.rep == 0 && p in w.dbs && !w.dbs[p].member.In?
    requires forall m :: m in w.dbs && m != p ==> w.dbs[m] == FRESH_DB
    requires n.shard == p.shard
    ensures !Hopeful(w, n)
  {
    if n in w.dbs && n.rep == 0 {
      assert n == p;
    }
  }

  /** The statement after CREATE USER fails: the replica 0 is stuck, and no node of its shard ever returns nil,
      over every further schedule of retries and re-runs. */
  lemma FailedGrantStrandsShard(c: Cluster, shard: nat) returns (schedule: seq<Action>, w: World)
    requires WellNamed(c) && c.shardSize > 0 && shard < c.numShards
    ensures Reachable(NamingOf(c), w, schedule) && Stuck(w, Node(0, shard))
    ensures forall n :: InCluster(c, n) && n.shard == shard ==> !CanReturnNil(NamingOf(c), w, n)
  {
    var nm, p := NamingOf(c), Node(0, shard);
    var before, w1 := UserIsCreated(c, p);
    var a := Exec(0, Refused, p);
    ProgramFits(nm, p, CREATE_USER_AT + 1);
    w := Perform(w1, 0, Program(nm, p)[CREATE_USER_AT + 1], Refused, p).value;
    assert RunInv(nm, w1.runs[0], w1.dbs[p]);
    AfterConcat(nm, FreshWorld(nm), before, [a]);
    assert [a][1..] == [] && Next(nm, w1, a) == Some(w);
    schedule := before + [a];
    InterruptionLeavesStuck(nm, w1, 0, a, w);
    forall n | InCluster(c, n) && n.shard == shard ensures !CanReturnNil(nm, w, n) {
      NobodyIsHopeful(nm, w, p, n);
      WhenJoiningCanSucceed(c, w, schedule, n);
    }
  }
}
