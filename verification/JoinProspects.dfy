/** When a node can still join: an exact account of which nodes StartSQLContainers can return nil on,
    in any world a schedule can lead to. */
module JoinProspects {
  import opened Text
  import opened SqlNode
  import opened GroupReplication
  import opened ShardGroups

  /** A node's seed setting lists every member of its shard. */
  ghost predicate Covering(nm: Naming) {
    && (forall n, m :: n in nm.nodes && m in nm.nodes && m.shard == n.shard ==>
                         nm.address(m) in Split(nm.seeds(n), ','))
    && (forall n :: n in nm.nodes ==> Node(0, n.shard) in nm.nodes)
  }

  lemma DerivedNamingCovers(c: Cluster)
    requires WellNamed(c)
    ensures Covering(NamingOf(c))
  {
    var nm := NamingOf(c);
    forall n, m | n in nm.nodes && m in nm.nodes && m.shard == n.shard
      ensures nm.address(m) in Split(nm.seeds(n), ',')
    {
      ShardMemberIsSeed(c, n, m);
    }
  }

  // ---- one run left to itself ----

  /** Nothing stands between run `i` and its end: the user is still to be created where the run has
      yet to create it, and a secondary that has yet to start has `contact` to join through. */
  predicate Clear(nm: Naming, w: World, i: nat, contact: Node)
    requires i < |w.runs|
  {
    var r := w.runs[i];
    && r.phase.Attempt? && r.node in w.dbs
    && (r.phase.pc <= CREATE_USER_AT ==> !w.dbs[r.node].replUser)
    && (r.node.rep != 0 && r.phase.pc <= StartAt(r.node) ==>
          contact in w.dbs && contact != r.node && w.dbs[contact].member.In?
          && w.dbs[contact].groupName == nm.groupName
          && w.dbs[contact].localAddress in Split(nm.seeds(r.node), ','))
  }

  /** `w'` differs from `w` in run `i`, in its node's database and in groups that node founded. */
  predicate OnlyRun(w: World, i: nat, w': World)
    requires i < |w.runs|
  {
    var n := w.runs[i].node;
    && n in w.dbs && n in w'.dbs && w'.dbs == w.dbs[n := w'.dbs[n]]
    && |w'.runs| == |w.runs| && w'.runs == w.runs[i := w'.runs[i]] && w'.runs[i].node == n
  }

  lemma ClearStep(nm: Naming, w: World, i: nat, contact: Node) returns (w': World)
    requires Isolating(nm) && Inv(nm, w) && i < |w.runs| && Clear(nm, w, i, contact)
    ensures Next(nm, w, Exec(i, Done, contact)) == Some(w')
    ensures Inv(nm, w') && OnlyRun(w, i, w') && w'.runs[i] == Advance(w.runs[i])
    ensures w'.runs[i].phase.Attempt? ==> Clear(nm, w', i, contact)
    ensures var n := w.runs[i].node;
            w.runs[i].phase.pc == StartAt(n) || w.dbs[n].member.In? ==> w'.dbs[n].member.In?
  {
    var r := w.runs[i];
    var n := r.node;
    assert RunInv(nm, r, w.dbs[n]) && DbInv(nm, w.groups, n, w.dbs[n]);
    assert |Program(nm, n)| == Length(n) by { ProgramFits(nm, n, 0); }
    ProgramFits(nm, n, r.phase.pc);
    var s := Program(nm, n)[r.phase.pc];
    assert Perform(w, i, s, Done, contact).Some? by { ClearPerforms(nm, w, i, s, contact); }
    w' := Perform(w, i, s, Done, contact).value;
    NextKeepsInv(nm, w, Exec(i, Done, contact), w');
    PerformFrame(w, i, s, Done, contact, w');
    ClearStays(nm, w, i, s, contact, w');
  }

  lemma ClearPerforms(nm: Naming, w: World, i: nat, s: Statement, contact: Node)
    requires i < |w.runs| && Clear(nm, w, i, contact)
    requires Fits(nm, w.runs[i].node, w.runs[i].phase.pc, s) && RunInv(nm, w.runs[i], w.dbs[w.runs[i].node])
    ensures Perform(w, i, s, Done, contact).Some?
  {
    var n := w.runs[i].node;
    if s.StartGroupReplication? && n.rep != 0 {
      assert Admits(CountStart(w, n, s), CountStart(w, n, s).dbs[n], contact);
    }
  }

  lemma ClearStays(nm: Naming, w: World, i: nat, s: Statement, contact: Node, w': World)
    requires i < |w.runs| && Clear(nm, w, i, contact)
    requires Fits(nm, w.runs[i].node, w.runs[i].phase.pc, s)
    requires RunInv(nm, w.runs[i], w.dbs[w.runs[i].node])
    requires Perform(w, i, s, Done, contact) == Some(w')
    ensures w'.runs[i].phase.Attempt? ==> Clear(nm, w', i, contact)
    ensures var n := w.runs[i].node;
            w.runs[i].phase.pc == StartAt(n) || w.dbs[n].member.In? ==> w'.dbs[n].member.In?
  {
    PerformFrame(w, i, s, Done, contact, w');
  }

  /** A clear run reaches its end, touching nothing but its own node. */
  lemma {:induction false} ClearRunFinishes(nm: Naming, w: World, i: nat, contact: Node)
    returns (later: seq<Action>, w': World)
    requires Isolating(nm) && Inv(nm, w) && i < |w.runs| && Clear(nm, w, i, contact)
    ensures After(nm, w, later) == Some(w') && Inv(nm, w')
    ensures OnlyRun(w, i, w') && w'.runs[i].phase == Returned(true)
    ensures var n := w.runs[i].node;
            w.runs[i].phase.pc <= StartAt(n) || w.dbs[n].member.In? ==> w'.dbs[n].member.In?
    decreases Length(w.runs[i].node) - w.runs[i].phase.pc
  {
    assert RunInv(nm, w.runs[i], w.dbs[w.runs[i].node]);
    var n, pc := w.runs[i].node, w.runs[i].phase.pc;
    var a := Exec(i, Done, contact);
    var w1 := ClearStep(nm, w, i, contact);
    if w1.runs[i].phase.Attempt? {
      var rest, w2 := ClearRunFinishes(nm, w1, i, contact);
      later, w' := [a] + rest, w2;
      assert later[1..] == rest;
    } else {
      later, w' := [a], w1;
      assert After(nm, w1, []) == Some(w1);
      assert later[1..] == [];
    }
  }

  // ---- which nodes can still be joined ----

  predicate ShardHasMember(w: World, shard: nat) {
    exists m :: m in w.dbs && m.shard == shard && w.dbs[m].member.In?
  }

  /** The node is not stuck, and if it has yet to start and is not a replica 0, its shard has a member
      or can still be given one by its replica 0. */
  predicate Hopeful(w: World, n: Node) {
    && n in w.dbs && !Stuck(w, n)
    && (n.rep == 0 || w.dbs[n].starts == 1 || ShardHasMember(w, n.shard)
        || (var primary := Node(0, n.shard); primary in w.dbs && w.dbs[primary].starts == 0 && !Stuck(w, primary)))
  }

  ghost predicate CanReturnNil(nm: Naming, w: World, n: Node) {
    exists later :: After(nm, w, later).Some? && HasReturnedNil(After(nm, w, later).value, n)
  }

  lemma {:induction false} AfterConcat(nm: Naming, w: World, first: seq<Action>, second: seq<Action>)
    requires After(nm, w, first).Some?
    ensures After(nm, w, first + second) == After(nm, After(nm, w, first).value, second)
    decreases |first|
  {
    if first == [] {
      assert first + second == second;
    } else {
      assert (first + second)[1..] == first[1..] + second;
      AfterConcat(nm, Next(nm, w, first[0]).value, first[1..], second);
    }
  }

  /** A node that is not stuck and has what it needs to start can be brought to return nil. */
  lemma FinishNode(nm: Naming, w: World, n: Node, contact: Node) returns (later: seq<Action>, w': World)
    requires Isolating(nm) && Inv(nm, w) && n in w.dbs && !Stuck(w, n) && !HasReturnedNil(w, n)
    requires n.rep == 0 || w.dbs[n].starts == 1
             || (contact in w.dbs && contact != n && w.dbs[contact].member.In?
                 && w.dbs[contact].groupName == nm.groupName
                 && w.dbs[contact].localAddress in Split(nm.seeds(n), ','))
    ensures After(nm, w, later) == Some(w') && Inv(nm, w') && HasReturnedNil(w', n)
    ensures w'.dbs == w.dbs[n := w'.dbs[n]]
    ensures w.dbs[n].starts == 0 ==> w'.dbs[n].member.In?
    ensures |w.runs| <= |w'.runs|
    ensures forall i :: 0 <= i < |w.runs| ==>
                          w'.runs[i].node == w.runs[i].node && (w.runs[i].node != n ==> w'.runs[i] == w.runs[i])
    ensures forall i :: |w.runs| <= i < |w'.runs| ==> w'.runs[i].node == n
  {
    if i :| 0 <= i < |w.runs| && w.runs[i].node == n && PastCreateUser(w.runs[i]) {
      assert RunInv(nm, w.runs[i], w.dbs[n]);
      later, w' := ClearRunFinishes(nm, w, i, contact);
    } else {
      assert DbInv(nm, w.groups, n, w.dbs[n]);
      later, w' := FinishFresh(nm, w, n, contact);
    }
  }

  lemma FinishFresh(nm: Naming, w: World, n: Node, contact: Node) returns (later: seq<Action>, w': World)
    requires Isolating(nm) && Inv(nm, w) && n in w.dbs && !w.dbs[n].replUser
    requires n.rep == 0
             || (contact in w.dbs && contact != n && w.dbs[contact].member.In?
                 && w.dbs[contact].groupName == nm.groupName
                 && w.dbs[contact].localAddress in Split(nm.seeds(n), ','))
    ensures After(nm, w, later) == Some(w') && Inv(nm, w')
    ensures n in w'.dbs && w'.dbs == w.dbs[n := w'.dbs[n]] && w'.dbs[n].member.In?
    ensures |w'.runs| == |w.runs| + 1 && w'.runs[..|w.runs|] == w.runs
    ensures w'.runs[|w.runs|].node == n && w'.runs[|w.runs|].phase == Returned(true)
  {
    var w1 := Next(nm, w, Launch(n)).value;
    NextKeepsInv(nm, w, Launch(n), w1);
    var rest, w2 := ClearRunFinishes(nm, w1, |w.runs|, contact);
    later, w' := [Launch(n)] + rest, w2;
    assert later[1..] == rest;
  }

  lemma ThroughMember(nm: Naming, w: World, n: Node, m: Node) returns (later: seq<Action>, w': World)
    requires Isolating(nm) && Covering(nm) && Inv(nm, w) && n in w.dbs && !Stuck(w, n) && !HasReturnedNil(w, n)
    requires w.dbs[n].starts == 0 && m in w.dbs && m.shard == n.shard && w.dbs[m].member.In?
    ensures After(nm, w, later) == Some(w') && HasReturnedNil(w', n)
  {
    assert DbInv(nm, w.groups, m, w.dbs[m]) && DbInv(nm, w.groups, n, w.dbs[n]);
    assert nm.address(m) in Split(nm.seeds(n), ',');
    later, w' := FinishNode(nm, w, n, m);
  }

  lemma ThroughPrimary(nm: Naming, w: World, n: Node) returns (later: seq<Action>, w': World)
    requires Isolating(nm) && Covering(nm) && Inv(nm, w) && n in w.dbs && !Stuck(w, n) && !HasReturnedNil(w, n)
    requires n.rep != 0 && w.dbs[n].starts == 0
    requires var p := Node(0, n.shard); p in w.dbs && w.dbs[p].starts == 0 && !Stuck(w, p)
    ensures After(nm, w, later) == Some(w') && HasReturnedNil(w', n)
  {
    var p := Node(0, n.shard);
    UnstartedHasNotReturned(nm, w, p);
    var first, w1 := FinishNode(nm, w, p, p);
    OthersUntouched(w, p, w1, n);
    var second, w2 := ThroughMember(nm, w1, n, p);
    AfterConcat(nm, w, first, second);
    later, w' := first + second, w2;
  }

  lemma HopefulCanReturnNil(nm: Naming, w: World, n: Node)
    requires Isolating(nm) && Covering(nm) && Inv(nm, w) && Hopeful(w, n)
    ensures CanReturnNil(nm, w, n)
  {
    if HasReturnedNil(w, n) {
      assert After(nm, w, []) == Some(w);
    } else if n.rep == 0 || w.dbs[n].starts == 1 {
      var later, w' := FinishNode(nm, w, n, n);
    } else {
      assert DbInv(nm, w.groups, n, w.dbs[n]);
      if m :| m in w.dbs && m.shard == n.shard && w.dbs[m].member.In? {
        var later, w' := ThroughMember(nm, w, n, m);
      } else {
        var later, w' := ThroughPrimary(nm, w, n);
      }
    }
  }

  lemma UnstartedHasNotReturned(nm: Naming, w: World, n: Node)
    requires Inv(nm, w) && n in w.dbs && w.dbs[n].starts == 0
    ensures !HasReturnedNil(w, n)
  {
    forall i | 0 <= i < |w.runs| && w.runs[i].node == n ensures w.runs[i].phase != Returned(true) {
      assert RunInv(nm, w.runs[i], w.dbs[n]);
    }
  }

  lemma OthersUntouched(w: World, p: Node, w': World, n: Node)
    requires n != p && n in w.dbs && p in w.dbs && p in w'.dbs && w'.dbs == w.dbs[p := w'.dbs[p]]
    requires |w.runs| <= |w'.runs|
    requires forall i :: 0 <= i < |w.runs| && w.runs[i].node != p ==> w'.runs[i] == w.runs[i]
    requires forall i :: 0 <= i < |w.runs| && w.runs[i].node == p ==> w'.runs[i].node == p
    requires forall i :: |w.runs| <= i < |w'.runs| ==> w'.runs[i].node == p
    ensures Stuck(w', n) <==> Stuck(w, n)
    ensures HasReturnedNil(w', n) <==> HasReturnedNil(w, n)
  {
    if HasReturnedNil(w, n) {
      var i :| 0 <= i < |w.runs| && w.runs[i].node == n && w.runs[i].phase == Returned(true);
      assert w'.runs[i] == w.runs[i];
    }
    if HasReturnedNil(w', n) {
      var i :| 0 <= i < |w'.runs| && w'.runs[i].node == n && w'.runs[i].phase == Returned(true);
      assert w'.runs[i] == w.runs[i];
    }
    if Stuck(w', n) {
      forall i | 0 <= i < |w.runs| && w.runs[i].node == n
        ensures !PastCreateUser(w.runs[i]) && w.runs[i].phase != Returned(true)
      {
        assert w'.runs[i] == w.runs[i];
      }
    }
  }

  // ---- which nodes cannot ----

  /** No member is left in the shard and its replica 0 cannot found a group any more. */
  predicate Dead(w: World, shard: nat) {
    && !ShardHasMember(w, shard)
    && var primary := Node(0, shard); primary in w.dbs && (w.dbs[primary].starts == 1 || Stuck(w, primary))
  }

  /** In a dead shard START GROUP_REPLICATION is refused, whatever the contact. */
  lemma DeadShardRefuses(nm: Naming, w: World, i: nat, s: Statement, fate: Fate, contact: Node)
    requires Isolating(nm) && Inv(nm, w) && i < |w.runs| && w.runs[i].phase.Attempt?
    requires Dead(w, w.runs[i].node.shard) && w.runs[i].node in w.dbs
    requires Fits(nm, w.runs[i].node, w.runs[i].phase.pc, s) && s.StartGroupReplication?
    requires Perform(w, i, s, fate, contact).Some?
    ensures fate.Refused?
  {
    var n := w.runs[i].node;
    assert RunInv(nm, w.runs[i], w.dbs[n]) && DbInv(nm, w.groups, n, w.dbs[n]);
    AdmittedByShard(nm, w, n, s, contact);
  }

  lemma AdmittedByShard(nm: Naming, w: World, n: Node, s: Statement, contact: Node)
    requires Isolating(nm) && Inv(nm, w) && n in w.dbs && w.dbs[n].seeds == nm.seeds(n) && !w.dbs[n].member.In?
    ensures Admits(CountStart(w, n, s), CountStart(w, n, s).dbs[n], contact) ==> ShardHasMember(w, n.shard)
  {
    if Admits(CountStart(w, n, s), CountStart(w, n, s).dbs[n], contact) {
      assert DbInv(nm, w.groups, contact, w.dbs[contact]);
      assert nm.address(contact) in Split(nm.seeds(n), ',');
    }
  }

  /** Membership and the start count change only when START is executed. */
  lemma PlainStatement(nm: Naming, w: World, i: nat, s: Statement, fate: Fate, contact: Node, w': World)
    requires i < |w.runs| && w.runs[i].node in w.dbs && w.runs[i].phase.Attempt?
    requires Perform(w, i, s, fate, contact) == Some(w')
    requires s.StartGroupReplication? ==> fate.Refused?
    ensures var n := w.runs[i].node;
            && w'.dbs[n].starts == w.dbs[n].starts + (if s.StartGroupReplication? then 1 else 0)
            && (w'.dbs[n].member.In? ==> w.dbs[n].member.In?)
  {
  }

  lemma ExecKeepsMemberless(nm: Naming, w: World, a: Action, w': World, shard: nat)
    requires Isolating(nm) && Inv(nm, w) && Dead(w, shard) && a.Exec?
    requires Next(nm, w, a) == Some(w')
    ensures !ShardHasMember(w', shard) && w'.dbs.Keys == w.dbs.Keys
    ensures w.dbs[Node(0, shard)].starts <= w'.dbs[Node(0, shard)].starts
  {
    var r := w.runs[a.run];
    var n := r.node;
    ProgramFits(nm, n, r.phase.pc);
    var s := Program(nm, n)[r.phase.pc];
    PerformFrame(w, a.run, s, a.fate, a.contact, w');
    if n.shard == shard {
      if s.StartGroupReplication? {
        DeadShardRefuses(nm, w, a.run, s, a.fate, a.contact);
      }
      PlainStatement(nm, w, a.run, s, a.fate, a.contact, w');
    }
  }

  lemma NextKeepsDead(nm: Naming, w: World, a: Action, w': World, shard: nat)
    requires Isolating(nm) && Inv(nm, w) && Dead(w, shard)
    requires Next(nm, w, a) == Some(w')
    ensures Dead(w', shard)
  {
    var primary := Node(0, shard);
    NextKeepsInv(nm, w, a, w');
    if Stuck(w, primary) {
      NextKeepsStuck(nm, w, a, w', primary);
    }
    if a.Exec? {
      ExecKeepsMemberless(nm, w, a, w', shard);
    } else {
      RestKeepsMemberless(nm, w, a, w', shard);
    }
    assert DbInv(nm, w'.groups, primary, w'.dbs[primary]);
  }

  lemma RestKeepsMemberless(nm: Naming, w: World, a: Action, w': World, shard: nat)
    requires !ShardHasMember(w, shard) && Node(0, shard) in w.dbs && !a.Exec?
    requires Next(nm, w, a) == Some(w')
    ensures !ShardHasMember(w', shard) && w'.dbs.Keys == w.dbs.Keys
    ensures w.dbs[Node(0, shard)].starts <= w'.dbs[Node(0, shard)].starts
  {
  }

  lemma NextKeepsHopeless(nm: Naming, w: World, a: Action, w': World, n: Node)
    requires Isolating(nm) && Covering(nm) && Inv(nm, w) && n in w.dbs && !Hopeful(w, n)
    requires Next(nm, w, a) == Some(w')
    ensures n in w'.dbs && !Hopeful(w', n)
  {
    if Stuck(w, n) {
      NextKeepsStuck(nm, w, a, w', n);
    } else {
      var primary := Node(0, n.shard);
      assert DbInv(nm, w.groups, primary, w.dbs[primary]) && DbInv(nm, w.groups, n, w.dbs[n]);
      assert Dead(w, n.shard);
      NextKeepsDead(nm, w, a, w', n.shard);
      DeadSecondary(nm, w, a, w', n);
    }
  }

  /** A secondary that starts in a dead shard is stuck from then on. */
  lemma DeadSecondary(nm: Naming, w: World, a: Action, w': World, n: Node)
    requires Isolating(nm) && Inv(nm, w) && n in w.dbs && Dead(w, n.shard) && w.dbs[n].starts == 0
    requires Next(nm, w, a) == Some(w')
    ensures n in w'.dbs && (w'.dbs[n].starts == 0 || Stuck(w', n))
  {
    if a.Exec? && w.runs[a.run].node == n {
      var r := w.runs[a.run];
      ProgramFits(nm, n, r.phase.pc);
      var s := Program(nm, n)[r.phase.pc];
      assert RunInv(nm, r, w.dbs[n]);
      if s.StartGroupReplication? {
        DeadShardRefuses(nm, w, a.run, s, a.fate, a.contact);
        InterruptionLeavesStuck(nm, w, a.run, a, w');
      }
      PlainStatement(nm, w, a.run, s, a.fate, a.contact, w');
      PerformFrame(w, a.run, s, a.fate, a.contact, w');
    } else if a.Exec? {
      var r := w.runs[a.run];
      ProgramFits(nm, r.node, r.phase.pc);
      PerformFrame(w, a.run, Program(nm, r.node)[r.phase.pc], a.fate, a.contact, w');
    }
  }

  lemma {:induction false} HopelessNeverReturnsNil(nm: Naming, w: World, n: Node, later: seq<Action>)
    requires Isolating(nm) && Covering(nm) && Inv(nm, w) && n in w.dbs && !Hopeful(w, n)
    ensures After(nm, w, later).Some? ==> !HasReturnedNil(After(nm, w, later).value, n)
    decreases |later|
  {
    if later == [] {
      forall i | 0 <= i < |w.runs| && w.runs[i].node == n ensures w.runs[i].phase != Returned(true) {
        assert RunInv(nm, w.runs[i], w.dbs[n]);
      }
    } else if Next(nm, w, later[0]).Some? {
      var w' := Next(nm, w, later[0]).value;
      NextKeepsInv(nm, w, later[0], w');
      NextKeepsHopeless(nm, w, later[0], w', n);
      HopelessNeverReturnsNil(nm, w', n, later[1..]);
    }
  }

  /** In any world some schedule leads to, StartSQLContainers can still return nil on a node, now or
      after some further schedule, exactly when the node is hopeful. */
  lemma WhenJoiningCanSucceed(c: Cluster, w: World, before: seq<Action>, n: Node)
    requires WellNamed(c) && Reachable(NamingOf(c), w, before) && InCluster(c, n)
    ensures CanReturnNil(NamingOf(c), w, n) <==> Hopeful(w, n)
  {
    var nm := NamingOf(c);
    DerivedNamingIsolates(c);
    DerivedNamingCovers(c);
    ClusterInv(c, w, before);
    if Hopeful(w, n) {
      HopefulCanReturnNil(nm, w, n);
    } else {
      forall later | After(nm, w, later).Some? ensures !HasReturnedNil(After(nm, w, later).value, n) {
        HopelessNeverReturnsNil(nm, w, n, later);
      }
    }
  }

  // ---- a whole cluster ----

  /** The nodes of `done` are members that returned nil, the others are untouched, and no secondary
      was done before its replica 0. */
  ghost predicate Progress(nm: Naming, w: World, done: set<Node>) {
    && Inv(nm, w) && done <= nm.nodes
    && (forall n :: n in done ==> HasReturnedNil(w, n) && w.dbs[n].member.In?)
    && (forall n :: n in nm.nodes - done ==> !w.dbs[n].replUser)
  }

  lemma OneMore(nm: Naming, w: World, done: set<Node>, n: Node) returns (later: seq<Action>, w': World)
    requires Isolating(nm) && Covering(nm) && Progress(nm, w, done) && n in nm.nodes - done
    requires n.rep == 0 || Node(0, n.shard) in done
    ensures After(nm, w, later) == Some(w') && Progress(nm, w', done + {n})
  {
    var p := Node(0, n.shard);
    if n.rep != 0 {
      assert DbInv(nm, w.groups, p, w.dbs[p]);
      assert nm.address(p) in Split(nm.seeds(n), ',');
    }
    later, w' := FinishFresh(nm, w, n, p);
    ProgressGrows(nm, w, done, n, w');
  }

  lemma ProgressGrows(nm: Naming, w: World, done: set<Node>, n: Node, w': World)
    requires Progress(nm, w, done) && n in nm.nodes && n in w'.dbs && w'.dbs == w.dbs[n := w'.dbs[n]]
    requires Inv(nm, w') && w'.dbs[n].member.In?
    requires |w'.runs| == |w.runs| + 1 && w'.runs[..|w.runs|] == w.runs
    requires w'.runs[|w.runs|].node == n && w'.runs[|w.runs|].phase == Returned(true)
    ensures Progress(nm, w', done + {n})
  {
    forall m | m in done ensures HasReturnedNil(w', m) && w'.dbs[m].member.In? {
      var i :| 0 <= i < |w.runs| && w.runs[i].node == m && w.runs[i].phase == Returned(true);
      assert w'.runs[i] == w'.runs[..|w.runs|][i];
    }
  }

  lemma AnyMissing(nodes: set<Node>, done: set<Node>) returns (n: Node)
    requires done <= nodes && done != nodes
    ensures n in nodes - done
  {
    assert !(nodes <= done);
    n :| n in nodes && n !in done;
  }

  lemma JoinRest(nm: Naming, w: World, done: set<Node>) returns (later: seq<Action>, w': World)
    requires Isolating(nm) && Covering(nm) && Progress(nm, w, done)
    ensures After(nm, w, later) == Some(w') && Progress(nm, w', nm.nodes)
    decreases nm.nodes - done
  {
    if done == nm.nodes {
      later, w' := [], w;
    } else {
      var n := AnyMissing(nm.nodes, done);
      if Node(0, n.shard) !in done {
        n := Node(0, n.shard);
      }
      var first, w1 := OneMore(nm, w, done, n);
      var second, w2 := JoinRest(nm, w1, done + {n});
      AfterConcat(nm, w, first, second);
      later, w' := first + second, w2;
    }
  }

  /** Some schedule brings StartSQLContainers to return nil on every node of a fresh cluster, with
      every node a member. */
  lemma InitCanSucceed(c: Cluster) returns (schedule: seq<Action>, w: World)
    requires WellNamed(c)
    ensures Reachable(NamingOf(c), w, schedule)
    ensures forall n :: InCluster(c, n) ==> n in w.dbs && HasReturnedNil(w, n) && w.dbs[n].member.In?
  {
    var nm := NamingOf(c);
    DerivedNamingIsolates(c);
    DerivedNamingCovers(c);
    FreshInv(nm);
    schedule, w := JoinRest(nm, FreshWorld(nm), {});
    assert forall n :: InCluster(c, n) ==> n in nm.nodes;
  }
}
