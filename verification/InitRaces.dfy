/** What becomes of `init` when nothing goes wrong: its runs race, and a secondary that starts before its shard
    has a member is refused for good (lib/cluster/commands/init.go, lib/cluster/db/db.go). */
module InitRaces {
  import opened Text
  import opened SqlNode
  import opened GroupReplication
  import opened ShardGroups
  import opened JoinProspects
  import opened StrandedShards

  // ---- a start that comes too early ----

  /** Run `i` of a secondary is about to start. */
  predicate AtSecondaryStart(w: World, i: nat) {
    i < |w.runs| && w.runs[i].node.rep != 0 && w.runs[i].phase == Attempt(StartAt(w.runs[i].node))
  }

  lemma EarlyStartIsRefused(nm: Naming, w: World, i: nat, fate: Fate, contact: Node)
    requires Isolating(nm) && Inv(nm, w) && AtSecondaryStart(w, i) && !ShardHasMember(w, w.runs[i].node.shard)
    requires Next(nm, w, Exec(i, fate, contact)).Some?
    ensures fate.Refused?
  {
    var n := w.runs[i].node;
    assert RunInv(nm, w.runs[i], w.dbs[n]) && DbInv(nm, w.groups, n, w.dbs[n]);
    ProgramFits(nm, n, StartAt(n));
    AdmittedByShard(nm, w, n, Program(nm, n)[StartAt(n)], contact);
  }

  /** A secondary that is the first of its shard to start is refused, whatever the contact, and never returns
      nil: no retry and no re-run gets past CREATE USER again. */
  lemma EarlyStartIsFatal(c: Cluster, w: World, before: seq<Action>, i: nat, fate: Fate, contact: Node, w': World,
                          later: seq<Action>)
    requires WellNamed(c) && Reachable(NamingOf(c), w, before)
    requires AtSecondaryStart(w, i) && !ShardHasMember(w, w.runs[i].node.shard)
    requires Next(NamingOf(c), w, Exec(i, fate, contact)) == Some(w')
    ensures fate.Refused?
    ensures After(NamingOf(c), w', later).Some? ==>
              !HasReturnedNil(After(NamingOf(c), w', later).value, w.runs[i].node)
  {
    DerivedNamingIsolates(c);
    ClusterInv(c, w, before);
    EarlyStartIsRefused(NamingOf(c), w, i, fate, contact);
    InterruptedAttemptIsFatal(c, w, before, i, Exec(i, fate, contact), w', later);
  }

  // ---- schedules without faults ----

  /** The server refuses the statement run `i` is about to execute, whoever it turns to. */
  ghost predicate MustRefuse(nm: Naming, w: World, i: nat) {
    i < |w.runs| && w.runs[i].node in w.dbs && w.runs[i].phase.Attempt?
    && w.runs[i].phase.pc < |Program(nm, w.runs[i].node)|
    && forall contact :: Perform(w, i, Program(nm, w.runs[i].node)[w.runs[i].phase.pc], Done, contact).None?
  }

  /** Each node is launched once, nothing is lost, killed or left, and a statement fails only where its server
      must refuse it. */
  ghost predicate NoFault(nm: Naming, w: World, a: Action) {
    match a
    case Launch(n) => forall i :: 0 <= i < |w.runs| ==> w.runs[i].node != n
    case Exec(i, fate, _) => fate.Done? || (fate.Refused? && MustRefuse(nm, w, i))
    case Wake(_) => true
    case Kill(_) => false
    case Depart(_) => false
  }

  ghost predicate Faultless(nm: Naming, w: World, actions: seq<Action>)
    decreases |actions|
  {
    actions == []
    || (NoFault(nm, w, actions[0])
        && (Next(nm, w, actions[0]).Some? ==> Faultless(nm, Next(nm, w, actions[0]).value, actions[1..])))
  }

  /** A secondary that starts does so when its shard has a member. */
  predicate StartsInTime(w: World, a: Action) {
    a.Exec? && AtSecondaryStart(w, a.run) ==> ShardHasMember(w, w.runs[a.run].node.shard)
  }

  /** So does every one in a schedule. */
  ghost predicate AllStartInTime(nm: Naming, w: World, actions: seq<Action>)
    decreases |actions|
  {
    actions == []
    || (StartsInTime(w, actions[0])
        && (Next(nm, w, actions[0]).Some? ==> AllStartInTime(nm, Next(nm, w, actions[0]).value, actions[1..])))
  }

  // ---- nothing is refused ----

  /** No run has failed, each is the only one of its node, and a node without one is untouched. */
  ghost predicate Smooth(nm: Naming, w: World) {
    && Inv(nm, w)
    && (forall i :: 0 <= i < |w.runs| ==> SmoothRun(w, w.runs[i]))
    && (forall i, j :: 0 <= i < |w.runs| && 0 <= j < |w.runs| && i != j ==> w.runs[i].node != w.runs[j].node)
    && (forall n :: n in w.dbs && Idle(w, n) ==> !w.dbs[n].replUser)
  }

  predicate SmoothRun(w: World, r: Run) {
    r.node in w.dbs
    && (r.phase == Returned(true)
        || (r.phase.Attempt? && (r.phase.pc <= CREATE_USER_AT ==> !w.dbs[r.node].replUser)))
  }

  predicate Idle(w: World, n: Node) {
    forall i :: 0 <= i < |w.runs| ==> w.runs[i].node != n
  }

  /** In such a world no server has to refuse, as long as secondaries start in time. */
  lemma NothingIsRefused(nm: Naming, w: World, i: nat)
    requires Isolating(nm) && Covering(nm) && Smooth(nm, w) && i < |w.runs| && w.runs[i].phase.Attempt?
    requires AtSecondaryStart(w, i) ==> ShardHasMember(w, w.runs[i].node.shard)
    ensures !MustRefuse(nm, w, i)
  {
    var r := w.runs[i];
    var n := r.node;
    assert SmoothRun(w, r) && RunInv(nm, r, w.dbs[n]);
    var contact := n;
    if AtSecondaryStart(w, i) {
      contact :| contact in w.dbs && contact.shard == n.shard && w.dbs[contact].member.In?;
      assert DbInv(nm, w.groups, contact, w.dbs[contact]) && nm.address(contact) in Split(nm.seeds(n), ',');
    }
    ProgramFits(nm, n, 0);
    ProgramFits(nm, n, r.phase.pc);
    if r.phase.pc < StartAt(n) || r.phase.pc > StartAt(n) || n.rep == 0 {
      OtherwiseDone(nm, w, i, contact);
    } else {
      assert contact != n;
      ClearPerforms(nm, w, i, Program(nm, n)[r.phase.pc], contact);
    }
  }

  lemma OtherwiseDone(nm: Naming, w: World, i: nat, contact: Node)
    requires i < |w.runs| && SmoothRun(w, w.runs[i]) && w.runs[i].phase.Attempt?
    requires RunInv(nm, w.runs[i], w.dbs[w.runs[i].node]) && !AtSecondaryStart(w, i)
    requires |Program(nm, w.runs[i].node)| == Length(w.runs[i].node)
    requires Fits(nm, w.runs[i].node, w.runs[i].phase.pc, Program(nm, w.runs[i].node)[w.runs[i].phase.pc])
    ensures Perform(w, i, Program(nm, w.runs[i].node)[w.runs[i].phase.pc], Done, contact).Some?
  {
  }

  lemma NextKeepsSmooth(nm: Naming, w: World, a: Action, w': World)
    requires Isolating(nm) && Covering(nm) && Smooth(nm, w)
    requires NoFault(nm, w, a) && StartsInTime(w, a) && Next(nm, w, a) == Some(w')
    ensures Smooth(nm, w')
  {
    NextKeepsInv(nm, w, a, w');
    match a
    case Launch(n) => LaunchKeepsSmooth(nm, w, n, w');
    case Exec(i, fate, contact) =>
      NothingIsRefused(nm, w, i);
      DoneKeepsSmooth(nm, w, i, contact, w');
    case _ =>
  }

  lemma LaunchKeepsSmooth(nm: Naming, w: World, n: Node, w': World)
    requires Smooth(nm, w) && Idle(w, n) && Next(nm, w, Launch(n)) == Some(w') && Inv(nm, w')
    ensures Smooth(nm, w')
  {
    forall i | 0 <= i < |w'.runs| ensures SmoothRun(w', w'.runs[i]) {
      assert i < |w.runs| ==> w'.runs[i] == w.runs[i] && SmoothRun(w, w.runs[i]);
    }
    forall m | m in w'.dbs && Idle(w', m) ensures !w'.dbs[m].replUser {
      assert forall i :: 0 <= i < |w.runs| ==> w'.runs[i] == w.runs[i];
      assert Idle(w, m);
    }
  }

  lemma DoneKeepsSmooth(nm: Naming, w: World, i: nat, contact: Node, w': World)
    requires Smooth(nm, w) && Next(nm, w, Exec(i, Done, contact)) == Some(w') && Inv(nm, w')
    ensures Smooth(nm, w')
  {
    var r := w.runs[i];
    var n := r.node;
    ProgramFits(nm, n, r.phase.pc);
    var s := Program(nm, n)[r.phase.pc];
    PerformFrame(w, i, s, Done, contact, w');
    assert SmoothRun(w, r);
    UserUntouched(nm, w, i, s, contact, w');
    forall j | 0 <= j < |w'.runs| ensures SmoothRun(w', w'.runs[j]) && w'.runs[j].node == w.runs[j].node {
      assert SmoothRun(w, w.runs[j]);
      assert j != i ==> w'.runs[j] == w.runs[j];
    }
    forall m | m in w'.dbs && Idle(w', m) ensures !w'.dbs[m].replUser {
      assert w'.runs[i].node == n && m != n;
      assert Idle(w, m);
    }
  }

  lemma UserUntouched(nm: Naming, w: World, i: nat, s: Statement, contact: Node, w': World)
    requires i < |w.runs| && SmoothRun(w, w.runs[i]) && w.runs[i].phase.Attempt?
    requires Fits(nm, w.runs[i].node, w.runs[i].phase.pc, s) && Perform(w, i, s, Done, contact) == Some(w')
    ensures SmoothRun(w', w'.runs[i])
  {
    PerformFrame(w, i, s, Done, contact, w');
  }

  lemma {:induction false} AfterKeepsSmooth(nm: Naming, w: World, actions: seq<Action>, w': World)
    requires Isolating(nm) && Covering(nm) && Smooth(nm, w)
    requires Faultless(nm, w, actions) && AllStartInTime(nm, w, actions) && After(nm, w, actions) == Some(w')
    ensures Smooth(nm, w')
    decreases |actions|
  {
    if actions != [] {
      var w1 := Next(nm, w, actions[0]).value;
      NextKeepsSmooth(nm, w, actions[0], w1);
      AfterKeepsSmooth(nm, w1, actions[1..], w');
    }
  }

  // ---- the race ----

  ghost predicate AllNil(w: World) {
    forall i :: 0 <= i < |w.runs| ==> w.runs[i].phase == Returned(true)
  }

  /** A run whose node started too early has not returned nil in the end. */
  lemma {:induction false} LateStartersFail(c: Cluster, w: World, before: seq<Action>, actions: seq<Action>, w': World)
    requires WellNamed(c) && Reachable(NamingOf(c), w, before)
    requires After(NamingOf(c), w, actions) == Some(w') && !AllStartInTime(NamingOf(c), w, actions)
    ensures !AllNil(w')
    decreases |actions|
  {
    var nm := NamingOf(c);
    var a, w1 := actions[0], Next(NamingOf(c), w, actions[0]).value;
    if StartsInTime(w, a) {
      AfterConcat(nm, FreshWorld(nm), before, [a]);
      assert [a][1..] == [];
      LateStartersFail(c, w1, before + [a], actions[1..], w');
    } else {
      var n := w.runs[a.run].node;
      EarlyStartIsFatal(c, w, before, a.run, a.fate, a.contact, w1, actions[1..]);
      PerformFrame(w, a.run, Program(nm, n)[StartAt(n)], a.fate, a.contact, w1);
      RunsStay(nm, w1, actions[1..], w', a.run);
    }
  }

  lemma {:induction false} RunsStay(nm: Naming, w: World, actions: seq<Action>, w': World, i: nat)
    requires After(nm, w, actions) == Some(w') && i < |w.runs|
    ensures i < |w'.runs| && w'.runs[i].node == w.runs[i].node
    decreases |actions|
  {
    if actions != [] {
      var w1 := Next(nm, w, actions[0]).value;
      OneRunStays(nm, w, actions[0], w1, i);
      RunsStay(nm, w1, actions[1..], w', i);
    }
  }

  lemma OneRunStays(nm: Naming, w: World, a: Action, w': World, i: nat)
    requires Next(nm, w, a) == Some(w') && i < |w.runs|
    ensures i < |w'.runs| && w'.runs[i].node == w.runs[i].node
  {
    if a.Exec? {
      var r := w.runs[a.run];
      PerformFrame(w, a.run, Program(nm, r.node)[r.phase.pc], a.fate, a.contact, w');
    }
  }

  /** An `init` in which no server, process or connection fails, run to its end: all its runs return nil if and
      only if every secondary came to its START when its shard had a member already. */
  lemma InitSucceedsIff(c: Cluster, schedule: seq<Action>, w: World)
    requires WellNamed(c) && Reachable(NamingOf(c), w, schedule)
    requires Faultless(NamingOf(c), FreshWorld(NamingOf(c)), schedule)
    requires forall i :: 0 <= i < |w.runs| ==> w.runs[i].phase.Returned?
    ensures AllNil(w) <==> AllStartInTime(NamingOf(c), FreshWorld(NamingOf(c)), schedule)
  {
    var nm := NamingOf(c);
    DerivedNamingIsolates(c);
    DerivedNamingCovers(c);
    FreshInv(nm);
    if AllStartInTime(nm, FreshWorld(nm), schedule) {
      AfterKeepsSmooth(nm, FreshWorld(nm), schedule, w);
      assert forall i :: 0 <= i < |w.runs| ==> SmoothRun(w, w.runs[i]);
    } else {
      LateStartersFail(c, FreshWorld(nm), [], schedule, w);
    }
  }

  // ---- both ends of the race can be reached ----

  lemma {:induction false} FaultlessConcat(nm: Naming, w: World, first: seq<Action>, second: seq<Action>)
    requires After(nm, w, first).Some? && Faultless(nm, w, first)
    requires Faultless(nm, After(nm, w, first).value, second)
    ensures Faultless(nm, w, first + second)
    ensures AllStartInTime(nm, w, first) && AllStartInTime(nm, After(nm, w, first).value, second) ==>
              AllStartInTime(nm, w, first + second)
    decreases |first|
  {
    if first == [] {
      assert first + second == second;
    } else {
      assert (first + second)[1..] == first[1..] + second;
      FaultlessConcat(nm, Next(nm, w, first[0]).value, first[1..], second);
    }
  }

  /** The schedule leads from `w` to `w'` without a fault, and every secondary starts in time. */
  ghost predicate Smoothly(nm: Naming, w: World, later: seq<Action>, w': World) {
    After(nm, w, later) == Some(w') && Faultless(nm, w, later) && AllStartInTime(nm, w, later) && Smooth(nm, w')
  }

  lemma SmoothlyConcat(nm: Naming, w: World, first: seq<Action>, w1: World, second: seq<Action>, w2: World)
    requires Smoothly(nm, w, first, w1) && Smoothly(nm, w1, second, w2)
    ensures Smoothly(nm, w, first + second, w2)
  {
    AfterConcat(nm, w, first, second);
    FaultlessConcat(nm, w, first, second);
  }

  lemma SmoothlyOne(nm: Naming, w: World, a: Action, w': World)
    requires Next(nm, w, a) == Some(w') && NoFault(nm, w, a) && StartsInTime(w, a) && Smooth(nm, w')
    ensures Smoothly(nm, w, [a], w')
  {
    assert [a][1..] == [];
  }

  /** What one run leaves alone: the other nodes, and every membership. */
  predicate OnlyJoins(w: World, i: nat, w': World)
    requires i < |w.runs|
  {
    OnlyRun(w, i, w') && (w.dbs[w.runs[i].node].member.In? ==> w'.dbs[w.runs[i].node].member.In?)
  }

  /** A run in a smooth world can take its next step. */
  lemma SmoothStep(nm: Naming, w: World, i: nat) returns (a: Action, w': World)
    requires Isolating(nm) && Covering(nm) && Smooth(nm, w) && i < |w.runs| && w.runs[i].phase.Attempt?
    requires AtSecondaryStart(w, i) ==> ShardHasMember(w, w.runs[i].node.shard)
    ensures Next(nm, w, a) == Some(w') && Smoothly(nm, w, [a], w')
    ensures OnlyJoins(w, i, w') && w'.runs[i] == Advance(w.runs[i])
    ensures w.runs[i].phase.pc == StartAt(w.runs[i].node) ==> w'.dbs[w.runs[i].node].member.In?
  {
    var r := w.runs[i];
    var n := r.node;
    assert SmoothRun(w, r) && RunInv(nm, r, w.dbs[n]);
    NothingIsRefused(nm, w, i);
    ProgramFits(nm, n, 0);
    ProgramFits(nm, n, r.phase.pc);
    var s := Program(nm, n)[r.phase.pc];
    var contact :| Perform(w, i, s, Done, contact).Some?;
    a := Exec(i, Done, contact);
    w' := Next(nm, w, a).value;
    NextKeepsSmooth(nm, w, a, w');
    SmoothlyOne(nm, w, a, w');
    PerformFrame(w, i, s, Done, contact, w');
    MembersStay(nm, w, i, s, contact, w');
  }

  lemma MembersStay(nm: Naming, w: World, i: nat, s: Statement, contact: Node, w': World)
    requires i < |w.runs| && w.runs[i].node in w.dbs && w.runs[i].phase.Attempt?
    requires RunInv(nm, w.runs[i], w.dbs[w.runs[i].node]) && Fits(nm, w.runs[i].node, w.runs[i].phase.pc, s)
    requires Perform(w, i, s, Done, contact) == Some(w')
    ensures var n := w.runs[i].node;
            n in w'.dbs && (s.StartGroupReplication? || w.dbs[n].member.In? ==> w'.dbs[n].member.In?)
  {
  }

  /** It can go on to any later program point, or to its end at `pc == Length(n)`. */
  lemma {:induction false} SmoothRunTo(nm: Naming, w: World, i: nat, pc: nat) returns (later: seq<Action>, w': World)
    requires Isolating(nm) && Covering(nm) && Smooth(nm, w) && i < |w.runs| && w.runs[i].phase.Attempt?
    requires w.runs[i].phase.pc <= pc <= Length(w.runs[i].node)
    requires var n := w.runs[i].node; n.rep == 0 || pc <= StartAt(n) || ShardHasMember(w, n.shard)
    ensures Smoothly(nm, w, later, w') && OnlyJoins(w, i, w')
    ensures w'.runs[i].phase == if pc == Length(w.runs[i].node) then Returned(true) else Attempt(pc)
    ensures var n := w.runs[i].node; w.runs[i].phase.pc <= StartAt(n) < pc ==> w'.dbs[n].member.In?
    decreases Length(w.runs[i].node) - w.runs[i].phase.pc
  {
    PointInRange(nm, w, i);
    if w.runs[i].phase.pc == pc {
      later, w' := [], w;
    } else {
      var a, w1 := SmoothStep(nm, w, i);
      if w1.runs[i].phase.Attempt? {
        StillHasMember(w, i, w1, w.runs[i].node.shard);
        var rest, w2 := SmoothRunTo(nm, w1, i, pc);
        SmoothlyConcat(nm, w, [a], w1, rest, w2);
        OnlyJoinsTwice(w, i, w1, w2);
        later, w' := [a] + rest, w2;
      } else {
        later, w' := [a], w1;
      }
    }
  }

  lemma PointInRange(nm: Naming, w: World, i: nat)
    requires Smooth(nm, w) && i < |w.runs|
    ensures OnlyJoins(w, i, w) && (w.runs[i].phase.Attempt? ==> w.runs[i].phase.pc < Length(w.runs[i].node))
  {
    assert SmoothRun(w, w.runs[i]) && RunInv(nm, w.runs[i], w.dbs[w.runs[i].node]);
  }

  lemma OnlyJoinsTwice(w: World, i: nat, w1: World, w2: World)
    requires i < |w.runs| && OnlyJoins(w, i, w1) && OnlyJoins(w1, i, w2)
    ensures OnlyJoins(w, i, w2)
  {
    var n := w.runs[i].node;
    assert w.dbs[n := w1.dbs[n]][n := w2.dbs[n]] == w.dbs[n := w2.dbs[n]];
    assert w.runs[i := w1.runs[i]][i := w2.runs[i]] == w.runs[i := w2.runs[i]];
  }

  lemma StillHasMember(w: World, i: nat, w': World, shard: nat)
    requires i < |w.runs| && OnlyJoins(w, i, w')
    ensures ShardHasMember(w, shard) ==> ShardHasMember(w', shard)
  {
    if m :| m in w.dbs && m.shard == shard && w.dbs[m].member.In? {
      assert m in w'.dbs && w'.dbs[m].member.In?;
    }
  }

  lemma SmoothLaunch(nm: Naming, w: World, n: Node) returns (w': World)
    requires Isolating(nm) && Smooth(nm, w) && n in w.dbs && Idle(w, n)
    ensures Smoothly(nm, w, [Launch(n)], w') && w' == w.(runs := w.runs + [Run(n, NUM_RETRIES - 1, Attempt(0))])
  {
    w' := Next(nm, w, Launch(n)).value;
    NextKeepsInv(nm, w, Launch(n), w');
    LaunchKeepsSmooth(nm, w, n, w');
    SmoothlyOne(nm, w, Launch(n), w');
  }

  lemma FreshIsSmooth(nm: Naming)
    ensures Smooth(nm, FreshWorld(nm))
  {
    FreshInv(nm);
  }

  /** Any secondary can lose the race: a schedule without a fault after which it never returns nil. */
  lemma SecondaryCanBeLost(c: Cluster, n: Node) returns (schedule: seq<Action>, w: World)
    requires WellNamed(c) && InCluster(c, n) && n.rep != 0
    ensures Reachable(NamingOf(c), w, schedule) && Faultless(NamingOf(c), FreshWorld(NamingOf(c)), schedule)
    ensures !CanReturnNil(NamingOf(c), w, n)
  {
    var nm := NamingOf(c);
    DerivedNamingIsolates(c);
    DerivedNamingCovers(c);
    var before, w2 := ComesToItsStart(nm, n);
    w := RefusedStart(nm, w2, n);
    var a := Exec(0, Refused, n);
    assert [a][1..] == [];
    FaultlessConcat(nm, FreshWorld(nm), before, [a]);
    AfterConcat(nm, FreshWorld(nm), before, [a]);
    schedule := before + [a];
    LostForGood(c, w2, before, 0, Refused, n, w);
  }

  lemma LostForGood(c: Cluster, w: World, before: seq<Action>, i: nat, fate: Fate, contact: Node, w': World)
    requires WellNamed(c) && Reachable(NamingOf(c), w, before)
    requires AtSecondaryStart(w, i) && !ShardHasMember(w, w.runs[i].node.shard)
    requires Next(NamingOf(c), w, Exec(i, fate, contact)) == Some(w')
    ensures !CanReturnNil(NamingOf(c), w', w.runs[i].node)
  {
    var nm, n := NamingOf(c), w.runs[i].node;
    forall later | After(nm, w', later).Some? ensures !HasReturnedNil(After(nm, w', later).value, n) {
      EarlyStartIsFatal(c, w, before, i, fate, contact, w', later);
    }
  }

  lemma ComesToItsStart(nm: Naming, n: Node) returns (before: seq<Action>, w: World)
    requires Isolating(nm) && Covering(nm) && n in nm.nodes && n.rep != 0
    ensures Smoothly(nm, FreshWorld(nm), before, w)
    ensures |w.runs| == 1 && w.runs[0].node == n && n in w.dbs && AtSecondaryStart(w, 0)
    ensures !ShardHasMember(w, n.shard)
  {
    FreshIsSmooth(nm);
    var w1 := SmoothLaunch(nm, FreshWorld(nm), n);
    var rest, w2 := SmoothRunTo(nm, w1, 0, StartAt(n));
    SmoothlyConcat(nm, FreshWorld(nm), [Launch(n)], w1, rest, w2);
    before, w := [Launch(n)] + rest, w2;
    assert RunInv(nm, w2.runs[0], w2.dbs[n]);
  }

  lemma RefusedStart(nm: Naming, w: World, n: Node) returns (w': World)
    requires Isolating(nm) && Inv(nm, w) && AtSecondaryStart(w, 0) && w.runs[0].node == n && n in w.dbs
    requires !ShardHasMember(w, n.shard)
    ensures Next(nm, w, Exec(0, Refused, n)) == Some(w') && NoFault(nm, w, Exec(0, Refused, n))
    ensures Faultless(nm, w, [Exec(0, Refused, n)])
  {
    ProgramFits(nm, n, 0);
    ProgramFits(nm, n, StartAt(n));
    w' := Next(nm, w, Exec(0, Refused, n)).value;
    forall contact ensures Perform(w, 0, Program(nm, n)[StartAt(n)], Done, contact).None? {
      if Next(nm, w, Exec(0, Done, contact)).Some? {
        EarlyStartIsRefused(nm, w, 0, Done, contact);
      }
    }
    assert [Exec(0, Refused, n)][1..] == [];
  }

  /** The nodes of `done`, and no other, have been launched, and each of them is a member and has returned nil. */
  ghost predicate Finished(nm: Naming, w: World, done: set<Node>) {
    && Smooth(nm, w) && AllNil(w) && done <= nm.nodes
    && (forall n :: n in nm.nodes ==> (n in done <==> !Idle(w, n)))
    && (forall n :: n in done ==> w.dbs[n].member.In?)
  }

  lemma OneMoreFinishes(nm: Naming, w: World, done: set<Node>, n: Node) returns (later: seq<Action>, w': World)
    requires Isolating(nm) && Covering(nm) && Finished(nm, w, done) && n in nm.nodes - done
    requires n.rep == 0 || Node(0, n.shard) in done
    ensures Smoothly(nm, w, later, w') && Finished(nm, w', done + {n})
  {
    assert n.rep != 0 ==> w.dbs[Node(0, n.shard)].member.In?;
    later, w' := LaunchAndFinish(nm, w, n);
    FinishedGrows(nm, w, done, n, w');
  }

  lemma LaunchAndFinish(nm: Naming, w: World, n: Node) returns (later: seq<Action>, w': World)
    requires Isolating(nm) && Covering(nm) && Smooth(nm, w) && n in w.dbs && Idle(w, n)
    requires n.rep == 0 || ShardHasMember(w, n.shard)
    ensures Smoothly(nm, w, later, w')
    ensures n in w'.dbs && w'.dbs == w.dbs[n := w'.dbs[n]] && w'.dbs[n].member.In?
    ensures |w'.runs| == |w.runs| + 1 && w'.runs[..|w.runs|] == w.runs
    ensures w'.runs[|w.runs|].node == n && w'.runs[|w.runs|].phase == Returned(true)
  {
    var w1 := SmoothLaunch(nm, w, n);
    assert ShardHasMember(w, n.shard) ==> ShardHasMember(w1, n.shard);
    var rest, w2 := SmoothRunTo(nm, w1, |w.runs|, Length(n));
    SmoothlyConcat(nm, w, [Launch(n)], w1, rest, w2);
    later, w' := [Launch(n)] + rest, w2;
  }

  lemma FinishedGrows(nm: Naming, w: World, done: set<Node>, n: Node, w': World)
    requires Finished(nm, w, done) && n in nm.nodes && n in w'.dbs && w'.dbs == w.dbs[n := w'.dbs[n]]
    requires Smooth(nm, w') && w'.dbs[n].member.In?
    requires |w'.runs| == |w.runs| + 1 && w'.runs[..|w.runs|] == w.runs
    requires w'.runs[|w.runs|].node == n && w'.runs[|w.runs|].phase == Returned(true)
    ensures Finished(nm, w', done + {n})
  {
    forall m | m in nm.nodes ensures m in done + {n} <==> !Idle(w', m) {
      IdleGrows(w, w', n, m);
    }
    forall i | 0 <= i < |w'.runs| ensures w'.runs[i].phase == Returned(true) {
      assert i < |w.runs| ==> w'.runs[i] == w'.runs[..|w.runs|][i];
    }
  }

  lemma IdleGrows(w: World, w': World, n: Node, m: Node)
    requires |w'.runs| == |w.runs| + 1 && w'.runs[..|w.runs|] == w.runs && w'.runs[|w.runs|].node == n
    ensures Idle(w', m) <==> Idle(w, m) && m != n
  {
    assert forall i :: 0 <= i < |w.runs| ==> w'.runs[i] == w'.runs[..|w.runs|][i];
  }

  lemma RestFinishes(nm: Naming, w: World, done: set<Node>) returns (later: seq<Action>, w': World)
    requires Isolating(nm) && Covering(nm) && Finished(nm, w, done)
    ensures Smoothly(nm, w, later, w') && Finished(nm, w', nm.nodes)
    decreases nm.nodes - done
  {
    if done == nm.nodes {
      later, w' := [], w;
    } else {
      var n := AnyMissing(nm.nodes, done);
      if Node(0, n.shard) !in done {
        n := Node(0, n.shard);
      }
      var first, w1 := OneMoreFinishes(nm, w, done, n);
      var second, w2 := RestFinishes(nm, w1, done + {n});
      SmoothlyConcat(nm, w, first, w1, second, w2);
      later, w' := first + second, w2;
    }
  }

  /** And `init` can win it: a schedule without a fault that launches every node, on which all runs return nil
      and all nodes are members. */
  lemma InitCanRunSmoothly(c: Cluster) returns (schedule: seq<Action>, w: World)
    requires WellNamed(c)
    ensures Reachable(NamingOf(c), w, schedule) && Faultless(NamingOf(c), FreshWorld(NamingOf(c)), schedule)
    ensures AllStartInTime(NamingOf(c), FreshWorld(NamingOf(c)), schedule) && AllNil(w)
    ensures forall n :: InCluster(c, n) ==> !Idle(w, n) && n in w.dbs && w.dbs[n].member.In?
  {
    var nm := NamingOf(c);
    DerivedNamingIsolates(c);
    DerivedNamingCovers(c);
    FreshIsSmooth(nm);
    schedule, w := RestFinishes(nm, FreshWorld(nm), {});
    assert forall n :: InCluster(c, n) ==> n in nm.nodes;
  }
}
