/** StartSQLContainers and JoinGroupReplication as the code runs them: statement by statement, with a
    retry counter. Whatever the servers answer, what they do is a schedule of the protocol. */
module SqlStartup {
  import opened Text
  import opened SqlNode
  import opened GroupReplication
  import opened JoinProspects

  /** How the servers answer: the fate of each statement, per attempt, and the peer a START reaches. */
  datatype Answers = Answers(fate: (nat, nat) -> Fate, contact: (nat, nat) -> Node)

  const SECONDARY := [StopGroupReplication, ResetBinaryLogs, ResetReplica, ChangeSource]

  /** The program, list by list. */
  lemma ProgramParts(nm: Naming, n: Node)
    ensures |Program(nm, n)| == Length(n) == StartAt(n) + 4 && |CommonStatements(nm, n)| == 19
    ensures forall k :: 0 <= k < 19 ==> Program(nm, n)[k] == CommonStatements(nm, n)[k]
    ensures n.rep == 0 ==> Program(nm, n)[19] == SetBootstrap(true)
    ensures n.rep != 0 ==> forall k :: 0 <= k < 4 ==> Program(nm, n)[19 + k] == SECONDARY[k]
    ensures forall k :: 0 <= k < 2 ==> Program(nm, n)[StartAt(n) + k] == FinalStatements()[k]
    ensures Program(nm, n)[StartAt(n) + 2] == QueryMembers && Program(nm, n)[StartAt(n) + 3] == ScanMembers
  {
  }

  // ---- when an attempt gets through ----

  /** The server refuses statement `pc` of an attempt that began in world `w`. */
  ghost predicate Refuses(nm: Naming, w: World, n: Node, pc: nat, contact: Node)
    requires n in w.dbs
  {
    (pc == CREATE_USER_AT && w.dbs[n].replUser) || (pc == StartAt(n) && !CanStart(nm, w, n, contact))
  }

  /** A replica 0 is not a member; a secondary has a contact that is one, listed in its seeds and of its group
      name, unless its server has the bootstrap flag on. */
  ghost predicate CanStart(nm: Naming, w: World, n: Node, contact: Node)
    requires n in w.dbs
  {
    if n.rep == 0 then !w.dbs[n].member.In?
    else w.dbs[n].bootstrap
         || (contact in w.dbs && contact != n && w.dbs[contact].member.In?
             && w.dbs[contact].groupName == nm.groupName
             && w.dbs[contact].localAddress in Split(nm.seeds(n), ','))
  }

  /** The attempt does not get past statement `pc`, if it gets there. */
  ghost predicate Stops(nm: Naming, w: World, n: Node, answers: Answers, attempt: nat, pc: nat)
    requires n in w.dbs
  {
    !answers.fate(attempt, pc).Done? || Refuses(nm, w, n, pc, answers.contact(attempt, pc))
  }

  /** The attempt gets to statement `pc`. */
  ghost predicate NoStop(nm: Naming, w: World, n: Node, answers: Answers, attempt: nat, pc: nat)
    requires n in w.dbs
  {
    forall k :: 0 <= k < pc ==> !Stops(nm, w, n, answers, attempt, k)
  }

  lemma NoStopYet(nm: Naming, w: World, n: Node, answers: Answers, attempt: nat, pc: nat)
    requires n in w.dbs && NoStop(nm, w, n, answers, attempt, pc)
    ensures NoStop(nm, w, n, answers, attempt, pc + 1) <==> !Stops(nm, w, n, answers, attempt, pc)
  {
  }

  lemma StopsAtOne(nm: Naming, w: World, n: Node, answers: Answers, attempt: nat, pc: nat, to: nat)
    requires n in w.dbs && pc < to && Stops(nm, w, n, answers, attempt, pc)
    ensures !NoStop(nm, w, n, answers, attempt, to)
  {
  }

  lemma NoStopAfterwards(nm: Naming, w: World, n: Node, answers: Answers, attempt: nat, pc: nat, to: nat)
    requires n in w.dbs && pc <= to && !NoStop(nm, w, n, answers, attempt, pc)
    ensures !NoStop(nm, w, n, answers, attempt, to)
  {
  }

  /** Every statement is answered `Done`, and the server refuses none. */
  ghost predicate GetsThrough(nm: Naming, w: World, n: Node, answers: Answers, attempt: nat)
    requires n in w.dbs
  {
    NoStop(nm, w, n, answers, attempt, Length(n))
  }

  /** The attempt fails and has not created the replication user. */
  ghost predicate StopsEarly(answers: Answers, attempt: nat) {
    (exists pc :: 0 <= pc < CREATE_USER_AT && !answers.fate(attempt, pc).Done?)
    || answers.fate(attempt, CREATE_USER_AT).Refused?
  }

  /** What an attempt that is about to execute statement `pc` has made of its server. */
  predicate DbProgressed(nm: Naming, before: Db, db: Db, n: Node, pc: nat) {
    && (pc <= CREATE_USER_AT ==> db.replUser == before.replUser)
    && (pc > CREATE_USER_AT ==> db.replUser)
    && (pc <= ROLE_AT ==> db.member == before.member && db.bootstrap == before.bootstrap)
    && (pc > SET_NAME_AT ==> db.groupName == nm.groupName)
    && (pc > SET_SEEDS_AT ==> db.seeds == nm.seeds(n))
    && (n.rep == 0 && ROLE_AT < pc <= StartAt(n) ==> db.member == before.member && db.bootstrap)
    && (n.rep != 0 && ROLE_AT < pc <= StartAt(n) ==> !db.member.In? && db.bootstrap == before.bootstrap)
  }

  /** `v` is what an attempt that began in `w` and is about to execute statement `pc` has made of it. */
  ghost predicate Progressed(nm: Naming, w: World, v: World, n: Node, pc: nat) {
    && n in w.dbs && n in v.dbs && v.dbs.Keys == w.dbs.Keys
    && (forall m :: m in w.dbs && m != n ==> v.dbs[m] == w.dbs[m])
    && DbProgressed(nm, w.dbs[n], v.dbs[n], n, pc)
  }

  /** What a failed attempt leaves: either nothing that matters to the next one, or the replication user. */
  ghost predicate Leaves(nm: Naming, w: World, v: World, n: Node, answers: Answers, attempt: nat) {
    if StopsEarly(answers, attempt) then Progressed(nm, w, v, n, 0) else n in v.dbs && v.dbs[n].replUser
  }

  lemma RefusalIsForeseen(nm: Naming, w: World, v: World, i: nat, n: Node, pc: nat, s: Statement, fate: Fate,
                           contact: Node)
    requires Progressed(nm, w, v, n, pc) && Fits(nm, n, pc, s)
    requires i < |v.runs| && v.runs[i].node == n && v.runs[i].phase.Attempt? && !fate.Refused?
    ensures Perform(v, i, s, fate, contact).None? <==> Refuses(nm, w, n, pc, contact)
  {
    var counted := CountStart(v, n, s);
    assert contact in counted.dbs && contact != n ==> counted.dbs[contact] == v.dbs[contact];
    assert s.StartGroupReplication? && n.rep != 0 && contact == n ==> !counted.dbs[contact].member.In?;
  }

  lemma ProgressGoesOn(nm: Naming, w: World, v: World, i: nat, n: Node, pc: nat, s: Statement, contact: Node, v': World)
    requires Progressed(nm, w, v, n, pc) && Fits(nm, n, pc, s)
    requires i < |v.runs| && v.runs[i].node == n && v.runs[i].phase.Attempt?
    requires Perform(v, i, s, Done, contact) == Some(v')
    ensures Progressed(nm, w, v', n, pc + 1)
  {
    PerformFrame(v, i, s, Done, contact, v');
    if pc < ROLE_AT {
      CommonGoesOn(nm, w.dbs[n], v, i, n, pc, s, contact, v');
    } else if pc < StartAt(n) {
      RoleGoesOn(nm, w.dbs[n], v, i, n, pc, s, contact, v');
    } else {
      assert DbProgressed(nm, w.dbs[n], v'.dbs[n], n, pc + 1);
    }
  }

  lemma CommonGoesOn(nm: Naming, before: Db, v: World, i: nat, n: Node, pc: nat, s: Statement, contact: Node, v': World)
    requires n in v.dbs && DbProgressed(nm, before, v.dbs[n], n, pc) && Fits(nm, n, pc, s) && pc < ROLE_AT
    requires i < |v.runs| && v.runs[i].node == n && v.runs[i].phase.Attempt?
    requires Perform(v, i, s, Done, contact) == Some(v')
    ensures n in v'.dbs && DbProgressed(nm, before, v'.dbs[n], n, pc + 1)
  {
  }

  lemma RoleGoesOn(nm: Naming, before: Db, v: World, i: nat, n: Node, pc: nat, s: Statement, contact: Node, v': World)
    requires n in v.dbs && DbProgressed(nm, before, v.dbs[n], n, pc) && Fits(nm, n, pc, s) && ROLE_AT <= pc < StartAt(n)
    requires i < |v.runs| && v.runs[i].node == n && v.runs[i].phase.Attempt?
    requires Perform(v, i, s, Done, contact) == Some(v')
    ensures n in v'.dbs && DbProgressed(nm, before, v'.dbs[n], n, pc + 1)
  {
  }

  lemma FailureLeaves(nm: Naming, w: World, v: World, i: nat, n: Node, pc: nat, s: Statement, fate: Fate, contact: Node,
                      v': World)
    requires Progressed(nm, w, v, n, pc) && Fits(nm, n, pc, s)
    requires i < |v.runs| && v.runs[i].node == n && v.runs[i].phase.Attempt? && !fate.Done?
    requires Perform(v, i, s, fate, contact) == Some(v')
    ensures pc < CREATE_USER_AT || (pc == CREATE_USER_AT && fate.Refused?) ==> Progressed(nm, w, v', n, 0)
    ensures pc > CREATE_USER_AT || (pc == CREATE_USER_AT && (fate.Lost? || w.dbs[n].replUser)) ==>
              n in v'.dbs && v'.dbs[n].replUser
  {
    PerformFrame(v, i, s, fate, contact, v');
  }

  class Operator {
    const nm: Naming
    var world: World

    constructor (nm: Naming, world: World)
      ensures this.nm == nm && this.world == world
    {
      this.nm := nm;
      this.world := world;
    }

    /** Run `i` is about to execute statement `pc`, after the actions of `trace` since `start`. */
    ghost predicate At(start: World, trace: seq<Action>, i: nat, n: Node, pc: nat)
      reads this
    {
      && After(nm, start, trace) == Some(world)
      && i < |world.runs| && n in world.dbs && world.runs[i].node == n && world.runs[i].phase == Attempt(pc)
    }

    /** The attempt of run `i` has failed, after the actions of `trace` since `start`. */
    ghost predicate Failed(start: World, trace: seq<Action>, i: nat, n: Node, retries: nat)
      reads this
    {
      && After(nm, start, trace) == Some(world)
      && i < |world.runs| && n in world.dbs && world.runs[i] == Fail(Run(n, retries, Attempt(0)))
    }

    /** The attempt that began in world `base` has come to statement `pc`. */
    ghost predicate Underway(base: World, start: World, trace: seq<Action>, i: nat, n: Node, pc: nat, answers: Answers,
                             attempt: nat)
      reads this
    {
      && At(start, trace, i, n, pc) && Progressed(nm, base, world, n, pc) && NoStop(nm, base, n, answers, attempt, pc)
    }

    /** It has failed. */
    ghost predicate GaveUp(base: World, start: World, trace: seq<Action>, i: nat, n: Node, retries: nat,
                           answers: Answers, attempt: nat)
      reads this
    {
      Failed(start, trace, i, n, retries) && Leaves(nm, base, world, n, answers, attempt)
    }

    /** `db.Exec`: the statement is carried out as far as the server allows. */
    method Exec(ghost start: World, ghost trace: seq<Action>, i: nat, n: Node, pc: nat, s: Statement,
                fate: Fate, contact: Node)
      returns (err: bool, ghost trace': seq<Action>)
      requires At(start, trace, i, n, pc)
      requires pc < |Program(nm, n)| && Program(nm, n)[pc] == s
      modifies this
      ensures err <==> !fate.Done? || Perform(old(world), i, s, fate, contact).None?
      ensures var answer := if Perform(old(world), i, s, fate, contact).Some? then fate else Refused;
              Some(world) == Perform(old(world), i, s, answer, contact)
      ensures |world.runs| == |old(world).runs| && world.runs[i].retries == old(world).runs[i].retries
      ensures err ==> Failed(start, trace', i, n, old(world).runs[i].retries)
      ensures !err && pc + 1 < |Program(nm, n)| ==> At(start, trace', i, n, pc + 1)
      ensures !err && pc + 1 == |Program(nm, n)| ==>
                After(nm, start, trace') == Some(world) && world.runs[i].node == n && n in world.dbs
                && world.runs[i].phase == Returned(true)
    {
      var before := world;
      ProgramFits(nm, n, pc);
      var answer := if Perform(world, i, s, fate, contact).Some? then fate else Refused;
      PerformFrame(before, i, s, answer, contact, Perform(before, i, s, answer, contact).value);
      world := Perform(world, i, s, answer, contact).value;
      err := !answer.Done?;
      trace' := trace + [GroupReplication.Exec(i, answer, contact)];
      AfterConcat(nm, start, trace, [GroupReplication.Exec(i, answer, contact)]);
      AfterOne(nm, before, GroupReplication.Exec(i, answer, contact));
    }

    /** One statement of an attempt that began in world `base`. */
    method ExecNext(ghost base: World, ghost start: World, ghost trace: seq<Action>, i: nat, n: Node, pc: nat,
                    s: Statement, attempt: nat, answers: Answers)
      returns (err: bool, ghost trace': seq<Action>)
      requires Underway(base, start, trace, i, n, pc, answers, attempt)
      requires pc < |Program(nm, n)| && Program(nm, n)[pc] == s
      modifies this
      ensures err <==> Stops(nm, base, n, answers, attempt, pc)
      ensures |world.runs| == |old(world).runs| && world.runs[i].retries == old(world).runs[i].retries
      ensures err ==> GaveUp(base, start, trace', i, n, old(world).runs[i].retries, answers, attempt)
      ensures !err ==> NoStop(nm, base, n, answers, attempt, pc + 1)
      ensures !err && pc + 1 < |Program(nm, n)| ==> Underway(base, start, trace', i, n, pc + 1, answers, attempt)
      ensures !err && pc + 1 == |Program(nm, n)| ==>
                After(nm, start, trace') == Some(world) && world.runs[i].node == n && n in world.dbs
                && world.runs[i].phase == Returned(true)
    {
      ProgramFits(nm, n, pc);
      NoStopYet(nm, base, n, answers, attempt, pc);
      var fate, contact := answers.fate(attempt, pc), answers.contact(attempt, pc);
      ghost var before := world;
      if !fate.Refused? {
        RefusalIsForeseen(nm, base, world, i, n, pc, s, fate, contact);
      }
      err, trace' := Exec(start, trace, i, n, pc, s, fate, contact);
      if err {
        ghost var answer := if Perform(before, i, s, fate, contact).Some? then fate else Refused;
        FailureLeaves(nm, base, before, i, n, pc, s, answer, contact, world);
        EarlyOrLate(nm, base, n, answers, attempt, pc, answer);
      } else {
        ProgressGoesOn(nm, base, before, i, n, pc, s, contact, world);
      }
    }

    /** A list of statements, up to the first that is not answered `Done` or that the server refuses. */
    method ExecAll(ghost base: World, ghost start: World, ghost trace: seq<Action>, i: nat, n: Node, from: nat,
                   queries: seq<Statement>, attempt: nat, answers: Answers)
      returns (err: bool, ghost trace': seq<Action>)
      requires Underway(base, start, trace, i, n, from, answers, attempt)
      requires from + |queries| < |Program(nm, n)|
      requires forall k :: 0 <= k < |queries| ==> Program(nm, n)[from + k] == queries[k]
      modifies this
      ensures !err <==> NoStop(nm, base, n, answers, attempt, from + |queries|)
      ensures |world.runs| == |old(world).runs| && world.runs[i].retries == old(world).runs[i].retries
      ensures err ==> GaveUp(base, start, trace', i, n, old(world).runs[i].retries, answers, attempt)
      ensures !err ==> Underway(base, start, trace', i, n, from + |queries|, answers, attempt)
    {
      trace' := trace;
      var pc := from;
      for k := 0 to |queries|
        invariant pc == from + k
        invariant |world.runs| == |old(world).runs| && Underway(base, start, trace', i, n, pc, answers, attempt)
        invariant world.runs[i].retries == old(world).runs[i].retries
      {
        assert Program(nm, n)[from + k] == queries[k];
        err, trace' := ExecNext(base, start, trace', i, n, pc, queries[k], attempt, answers);
        if err {
          StopsAtOne(nm, base, n, answers, attempt, pc, from + |queries|);
          return;
        }
        pc := pc + 1;
      }
      err := false;
    }

    /** One attempt: nil exactly when every statement is answered `Done` and the server refuses none. */
    method JoinGroupReplication(ghost start: World, ghost trace: seq<Action>, i: nat, n: Node, attempt: nat,
                                answers: Answers)
      returns (err: bool, ghost trace': seq<Action>)
      requires At(start, trace, i, n, 0)
      modifies this
      ensures !err <==> GetsThrough(nm, old(world), n, answers, attempt)
      ensures |world.runs| == |old(world).runs|
      ensures err ==> GaveUp(old(world), start, trace', i, n, old(world).runs[i].retries, answers, attempt)
      ensures !err ==> After(nm, start, trace') == Some(world) && world.runs[i].node == n && n in world.dbs
                       && world.runs[i].phase == Returned(true)
    {
      ghost var base := world;
      ProgramParts(nm, n);
      err, trace' := ExecAll(base, start, trace, i, n, 0, CommonStatements(nm, n), attempt, answers);
      if err {
        NoStopAfterwards(nm, base, n, answers, attempt, ROLE_AT, Length(n));
        return;
      }
      err, trace' := TakeRole(base, start, trace', i, n, attempt, answers);
      if err {
        NoStopAfterwards(nm, base, n, answers, attempt, StartAt(n), Length(n));
        return;
      }
      err, trace' := Finish(base, start, trace', i, n, attempt, answers);
    }

    /** The statements for a replica 0 or for a secondary. */
    method TakeRole(ghost base: World, ghost start: World, ghost trace: seq<Action>, i: nat, n: Node, attempt: nat,
                    answers: Answers)
      returns (err: bool, ghost trace': seq<Action>)
      requires Underway(base, start, trace, i, n, ROLE_AT, answers, attempt)
      modifies this
      ensures !err <==> NoStop(nm, base, n, answers, attempt, StartAt(n))
      ensures |world.runs| == |old(world).runs| && world.runs[i].retries == old(world).runs[i].retries
      ensures err ==> GaveUp(base, start, trace', i, n, old(world).runs[i].retries, answers, attempt)
      ensures !err ==> Underway(base, start, trace', i, n, StartAt(n), answers, attempt)
    {
      ProgramParts(nm, n);
      if n.rep == 0 {
        err, trace' := ExecNext(base, start, trace, i, n, ROLE_AT, SetBootstrap(true), attempt, answers);
      } else {
        err, trace' := ExecAll(base, start, trace, i, n, ROLE_AT, SECONDARY, attempt, answers);
      }
    }

    /** The rest of the attempt, the same for every replica. */
    method Finish(ghost base: World, ghost start: World, ghost trace: seq<Action>, i: nat, n: Node, attempt: nat,
                  answers: Answers)
      returns (err: bool, ghost trace': seq<Action>)
      requires Underway(base, start, trace, i, n, StartAt(n), answers, attempt)
      modifies this
      ensures !err <==> GetsThrough(nm, base, n, answers, attempt)
      ensures |world.runs| == |old(world).runs|
      ensures err ==> GaveUp(base, start, trace', i, n, old(world).runs[i].retries, answers, attempt)
      ensures !err ==> After(nm, start, trace') == Some(world) && world.runs[i].node == n && n in world.dbs
                       && world.runs[i].phase == Returned(true)
    {
      ProgramParts(nm, n);
      var from := StartAt(n);
      err, trace' := ExecAll(base, start, trace, i, n, from, FinalStatements(), attempt, answers);
      if err {
        NoStopAfterwards(nm, base, n, answers, attempt, from + 2, Length(n));
        return;
      }
      err, trace' := CheckMembers(base, start, trace', i, n, attempt, answers);
    }

    /** The status query and the reading of its rows. */
    method CheckMembers(ghost base: World, ghost start: World, ghost trace: seq<Action>, i: nat, n: Node, attempt: nat,
                        answers: Answers)
      returns (err: bool, ghost trace': seq<Action>)
      requires Underway(base, start, trace, i, n, StartAt(n) + 2, answers, attempt)
      modifies this
      ensures !err <==> GetsThrough(nm, base, n, answers, attempt)
      ensures |world.runs| == |old(world).runs|
      ensures err ==> GaveUp(base, start, trace', i, n, old(world).runs[i].retries, answers, attempt)
      ensures !err ==> After(nm, start, trace') == Some(world) && world.runs[i].node == n && n in world.dbs
                       && world.runs[i].phase == Returned(true)
    {
      ProgramParts(nm, n);
      var from := StartAt(n);
      err, trace' := ExecNext(base, start, trace, i, n, from + 2, QueryMembers, attempt, answers);
      if err {
        StopsAtOne(nm, base, n, answers, attempt, from + 2, Length(n));
        return;
      }
      err, trace' := ExecNext(base, start, trace', i, n, from + 3, ScanMembers, attempt, answers);
    }

    /** Awake after the pause. */
    method Awake(ghost start: World, ghost trace: seq<Action>, i: nat, n: Node, retries: nat)
      returns (ghost trace': seq<Action>)
      requires retries > 0 && Failed(start, trace, i, n, retries)
      modifies this
      ensures At(start, trace', i, n, 0) && world.dbs == old(world).dbs
      ensures |world.runs| == |old(world).runs| && world.runs[i].retries == retries - 1
    {
      ghost var asleep := world;
      world := world.(runs := world.runs[i := world.runs[i].(retries := retries - 1, phase := Attempt(0))]);
      AfterConcat(nm, start, trace, [Wake(i)]);
      AfterOne(nm, asleep, Wake(i));
      trace' := trace + [Wake(i)];
    }

    /** One more attempt, after the pause if it is not the first. */
    method TryAgain(ghost start: World, ghost trace: seq<Action>, i: nat, n: Node, attempt: nat, left: nat,
                    answers: Answers)
      returns (err: bool, ghost trace': seq<Action>)
      requires n in start.dbs && attempt + left == 4 && Tried(nm, start, world, n, answers, attempt)
      requires if attempt == 0 then At(start, trace, i, n, 0) && world.runs[i].retries == 4
               else Failed(start, trace, i, n, left + 1)
      modifies this
      ensures !err <==> JoinsAt(nm, start, n, answers, attempt)
      ensures |world.runs| == |old(world).runs|
      ensures err ==> Failed(start, trace', i, n, left) && Tried(nm, start, world, n, answers, attempt + 1)
      ensures !err ==> After(nm, start, trace') == Some(world) && world.runs[i].node == n && n in world.dbs
                       && world.runs[i].phase == Returned(true)
    {
      trace' := trace;
      if attempt > 0 {
        trace' := Awake(start, trace, i, n, left + 1);
      }
      ghost var before := world;
      err, trace' := JoinGroupReplication(start, trace', i, n, attempt, answers);
      OneMoreTried(nm, start, before, world, n, answers, attempt, err);
    }

    /** The loop over the attempts. */
    method JoinWithRetries(ghost start: World, ghost trace: seq<Action>, i: nat, n: Node, answers: Answers)
      returns (err: bool, ghost trace': seq<Action>)
      requires n in start.dbs && world.dbs == start.dbs
      requires At(start, trace, i, n, 0) && world.runs[i].retries == 4
      modifies this
      ensures !err <==> exists k: nat :: JoinsAt(nm, start, n, answers, k)
      ensures After(nm, start, trace') == Some(world) && |world.runs| == |old(world).runs|
      ensures world.runs[i].node == n && world.runs[i].phase == Returned(!err)
    {
      var retries, attempt := NUM_RETRIES, 0;
      err, trace' := true, trace;
      while retries > 0
        invariant 0 <= retries && 0 <= attempt && retries + attempt == 5
        invariant |world.runs| == |old(world).runs| && err
        invariant if attempt == 0 then At(start, trace', i, n, 0) && world.runs[i].retries == 4
                  else Failed(start, trace', i, n, retries)
        invariant Tried(nm, start, world, n, answers, attempt) && NoneJoins(nm, start, n, answers, attempt)
      {
        retries := retries - 1;
        err, trace' := TryAgain(start, trace', i, n, attempt, retries, answers);
        if err {
          attempt := attempt + 1;
          continue;
        }
        break;
      }
    }

    /** Up to five attempts, once the containers have started. Nil is returned exactly when one of them gets
        through and every one before it fails without having created the replication user. The world is left
        as a schedule of the protocol leaves it. */
    method StartSQLContainers(n: Node, replicaStarts: bool, answers: Answers)
      returns (err: bool, ghost trace: seq<Action>)
      requires n in world.dbs
      modifies this
      ensures !err <==> replicaStarts && exists k: nat :: JoinsAt(nm, old(world), n, answers, k)
      ensures After(nm, old(world), trace) == Some(world)
      ensures !replicaStarts ==> err && world == old(world)
      ensures replicaStarts ==>
                && |world.runs| == |old(world).runs| + 1 && world.runs[|old(world).runs|].node == n
                && world.runs[|old(world).runs|].phase == Returned(!err)
    {
      if !replicaStarts {
        return true, [];
      }
      ghost var start := world;
      var i := |world.runs|;
      world := world.(runs := world.runs + [Run(n, NUM_RETRIES - 1, Attempt(0))]);
      AfterOne(nm, start, Launch(n));
      err, trace := JoinWithRetries(start, [Launch(n)], i, n, answers);
    }
  }

  /** None of the first attempts is the one that joins. */
  ghost predicate NoneJoins(nm: Naming, w: World, n: Node, answers: Answers, done: nat)
    requires n in w.dbs
  {
    forall k: nat :: k < done ==> !JoinsAt(nm, w, n, answers, k)
  }

  /** Attempt k gets through, and every attempt before it fails without having created the replication user. */
  ghost predicate JoinsAt(nm: Naming, w: World, n: Node, answers: Answers, k: nat)
    requires n in w.dbs
  {
    k < 5 && GetsThrough(nm, w, n, answers, k) && forall j :: 0 <= j < k ==> StopsEarly(answers, j)
  }

  /** A replica 0 on an untouched server joins at the first attempt when every statement is answered `Done`. */
  lemma UntouchedPrimaryJoinsAtOnce(nm: Naming, w: World, n: Node, answers: Answers)
    requires n in w.dbs && w.dbs[n] == FRESH_DB && n.rep == 0
    requires forall pc: nat :: answers.fate(0, pc).Done?
    ensures JoinsAt(nm, w, n, answers, 0)
  {
  }

  /** What `done` failed attempts leave: nothing that matters, if all stopped early, and else the user. */
  ghost predicate Tried(nm: Naming, w: World, v: World, n: Node, answers: Answers, done: nat) {
    if forall j :: 0 <= j < done ==> StopsEarly(answers, j) then Progressed(nm, w, v, n, 0)
    else n in v.dbs && v.dbs[n].replUser
  }

  lemma EarlyOrLate(nm: Naming, w: World, n: Node, answers: Answers, attempt: nat, pc: nat, answer: Fate)
    requires n in w.dbs && NoStop(nm, w, n, answers, attempt, pc) && Stops(nm, w, n, answers, attempt, pc)
    requires answer == answers.fate(attempt, pc)
             || (answer.Refused? && Refuses(nm, w, n, pc, answers.contact(attempt, pc)))
    ensures StopsEarly(answers, attempt) ==> pc < CREATE_USER_AT || (pc == CREATE_USER_AT && answer.Refused?)
    ensures !StopsEarly(answers, attempt) ==>
              pc > CREATE_USER_AT || (pc == CREATE_USER_AT && (answer.Lost? || w.dbs[n].replUser))
  {
    assert pc > CREATE_USER_AT ==> !Stops(nm, w, n, answers, attempt, CREATE_USER_AT);
    forall k | 0 <= k < CREATE_USER_AT && !answers.fate(attempt, k).Done? ensures pc <= k {
      assert Stops(nm, w, n, answers, attempt, k);
    }
  }

  lemma SameProspects(nm: Naming, w: World, v: World, n: Node, answers: Answers, attempt: nat)
    requires Progressed(nm, w, v, n, 0)
    ensures GetsThrough(nm, w, n, answers, attempt) <==> GetsThrough(nm, v, n, answers, attempt)
  {
    forall pc | 0 <= pc < Length(n)
      ensures Stops(nm, w, n, answers, attempt, pc) <==> Stops(nm, v, n, answers, attempt, pc)
    {
      var contact := answers.contact(attempt, pc);
      assert contact in w.dbs && contact != n ==> v.dbs[contact] == w.dbs[contact];
    }
  }

  lemma OneMoreTried(nm: Naming, w: World, before: World, after: World, n: Node, answers: Answers, attempt: nat,
                     err: bool)
    requires n in w.dbs && n in before.dbs && Tried(nm, w, before, n, answers, attempt) && attempt < 5
    requires !err <==> GetsThrough(nm, before, n, answers, attempt)
    requires err ==> Leaves(nm, before, after, n, answers, attempt)
    ensures !err <==> JoinsAt(nm, w, n, answers, attempt)
    ensures err ==> Tried(nm, w, after, n, answers, attempt + 1)
  {
    if forall j :: 0 <= j < attempt ==> StopsEarly(answers, j) {
      SameProspects(nm, w, before, n, answers, attempt);
    } else {
      assert Stops(nm, before, n, answers, attempt, CREATE_USER_AT);
      UserStays(nm, before, after, n, answers, attempt);
    }
  }

  lemma UserStays(nm: Naming, before: World, after: World, n: Node, answers: Answers, attempt: nat)
    requires n in before.dbs && before.dbs[n].replUser && Leaves(nm, before, after, n, answers, attempt)
    ensures n in after.dbs && after.dbs[n].replUser
  {
  }

  lemma AfterOne(nm: Naming, w: World, a: Action)
    ensures After(nm, w, [a]) == Next(nm, w, a)
  {
    assert [a][1..] == [];
  }
}
