/** The connector as a class whose methods update its maps (lib/cluster/tables/connection.go), run by
    one caller at a time. What a method does to the maps and the handles is what the step system does
    when no other thread interferes. */
module SequentialConnector {
  import opened Text
  import opened Connector
  import opened HandleLedger

  /** What the database answers within one attempt. */
  datatype Answers = Answers(cachedPing: bool, open: bool, firstPing: bool)

  /** The answer the step at a program point asks for. */
  function AnswerAt(a: Answers, pc: Pc): bool {
    match pc
    case SlotCheck(_, _) => a.cachedPing
    case Opening(_, _) => a.open
    case _ => a.firstPing
  }

  /** The attempt ends with a live connection. */
  predicate Works(a: Answers, cached: bool) {
    (cached && a.cachedPing) || (a.open && a.firstPing)
  }

  /** Attempt k is reached and ends with a live connection. */
  predicate WorksAt(k: nat, answers: nat -> Answers, goOn: nat -> bool, cached: bool) {
    k < 3 && (forall j :: 0 <= j < k ==> goOn(j)) && Works(answers(k), cached)
  }

  /** The check-open-ping-store section, run to the point where it is about to release the lock. */
  function RunSection(sh: Shared, th: Thread, a: Answers): Move
    decreases match th.pc { case SlotCheck(_, _) => 4 case Opening(_, _) => 3 case Testing(_, _) => 2
                            case Storing(_) => 1 case Dropping(_, _) => 1 case _ => 0 }
  {
    if th.pc.SlotCheck? || th.pc.Opening? || th.pc.Testing? || th.pc.Storing? || th.pc.Dropping? then
      match SlotStep(sh, th, AnswerAt(a, th.pc))
      case None => Move(sh, th.pc)
      case Some(m) => RunSection(m.sh, th.(pc := m.pc), a)
    else Move(sh, th.pc)
  }

  /** What the two connection maps hold at a slot. */
  function Held(readMap: map<int, nat>, writeMap: map<int, nat>, at: Slot): Option<nat> {
    var conns := if at.kind.Read? then readMap else writeMap;
    if at.shard in conns then Some(conns[at.shard]) else None
  }

  function Entry(conns: map<Slot, nat>, at: Slot): Option<nat> {
    if at in conns then Some(conns[at]) else None
  }

  method AnyShard(conns: map<int, nat>) returns (shard: int)
    requires conns != map[]
    ensures shard in conns
  {
    var entry :| entry in conns.Items;
    shard := entry.0;
  }

  class MultiDBConnector {
    var configs: map<int, ClientConfig>
    var readConns: map<int, nat>
    var writeConns: map<int, nat>
    var handles: seq<Handle>
    ghost var conns: map<Slot, nat>   // readConns and writeConns as one
    ghost var displaced: set<nat>
    ghost var failedPings: nat
    ghost var abandoned: nat

    constructor ()
      ensures Valid() && configs == map[] && View().conns == map[] && handles == []
    {
      configs, readConns, writeConns, handles := map[], map[], map[], [];
      conns, displaced, failedPings, abandoned := map[], {}, 0, 0;
    }

    /** The connector's part of the step system's shared state. */
    ghost function View(): Shared
      reads this
    {
      Shared({}, None, configs, conns, handles, displaced, failedPings, abandoned, [])
    }

    /** `conns` is what the two maps hold. */
    ghost predicate Represented()
      reads this
    {
      forall at :: Held(readConns, writeConns, at) == Entry(conns, at)
    }

    /** Every handle is accounted for. */
    ghost predicate Valid()
      reads this
    {
      Represented() && LedgerInv(View()) && Accounted(View(), None)
    }

    method AddConfig(shard: int, config: ClientConfig)
      requires Valid()
      modifies this`configs
      ensures Valid() && View() == old(View()).(configs := old(configs)[shard := config])
    {
      configs := configs[shard := config];
    }

    method Lookup(slot: Slot) returns (r: Option<nat>)
      requires Represented()
      ensures r == Entry(conns, slot)
    {
      assert Held(readConns, writeConns, slot) == Entry(conns, slot);
      var held := if slot.kind.Read? then readConns else writeConns;
      r := if slot.shard in held then Some(held[slot.shard]) else None;
    }

    method Store(slot: Slot, h: nat)
      requires Represented()
      modifies this`readConns, this`writeConns, this`conns
      ensures Represented() && conns == old(conns)[slot := h]
    {
      conns := conns[slot := h];
      if slot.kind.Read? {
        readConns := readConns[slot.shard := h];
      } else {
        writeConns := writeConns[slot.shard := h];
      }
      forall at ensures Held(readConns, writeConns, at) == Entry(conns, at) {
        assert old(Held(readConns, writeConns, at) == Entry(conns, at));
      }
    }

    method Remove(slot: Slot)
      requires Represented()
      modifies this`readConns, this`writeConns, this`conns
      ensures Represented() && conns == old(conns) - {slot}
      ensures readConns == if slot.kind.Read? then old(readConns) - {slot.shard} else old(readConns)
      ensures writeConns == if slot.kind.Read? then old(writeConns) else old(writeConns) - {slot.shard}
    {
      conns := conns - {slot};
      if slot.kind.Read? {
        readConns := readConns - {slot.shard};
      } else {
        writeConns := writeConns - {slot.shard};
      }
      forall at ensures Held(readConns, writeConns, at) == Entry(conns, at) {
        assert old(Held(readConns, writeConns, at) == Entry(conns, at));
      }
    }

    method CloseHandle(h: nat)
      requires h < |handles|
      modifies this`handles
      ensures handles == old(handles)[h := old(handles)[h].(closes := old(handles)[h].closes + 1)]
    {
      handles := handles[h := handles[h].(closes := handles[h].closes + 1)];
    }

    /** The section connect runs under the write lock: Some handle when it succeeds. */
    method Section(slot: Slot, config: ClientConfig, a: Answers) returns (r: Option<nat>)
      requires Represented()
      modifies this
      ensures Represented() && configs == old(configs)
      ensures var m := Outcome(old(View()), slot, config, a);
              View() == m.sh && m.pc == (if r.Some? then Unlocking(r.value) else Releasing(0))
    {
      var cached := Lookup(slot);
      if cached.Some? {
        if a.cachedPing {
          return cached;
        }
        failedPings := failedPings + 1;
      }
      if !a.open {
        abandoned := abandoned + if cached.Some? then 1 else 0;
        return None;
      }
      var h := |handles|;
      handles := handles + [Handle(slot, TargetOf(config, slot.kind), 0)];
      if !a.firstPing {
        CloseHandle(h);
        abandoned := abandoned + if cached.Some? then 1 else 0;
        assert handles == old(handles) + [Handle(slot, TargetOf(config, slot.kind), 1)];
        return None;
      }
      displaced := displaced + if cached.Some? then {cached.value} else {};
      Store(slot, h);
      r := Some(h);
    }

    /** Up to three attempts; `goOn(k)` tells whether the wait after attempt k ends without the context
        being cancelled. A connection is returned exactly when some attempt that is reached finds its cached
        handle alive or opens one that answers. The maps change in the asked slot only. */
    method Connect(slot: Slot, answers: nat -> Answers, goOn: nat -> bool) returns (r: Option<nat>)
      requires Valid()
      modifies this
      ensures Valid() && configs == old(configs)
      ensures r.Some? <==> slot.shard in old(configs)
                           && exists k: nat :: WorksAt(k, answers, goOn, slot in old(View()).conns)
      ensures r.Some? ==> slot in View().conns && View().conns[slot] == r.value
      ensures slot.shard in old(configs) && slot in old(View()).conns && answers(0).cachedPing ==>
                r == Some(old(View()).conns[slot]) && View() == old(View())
      ensures forall at :: at != slot ==>
                             (at in View().conns <==> at in old(View()).conns)
                             && (at in old(View()).conns ==> View().conns[at] == old(View()).conns[at])
      ensures r.None? ==> View().conns == old(View()).conns
      ensures slot.shard !in old(configs) ==> r.None? && View() == old(View())
    {
      var attempt := 0;
      ghost var cached := slot in View().conns;
      while attempt < CONNECT_ATTEMPTS
        invariant 0 <= attempt && Valid() && configs == old(configs)
        invariant View().conns == old(View()).conns
        invariant slot.shard !in configs || attempt == 0 ==> View() == old(View())
        invariant slot.shard in configs ==> forall j :: 0 <= j < attempt ==> goOn(j) && !Works(answers(j), cached)
      {
        if slot.shard in configs {
          OutcomeKeepsLedger(View(), slot, configs[slot.shard], answers(attempt));
          r := Section(slot, configs[slot.shard], answers(attempt));
          if r.Some? {
            assert WorksAt(attempt, answers, goOn, cached);
            return;
          }
        }
        if attempt < CONNECT_ATTEMPTS - 1 && goOn(attempt) {
          attempt := attempt + 1;
          continue;
        }
        return None;
      }
      r := None;
    }

    method GetConnection(slot: Slot) returns (r: Option<nat>)
      requires Valid()
      ensures r == if slot in View().conns then Some(View().conns[slot]) else None
    {
      r := Lookup(slot);
    }

    /** Closes the connection of a slot, if there is one, and forgets it whether or not that fails. */
    method CloseSlot(slot: Slot, closeFails: nat -> bool) returns (err: bool)
      requires Represented() && (slot in conns ==> conns[slot] < |handles|)
      modifies this
      ensures Represented() && configs == old(configs)
      ensures View() == ClosedSlot(old(View()), slot)
      ensures slot.kind.Read? ==> readConns == old(readConns) - {slot.shard} && writeConns == old(writeConns)
      ensures slot.kind.Write? ==> writeConns == old(writeConns) - {slot.shard} && readConns == old(readConns)
      ensures err <==> slot in old(View()).conns && closeFails(old(View()).conns[slot])
    {
      var cached := Lookup(slot);
      err := false;
      if cached.Some? {
        CloseHandle(cached.value);
        err := closeFails(cached.value);
        Remove(slot);
      }
    }

    /** Both connections of a shard, as the Close step of the protocol; `closeFails` says which handles
        report an error. */
    method Close(shard: int, closeFails: nat -> bool) returns (err: bool)
      requires Valid()
      modifies this
      ensures Valid() && View() == Closed(old(View()), Call.Close, Slot(Read, shard))
      ensures err <==> (Slot(Read, shard) in old(View()).conns && closeFails(old(View()).conns[Slot(Read, shard)]))
                       || (Slot(Write, shard) in old(View()).conns && closeFails(old(View()).conns[Slot(Write, shard)]))
    {
      ShardIsTwoSlots(View(), shard);
      ClosedSlotKeepsLedger(View(), Slot(Read, shard));
      err := CloseSlot(Slot(Read, shard), closeFails);
      ClosedSlotKeepsLedger(View(), Slot(Write, shard));
      var err' := CloseSlot(Slot(Write, shard), closeFails);
      err := err || err';
    }

    /** One turn of the closing loops. */
    method CloseNext(ghost before: Shared, ghost done: set<Slot>, slot: Slot, closeFails: nat -> bool)
      returns (failed: bool)
      requires Valid() && LedgerInv(before) && done <= before.conns.Keys && View() == ClosedSlots(before, done)
      requires Held(readConns, writeConns, slot).Some?
      modifies this
      ensures Valid() && configs == old(configs)
      ensures slot in before.conns && View() == ClosedSlots(before, done + {slot})
      ensures slot.kind.Read? ==> readConns == old(readConns) - {slot.shard} && writeConns == old(writeConns)
      ensures slot.kind.Write? ==> writeConns == old(writeConns) - {slot.shard} && readConns == old(readConns)
      ensures failed <==> closeFails(before.conns[slot])
    {
      assert Held(readConns, writeConns, slot) == Entry(conns, slot);
      OneMoreSlot(before, done, slot);
      ClosedSlotKeepsLedger(View(), slot);
      failed := CloseSlot(slot, closeFails);
    }

    /** Every connection, the read ones first. The maps are empty afterwards even if closing fails. */
    method CloseAll(closeFails: nat -> bool) returns (err: bool)
      requires Valid()
      modifies this
      ensures Valid() && configs == old(configs) && View().conns == map[]
      ensures View() == Closed(old(View()), Call.CloseAll, Slot(Read, 0))
      ensures err <==> exists at :: at in old(View()).conns && closeFails(old(View()).conns[at])
    {
      err := false;
      ghost var before := View();
      ghost var done: set<Slot> := {};
      NothingClosed(before);
      while readConns != map[]
        invariant Valid() && configs == old(configs) && done <= before.conns.Keys
        invariant View() == ClosedSlots(before, done)
        invariant err <==> exists at :: at in done && closeFails(before.conns[at])
        decreases readConns.Keys
      {
        var shard := AnyShard(readConns);
        var failed := CloseNext(before, done, Slot(Read, shard), closeFails);
        err := err || failed;
        done := done + {Slot(Read, shard)};
      }
      while writeConns != map[]
        invariant Valid() && configs == old(configs) && readConns == map[] && done <= before.conns.Keys
        invariant View() == ClosedSlots(before, done)
        invariant err <==> exists at :: at in done && closeFails(before.conns[at])
        decreases writeConns.Keys
      {
        var shard := AnyShard(writeConns);
        var failed := CloseNext(before, done, Slot(Write, shard), closeFails);
        err := err || failed;
        done := done + {Slot(Write, shard)};
      }
      NothingHeld();
      AllSlotsClosed(before, done);
    }

    lemma NothingHeld()
      requires Represented() && readConns == map[] && writeConns == map[]
      ensures conns == map[]
    {
      forall at ensures at !in conns {
        assert Held(readConns, writeConns, at) == Entry(conns, at);
      }
    }
  }

  // ---- closing ----

  /** The shared state after the connection of one slot is closed. */
  function ClosedSlot(sh: Shared, slot: Slot): Shared {
    if slot !in sh.conns || sh.conns[slot] >= |sh.handles| then sh else
      var h := sh.conns[slot];
      sh.(handles := sh.handles[h := sh.handles[h].(closes := sh.handles[h].closes + 1)], conns := sh.conns - {slot})
  }

  /** The shared state after the connections of a set of slots are closed. */
  function ClosedSlots(sh: Shared, slots: set<Slot>): Shared {
    sh.(handles := seq(|sh.handles|, h requires 0 <= h < |sh.handles| =>
                         if Cached(sh, h) && sh.handles[h].slot in slots
                         then sh.handles[h].(closes := sh.handles[h].closes + 1) else sh.handles[h]),
        conns := sh.conns - slots)
  }

  lemma NothingClosed(sh: Shared)
    ensures ClosedSlots(sh, {}) == sh
  {
    assert ClosedSlots(sh, {}).handles == sh.handles;
    assert sh.conns - {} == sh.conns;
  }

  lemma OneMoreSlot(sh: Shared, done: set<Slot>, slot: Slot)
    requires LedgerInv(sh) && slot in ClosedSlots(sh, done).conns
    ensures slot in sh.conns && slot !in done && ClosedSlots(sh, done).conns[slot] == sh.conns[slot]
    ensures ClosedSlot(ClosedSlots(sh, done), slot) == ClosedSlots(sh, done + {slot})
  {
    var a, b := ClosedSlot(ClosedSlots(sh, done), slot), ClosedSlots(sh, done + {slot});
    var h := sh.conns[slot];
    forall k | 0 <= k < |sh.handles| ensures a.handles[k] == b.handles[k] {
      if k != h {
        assert Cached(sh, k) ==> sh.handles[k].slot != slot;
      }
    }
    assert a.handles == b.handles;
    assert a.conns == b.conns;
  }

  lemma AllSlotsClosed(sh: Shared, done: set<Slot>)
    requires done <= sh.conns.Keys && ClosedSlots(sh, done).conns == map[]
    ensures done == sh.conns.Keys
    ensures ClosedSlots(sh, done) == Closed(sh, Call.CloseAll, Slot(Read, 0))
  {
    var a, b := ClosedSlots(sh, done), Closed(sh, Call.CloseAll, Slot(Read, 0));
    forall at | at in sh.conns ensures at in done {
      assert at !in ClosedSlots(sh, done).conns;
    }
    assert a.handles == b.handles;
    assert b.conns == map[];
  }

  lemma SlotsOfShard(at: Slot)
    ensures at == Slot(Read, at.shard) || at == Slot(Write, at.shard)
  {
    match at.kind
    case Read =>
    case Write =>
  }

  lemma SkipSlot(sh: Shared, done: set<Slot>, slot: Slot)
    requires LedgerInv(sh) && slot !in sh.conns
    ensures ClosedSlots(sh, done + {slot}) == ClosedSlots(sh, done)
  {
    assert ClosedSlots(sh, done + {slot}).handles == ClosedSlots(sh, done).handles;
    assert ClosedSlots(sh, done + {slot}).conns == ClosedSlots(sh, done).conns;
  }

  lemma ThenSlot(sh: Shared, done: set<Slot>, slot: Slot)
    requires LedgerInv(sh) && slot !in done
    ensures ClosedSlot(ClosedSlots(sh, done), slot) == ClosedSlots(sh, done + {slot})
    ensures slot in ClosedSlots(sh, done).conns <==> slot in sh.conns
    ensures slot in sh.conns ==> ClosedSlots(sh, done).conns[slot] == sh.conns[slot]
  {
    if slot in sh.conns {
      OneMoreSlot(sh, done, slot);
    } else {
      SkipSlot(sh, done, slot);
    }
  }

  lemma CloseIsTwoSlots(sh: Shared, shard: int)
    requires LedgerInv(sh)
    ensures Closed(sh, Call.Close, Slot(Read, shard)) == ClosedSlots(sh, {Slot(Read, shard), Slot(Write, shard)})
  {
    var a, b := Closed(sh, Call.Close, Slot(Read, shard)), ClosedSlots(sh, {Slot(Read, shard), Slot(Write, shard)});
    forall k | 0 <= k < |sh.handles| ensures a.handles[k] == b.handles[k] {
      SlotsOfShard(sh.handles[k].slot);
    }
    assert a.handles == b.handles;
    forall at | at in sh.conns ensures at in a.conns <==> at in b.conns {
      SlotsOfShard(at);
    }
    assert a.conns == b.conns;
  }

  lemma ShardIsTwoSlots(sh: Shared, shard: int)
    requires LedgerInv(sh)
    ensures ClosedSlot(ClosedSlot(sh, Slot(Read, shard)), Slot(Write, shard))
            == Closed(sh, Call.Close, Slot(Read, shard))
    ensures var w := Slot(Write, shard); var mid := ClosedSlot(sh, Slot(Read, shard));
            (w in mid.conns <==> w in sh.conns) && (w in sh.conns ==> mid.conns[w] == sh.conns[w])
  {
    var r, w := Slot(Read, shard), Slot(Write, shard);
    NothingClosed(sh);
    ThenSlot(sh, {}, r);
    assert {} + {r} == {r} && {r} + {w} == {r, w};
    ThenSlot(sh, {r}, w);
    CloseIsTwoSlots(sh, shard);
  }

  lemma ClosedSlotKeepsLedger(sh: Shared, slot: Slot)
    requires LedgerInv(sh) && Accounted(sh, None)
    ensures LedgerInv(ClosedSlot(sh, slot)) && Accounted(ClosedSlot(sh, slot), None)
  {
    var after := ClosedSlot(sh, slot);
    forall h | 0 <= h < |sh.handles| ensures after.handles[h].closes == 1 || h in after.displaced || Cached(after, h) {
      assert sh.handles[h].closes == 1 || h in sh.displaced || Cached(sh, h);
    }
  }

  /** The shared state after Close or CloseAll. */
  function Closed(sh: Shared, call: Call, slot: Slot): Shared {
    sh.(handles := CloseHandles(sh.handles, sh.conns, call, slot),
        conns := map at | at in sh.conns && !Clears(call, slot, at) :: sh.conns[at])
  }

  // ---- the section ----

  /** What the section amounts to. */
  function Outcome(sh: Shared, slot: Slot, config: ClientConfig, a: Answers): Move {
    var h := |sh.handles|;
    var pinged := if slot in sh.conns then sh.(failedPings := sh.failedPings + 1) else sh;
    var added := Handle(slot, TargetOf(config, slot.kind), 0);
    if slot in sh.conns && a.cachedPing then Move(sh, Unlocking(sh.conns[slot]))
    else if !a.open then Move(Abandoned(pinged, slot), Releasing(0))
    else if !a.firstPing then
      Move(Abandoned(pinged, slot).(handles := sh.handles + [added.(closes := 1)]), Releasing(0))
    else
      Move(pinged.(handles := sh.handles + [added], conns := sh.conns[slot := h],
                   displaced := sh.displaced + if slot in sh.conns then {sh.conns[slot]} else {}),
           Unlocking(h))
  }

  lemma TestingReaches(sh: Shared, th: Thread, h: Handle, a: Answers)
    requires th.pc == Testing(0, |sh.handles|) && h.closes == 0
    ensures var grown := sh.(handles := sh.handles + [h]);
            RunSection(grown, th, a)
            == if !a.firstPing then
                 Move(Abandoned(sh, th.slot).(handles := sh.handles + [h.(closes := 1)]), Releasing(0))
               else Move(grown.(conns := sh.conns[th.slot := |sh.handles|],
                                  displaced := sh.displaced + if th.slot in sh.conns then {sh.conns[th.slot]} else {}),
                         Unlocking(|sh.handles|))
  {
    var grown := sh.(handles := sh.handles + [h]);
    var next := if a.firstPing then Storing(|sh.handles|) else Dropping(0, |sh.handles|);
    assert RunSection(grown, th, a) == RunSection(grown, th.(pc := next), a);
    var m := SlotStep(grown, th.(pc := next), a.firstPing).value;
    assert RunSection(grown, th.(pc := next), a) == RunSection(m.sh, th.(pc := m.pc), a) == m;
    assert grown.handles[|sh.handles| := h.(closes := 1)] == sh.handles + [h.(closes := 1)];
  }

  lemma OpeningReaches(sh: Shared, th: Thread, config: ClientConfig, a: Answers)
    requires th.pc == Opening(0, config) && a.open
    ensures var h := Handle(th.slot, TargetOf(config, th.slot.kind), 0);
            RunSection(sh, th, a)
            == RunSection(sh.(handles := sh.handles + [h]), th.(pc := Testing(0, |sh.handles|)), a)
  {
  }

  /** A thread that takes the steps of the section without interference ends up there. */
  lemma StepsReachOutcome(sh: Shared, slot: Slot, config: ClientConfig, a: Answers)
    ensures RunSection(sh, Thread(Call.Connect, slot, SlotCheck(0, config)), a) == Outcome(sh, slot, config, a)
  {
    var th := Thread(Call.Connect, slot, SlotCheck(0, config));
    if !(slot in sh.conns && a.cachedPing) {
      var pinged := if slot in sh.conns then sh.(failedPings := sh.failedPings + 1) else sh;
      assert RunSection(sh, th, a) == RunSection(pinged, th.(pc := Opening(0, config)), a);
      if a.open {
        OpeningReaches(pinged, th.(pc := Opening(0, config)), config, a);
        TestingReaches(pinged, th.(pc := Testing(0, |sh.handles|)), Handle(slot, TargetOf(config, slot.kind), 0), a);
      } else {
        var left := Abandoned(pinged, slot);
        assert RunSection(pinged, th.(pc := Opening(0, config)), a) == RunSection(left, th.(pc := Releasing(0)), a);
      }
    }
  }

  lemma OutcomeKeepsLedger(sh: Shared, slot: Slot, config: ClientConfig, a: Answers)
    requires LedgerInv(sh) && Accounted(sh, None)
    ensures var m := Outcome(sh, slot, config, a); LedgerInv(m.sh) && Accounted(m.sh, None)
  {
    var m := Outcome(sh, slot, config, a);
    forall h | 0 <= h < |m.sh.handles| ensures m.sh.handles[h].closes == 1 || h in m.sh.displaced || Cached(m.sh, h) {
      if h < |sh.handles| {
        assert sh.handles[h].closes == 1 || h in sh.displaced || Cached(sh, h);
      }
    }
  }
}
