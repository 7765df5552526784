/** What becomes of the handles a connector opens, in every interleaving of its calls. */
module HandleLedger {
  import opened Text
  import opened Connector

  /** The handle is in its slot of the connection maps. */
  predicate Cached(sh: Shared, h: nat) {
    h < |sh.handles| && sh.handles[h].slot in sh.conns && sh.conns[sh.handles[h].slot] == h
  }

  /** The handle a thread has opened and neither stored nor closed yet. */
  function InFlight(pc: Pc): Option<nat> {
    match pc
    case Testing(_, h) => Some(h)
    case Dropping(_, h) => Some(h)
    case Storing(h) => Some(h)
    case _ => None
  }

  /** The handle a thread is about to return, or has returned. */
  function Resulting(pc: Pc): Option<nat> {
    match pc
    case Unlocking(h) => Some(h)
    case RecordWait(Ok(h)) => Some(h)
    case Recording(Ok(h)) => Some(h)
    case Done(Ok(h)) => Some(h)
    case _ => None
  }

  /** A cached handle is open and in the slot it was opened for; a displaced one is open too. */
  predicate LedgerInv(sh: Shared) {
    && (forall at :: at in sh.conns ==>
                       sh.conns[at] < |sh.handles| && sh.handles[sh.conns[at]].slot == at
                       && sh.handles[sh.conns[at]].closes == 0 && sh.conns[at] !in sh.displaced)
    && (forall h :: h in sh.displaced ==> h < |sh.handles| && sh.handles[h].closes == 0)
    && (forall h :: 0 <= h < |sh.handles| ==> sh.handles[h].closes <= 1)
  }

  predicate FlightInv(sh: Shared, th: Thread) {
    InFlight(th.pc).Some? ==>
      var h := InFlight(th.pc).value;
      && h < |sh.handles| && sh.handles[h].closes == 0 && sh.handles[h].slot == th.slot
      && h !in sh.displaced && !Cached(sh, h)
  }

  predicate ResultInv(sh: Shared, th: Thread) {
    Resulting(th.pc).Some? ==>
      Resulting(th.pc).value < |sh.handles| && sh.handles[Resulting(th.pc).value].slot == th.slot
  }

  /** No handle is unaccounted for: `flying` is the one the writer has in flight, if any. */
  predicate Accounted(sh: Shared, flying: Option<nat>) {
    forall h :: 0 <= h < |sh.handles| ==>
                  sh.handles[h].closes == 1 || h in sh.displaced || Cached(sh, h) || flying == Some(h)
  }

  function Flying(s: State): Option<nat> {
    if s.sh.writer.Some? && s.sh.writer.value < |s.threads| then InFlight(s.threads[s.sh.writer.value].pc) else None
  }

  /** The thread found its cached handle unresponsive and has yet to displace it or to give up. */
  predicate PingFailed(sh: Shared, th: Thread) {
    (th.pc.Opening? || th.pc.Testing? || th.pc.Dropping? || th.pc.Storing?) && th.slot in sh.conns
  }

  function Pending(s: State): nat {
    if s.sh.writer.Some? && s.sh.writer.value < |s.threads| && PingFailed(s.sh, s.threads[s.sh.writer.value])
    then 1 else 0
  }

  ghost predicate Inv(s: State) {
    && LockInv(s) && LedgerInv(s.sh)
    && (forall t :: 0 <= t < |s.threads| ==> FlightInv(s.sh, s.threads[t]) && ResultInv(s.sh, s.threads[t]))
    && Accounted(s.sh, Flying(s))
    && |s.sh.displaced| + s.sh.abandoned + Pending(s) == s.sh.failedPings
  }

  // ---- one step ----

  /** Handles are only added, and keep the slot they were opened for. */
  predicate HandlesGrow(sh: Shared, sh': Shared) {
    && |sh.handles| <= |sh'.handles|
    && forall h :: 0 <= h < |sh.handles| ==> sh'.handles[h].slot == sh.handles[h].slot
  }

  predicate LedgerSame(sh: Shared, sh': Shared) {
    sh'.handles == sh.handles && sh'.conns == sh.conns && sh'.displaced == sh.displaced
  }

  /** The program points whose steps touch the handles. */
  predicate Touches(pc: Pc) {
    pc.Opening? || pc.Dropping? || pc.Storing? || pc.Closing?
  }

  lemma OtherStepsLeaveLedger(env: Env, sh: Shared, t: nat, th: Thread, good: bool, m: Move)
    requires ThreadStep(env, sh, t, th, good) == Some(m)
    ensures !Touches(th.pc) ==> LedgerSame(sh, m.sh)
    ensures HandlesGrow(sh, m.sh)
  {
  }

  lemma OpenStep(sh: Shared, th: Thread, good: bool, m: Move)
    requires th.pc.Opening? && SlotStep(sh, th, good) == Some(m)
    requires LedgerInv(sh) && Accounted(sh, None)
    ensures LedgerInv(m.sh) && FlightInv(m.sh, th.(pc := m.pc)) && Accounted(m.sh, InFlight(m.pc))
    ensures m.sh.displaced == sh.displaced && m.sh.conns == sh.conns
  {
    forall h | 0 <= h < |sh.handles| ensures Cached(sh, h) ==> Cached(m.sh, h) {
    }
  }

  lemma DropStep(sh: Shared, th: Thread, good: bool, m: Move)
    requires th.pc.Dropping? && SlotStep(sh, th, good) == Some(m)
    requires LedgerInv(sh) && FlightInv(sh, th) && Accounted(sh, InFlight(th.pc))
    ensures LedgerInv(m.sh) && FlightInv(m.sh, th.(pc := m.pc)) && Accounted(m.sh, InFlight(m.pc))
    ensures m.sh.displaced == sh.displaced && m.sh.conns == sh.conns
  {
    var mine := th.pc.handle;
    assert forall at :: at in sh.conns ==> sh.conns[at] != mine;
    forall h | 0 <= h < |sh.handles| && h != mine ensures Cached(sh, h) ==> Cached(m.sh, h) {
    }
  }

  lemma StoreStep(sh: Shared, th: Thread, good: bool, m: Move)
    requires th.pc.Storing? && SlotStep(sh, th, good) == Some(m)
    requires LedgerInv(sh) && FlightInv(sh, th) && Accounted(sh, InFlight(th.pc))
    ensures LedgerInv(m.sh) && FlightInv(m.sh, th.(pc := m.pc)) && Accounted(m.sh, InFlight(m.pc))
    ensures ResultInv(m.sh, th.(pc := m.pc))
  {
    forall h | 0 <= h < |sh.handles| && h != th.pc.handle
      ensures Cached(sh, h) ==> Cached(m.sh, h) || h in m.sh.displaced
    {
    }
    assert Cached(m.sh, th.pc.handle);
  }

  lemma CloseStep(env: Env, sh: Shared, t: nat, th: Thread, good: bool, m: Move)
    requires th.pc.Closing? && PlainStep(env, sh, t, th, good) == Some(m)
    requires LedgerInv(sh) && Accounted(sh, None)
    ensures LedgerInv(m.sh) && Accounted(m.sh, None)
    ensures m.sh.displaced == sh.displaced
  {
    forall h | 0 <= h < |sh.handles|
      ensures m.sh.handles[h].closes == 1 || h in m.sh.displaced || Cached(m.sh, h)
    {
      assert sh.handles[h].closes == 1 || h in sh.displaced || Cached(sh, h);
    }
  }

  /** The stepping thread keeps the ledger and its own part of the invariant. */
  lemma SelfStep(env: Env, sh: Shared, t: nat, th: Thread, good: bool, m: Move, flying: Option<nat>)
    requires LedgerInv(sh) && FlightInv(sh, th) && ResultInv(sh, th) && Accounted(sh, flying)
    requires ThreadLock(sh, t, th.pc) && (sh.writer == Some(t) ==> flying == InFlight(th.pc))
    requires sh.writer == None ==> flying == None
    requires ThreadStep(env, sh, t, th, good) == Some(m)
    ensures LedgerInv(m.sh) && FlightInv(m.sh, th.(pc := m.pc)) && ResultInv(m.sh, th.(pc := m.pc))
    ensures m.sh.writer == Some(t) ==> Accounted(m.sh, InFlight(m.pc))
    ensures m.sh.writer != Some(t) ==> Accounted(m.sh, if sh.writer == Some(t) then None else flying)
  {
    if th.pc.Opening? {
      OpenStep(sh, th, good, m);
    } else if th.pc.Dropping? {
      DropStep(sh, th, good, m);
    } else if th.pc.Storing? {
      StoreStep(sh, th, good, m);
    } else if th.pc.Closing? {
      CloseStep(env, sh, t, th, good, m);
    } else {
      QuietStep(env, sh, t, th, good, m, flying);
    }
  }

  lemma QuietStep(env: Env, sh: Shared, t: nat, th: Thread, good: bool, m: Move, flying: Option<nat>)
    requires LedgerInv(sh) && FlightInv(sh, th) && ResultInv(sh, th) && Accounted(sh, flying)
    requires ThreadLock(sh, t, th.pc) && (sh.writer == Some(t) ==> flying == InFlight(th.pc))
    requires sh.writer == None ==> flying == None
    requires ThreadStep(env, sh, t, th, good) == Some(m) && !Touches(th.pc)
    ensures LedgerInv(m.sh) && FlightInv(m.sh, th.(pc := m.pc)) && ResultInv(m.sh, th.(pc := m.pc))
    ensures m.sh.writer == Some(t) ==> Accounted(m.sh, InFlight(m.pc))
    ensures m.sh.writer != Some(t) ==> Accounted(m.sh, if sh.writer == Some(t) then None else flying)
  {
    OtherStepsLeaveLedger(env, sh, t, th, good, m);
    if UsesSlot(th.pc) {
      QuietSlotStep(sh, th, good, m);
    } else if Records(th.pc) {
      assert Resulting(m.pc) == Resulting(th.pc) && InFlight(m.pc) == None && m.sh.writer == sh.writer;
    } else {
      QuietPlainStep(env, sh, t, th, good, m);
    }
  }

  lemma QuietPlainStep(env: Env, sh: Shared, t: nat, th: Thread, good: bool, m: Move)
    requires !Touches(th.pc) && PlainStep(env, sh, t, th, good) == Some(m)
    requires LedgerInv(sh) && ThreadLock(sh, t, th.pc)
    ensures LedgerSame(sh, m.sh) && InFlight(m.pc) == None && ResultInv(m.sh, th.(pc := m.pc))
    ensures m.sh.writer == Some(t) ==> sh.writer == None || sh.writer == Some(t)
  {
  }

  lemma QuietSlotStep(sh: Shared, th: Thread, good: bool, m: Move)
    requires UsesSlot(th.pc) && !Touches(th.pc) && SlotStep(sh, th, good) == Some(m)
    requires LedgerInv(sh) && ResultInv(sh, th) && sh.writer.Some?
    ensures LedgerSame(sh, m.sh) && InFlight(m.pc) == InFlight(th.pc) && ResultInv(m.sh, th.(pc := m.pc))
    ensures m.sh.writer == None ==> InFlight(th.pc) == None
  {
  }

  /** A step of one thread leaves the others' part of the invariant alone: only the thread that holds
      the write lock changes handles, and no other thread has one in flight then. */
  lemma PeerStep(env: Env, sh: Shared, t: nat, th: Thread, good: bool, m: Move, u: nat, peer: Thread)
    requires u != t && ThreadLock(sh, t, th.pc) && ThreadLock(sh, u, peer.pc)
    requires FlightInv(sh, peer) && ResultInv(sh, peer)
    requires ThreadStep(env, sh, t, th, good) == Some(m)
    ensures FlightInv(m.sh, peer) && ResultInv(m.sh, peer)
  {
    OtherStepsLeaveLedger(env, sh, t, th, good, m);
  }

  lemma StoreDisplaces(sh: Shared, th: Thread, good: bool, m: Move)
    requires th.pc.Storing? && SlotStep(sh, th, good) == Some(m) && LedgerInv(sh)
    ensures |m.sh.displaced| == |sh.displaced| + if th.slot in sh.conns then 1 else 0
    ensures m.sh.failedPings == sh.failedPings && m.sh.abandoned == sh.abandoned && m.pc.Unlocking?
  {
  }

  lemma OtherSlotSteps(sh: Shared, th: Thread, good: bool, m: Move)
    requires UsesSlot(th.pc) && !th.pc.Storing? && SlotStep(sh, th, good) == Some(m)
    ensures m.sh.displaced == sh.displaced && m.sh.conns == sh.conns
    ensures m.sh.abandoned + (if PingFailed(m.sh, th.(pc := m.pc)) then 1 else 0) - m.sh.failedPings
            == sh.abandoned + (if PingFailed(sh, th) then 1 else 0) - sh.failedPings
  {
  }

  lemma PlainPingStep(env: Env, sh: Shared, t: nat, th: Thread, good: bool, m: Move)
    requires (th.pc.Adding? || th.pc.Closing?) && PlainStep(env, sh, t, th, good) == Some(m)
    ensures m.sh.displaced == sh.displaced && m.sh.failedPings == sh.failedPings && m.sh.abandoned == sh.abandoned
    ensures !PingFailed(sh, th) && !PingFailed(m.sh, th.(pc := m.pc))
  {
  }

  /** Every failed ping displaces a handle, or is abandoned, or is still pending. */
  lemma PingStep(env: Env, sh: Shared, t: nat, th: Thread, good: bool, m: Move)
    requires HoldsWrite(th.pc) && ThreadStep(env, sh, t, th, good) == Some(m)
    requires LedgerInv(sh)
    requires |sh.displaced| + sh.abandoned + (if PingFailed(sh, th) then 1 else 0) == sh.failedPings
    ensures |m.sh.displaced| + m.sh.abandoned + (if PingFailed(m.sh, th.(pc := m.pc)) then 1 else 0) == m.sh.failedPings
  {
    if th.pc.Storing? {
      StoreDisplaces(sh, th, good, m);
    } else if UsesSlot(th.pc) {
      OtherSlotSteps(sh, th, good, m);
    } else {
      PlainPingStep(env, sh, t, th, good, m);
    }
  }

  lemma PingStepElsewhere(env: Env, sh: Shared, t: nat, th: Thread, good: bool, m: Move)
    requires ThreadLock(sh, t, th.pc) && sh.writer != Some(t)
    requires ThreadStep(env, sh, t, th, good) == Some(m)
    ensures LedgerSame(sh, m.sh) && m.sh.failedPings == sh.failedPings && m.sh.abandoned == sh.abandoned
    ensures !PingFailed(m.sh, th.(pc := m.pc))
  {
  }

  lemma StepKeepsInv(env: Env, s: State, t: nat, good: bool, s': State)
    requires Inv(s) && Next(env, s, Step(t, good)) == Some(s')
    ensures Inv(s')
  {
    var th := s.threads[t];
    var m := ThreadStep(env, s.sh, t, th, good).value;
    NextKeepsLock(env, s, Step(t, good), s');
    assert ThreadLock(s.sh, t, th.pc);
    SelfStep(env, s.sh, t, th, good, m, Flying(s));
    StepLocks(env, s.sh, t, th, good, m);
    forall u | 0 <= u < |s'.threads| ensures FlightInv(s'.sh, s'.threads[u]) && ResultInv(s'.sh, s'.threads[u]) {
      if u != t {
        assert ThreadLock(s.sh, u, s.threads[u].pc);
        PeerStep(env, s.sh, t, th, good, m, u, s.threads[u]);
      }
    }
    if s.sh.writer == Some(t) {
      PingStep(env, s.sh, t, th, good, m);
    } else {
      PingStepElsewhere(env, s.sh, t, th, good, m);
    }
  }

  lemma NextKeepsInv(env: Env, s: State, a: Action, s': State)
    requires Inv(s) && Next(env, s, a) == Some(s')
    ensures Inv(s')
  {
    if a.Step? {
      StepKeepsInv(env, s, a.thread, a.good, s');
    } else {
      NextKeepsLock(env, s, a, s');
      assert forall t :: |s.threads| <= t < |s'.threads| ==>
                           InFlight(s'.threads[t].pc) == None && Resulting(s'.threads[t].pc) == None;
      forall u | 0 <= u < |s'.threads| ensures FlightInv(s'.sh, s'.threads[u]) && ResultInv(s'.sh, s'.threads[u]) {
        assert u < |s.threads| ==> s'.threads[u] == s.threads[u];
      }
    }
  }

  lemma {:induction false} AfterKeepsInv(env: Env, s: State, actions: seq<Action>)
    requires Inv(s)
    ensures After(env, s, actions).Some? ==> Inv(After(env, s, actions).value)
    decreases |actions|
  {
    if actions != [] && Next(env, s, actions[0]).Some? {
      NextKeepsInv(env, s, actions[0], Next(env, s, actions[0]).value);
      AfterKeepsInv(env, Next(env, s, actions[0]).value, actions[1..]);
    }
  }

  lemma ReachableInv(env: Env, s: State, actions: seq<Action>)
    requires Reachable(env, s, actions)
    ensures Inv(s)
  {
    assert Inv(INITIAL);
    AfterKeepsInv(env, INITIAL, actions);
  }

  // ---- the ledger ----

  predicate ExactlyOne(a: bool, b: bool, c: bool) {
    (a && !b && !c) || (!a && b && !c) || (!a && !b && c)
  }

  /** Outside the write lock, every handle that was ever opened is exactly one of: cached, in the one
      slot it was opened for, and open; closed once; or open but displaced, in no slot and never to be
      closed. */
  lemma HandlesPartition(env: Env, s: State, actions: seq<Action>, h: nat)
    requires Reachable(env, s, actions) && s.sh.writer == None && h < |s.sh.handles|
    ensures ExactlyOne(Cached(s.sh, h), s.sh.handles[h].closes == 1, h in s.sh.displaced)
    ensures s.sh.handles[h].closes <= 1
    ensures forall at :: at in s.sh.conns && s.sh.conns[at] == h ==> at == s.sh.handles[h].slot
  {
    ReachableInv(env, s, actions);
  }

  /** No cached handle is ever closed, at any point. */
  lemma CachedHandlesAreOpen(env: Env, s: State, actions: seq<Action>, at: Slot)
    requires Reachable(env, s, actions) && at in s.sh.conns
    ensures s.sh.conns[at] < |s.sh.handles| && s.sh.handles[s.sh.conns[at]].closes == 0
  {
    ReachableInv(env, s, actions);
  }

  /** Outside the write lock there is one displaced handle for every failed ping of a cached handle, but for
      the pings whose attempt then opened no handle that answered. */
  lemma DisplacedArePaidFor(env: Env, s: State, actions: seq<Action>)
    requires Reachable(env, s, actions) && s.sh.writer == None
    ensures |s.sh.displaced| == s.sh.failedPings - s.sh.abandoned
  {
    ReachableInv(env, s, actions);
  }

  /** When CloseAll has just finished, both maps are empty, and the handles never closed are exactly the
      displaced ones. */
  lemma AfterCloseAll(env: Env, s: State, actions: seq<Action>, t: nat, good: bool, s': State)
    requires Reachable(env, s, actions)
    requires t < |s.threads| && s.threads[t].call.CloseAll? && s.threads[t].pc.Closing?
    requires Next(env, s, Step(t, good)) == Some(s')
    ensures s'.sh.conns == map[] && s'.sh.writer == None
    ensures forall h :: 0 <= h < |s'.sh.handles| ==> (s'.sh.handles[h].closes == 0 <==> h in s'.sh.displaced)
  {
    ReachableInv(env, s, actions);
    NextKeepsInv(env, s, Step(t, good), s');
  }

  /** CloseAll has closed every handle that was ever opened if and only if every failed ping of a cached handle
      was followed by an attempt that opened no new one that answered. */
  lemma EverythingIsClosedIff(env: Env, s: State, actions: seq<Action>, t: nat, good: bool, s': State)
    requires Reachable(env, s, actions)
    requires t < |s.threads| && s.threads[t].call.CloseAll? && s.threads[t].pc.Closing?
    requires Next(env, s, Step(t, good)) == Some(s')
    ensures (forall h :: 0 <= h < |s'.sh.handles| ==> s'.sh.handles[h].closes == 1)
            <==> s'.sh.failedPings == s'.sh.abandoned
  {
    AfterCloseAll(env, s, actions, t, good, s');
    ReachableInv(env, s, actions);
    NextKeepsInv(env, s, Step(t, good), s');
    if s'.sh.displaced != {} {
      var h :| h in s'.sh.displaced;
      assert h < |s'.sh.handles| && s'.sh.handles[h].closes == 0;
    }
  }
}
