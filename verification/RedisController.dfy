/** The Redis controller (lib/cluster/controller/mem.go): one cached client, replaced under a mutex, and a
    handler that tries a command three times. */
module RedisController {
  import opened Text
  import opened Responses

  const CHECK_INTERVAL := 300_000_000_000   // five minutes in nanoseconds
  const COMMAND_ATTEMPTS := 3

  /** How often each client the controller has created was closed, the one it keeps, and when that one was
      last found alive. */
  datatype State = State(closes: seq<nat>, client: Option<nat>, lastCheck: int)

  /** What ensureConnection observes: the time it starts, whether a new client answers, and when that is. */
  datatype Check = Check(now: int, pings: bool, checkedAt: int)

  predicate Fresh(s: State, check: Check) {
    s.client.Some? && check.now - s.lastCheck < CHECK_INTERVAL
  }

  /** The state without its client. */
  function Dropped(s: State): State {
    if s.client.None? || s.client.value >= |s.closes| then s.(client := None) else
      var k := s.client.value;
      s.(closes := s.closes[k := s.closes[k] + 1], client := None)
  }

  /** The state after ensureConnection, which reports an error exactly when no client is left. */
  function Ensured(s: State, check: Check): State {
    if Fresh(s, check) then s else
      var d := Dropped(s);
      if check.pings then State(d.closes + [0], Some(|d.closes|), check.checkedAt)
      else State(d.closes + [1], None, d.lastCheck)
  }

  /** Outside the lock the client kept is the only one open, and every other one was closed once. */
  predicate Ledger(s: State) {
    (s.client.Some? ==> s.client.value < |s.closes|)
    && forall k :: 0 <= k < |s.closes| ==> s.closes[k] == if s.client == Some(k) then 0 else 1
  }

  /** What requests do to the client, each under the mutex. */
  datatype Action = Ensure(check: Check) | Close

  function Step(s: State, a: Action): State {
    match a
    case Ensure(check) => Ensured(s, check)
    case Close => Dropped(s)
  }

  function After(s: State, actions: seq<Action>): State
    decreases |actions|
  {
    if actions == [] then s else After(Step(s, actions[0]), actions[1..])
  }

  lemma StepKeepsLedger(s: State, a: Action)
    requires Ledger(s)
    ensures Ledger(Step(s, a)) && |Step(s, a).closes| >= |s.closes|
  {
  }

  /** However requests interleave, at most one client is open, it is the one kept, and no client is closed
      twice. */
  lemma {:induction false} RunsKeepLedger(s: State, actions: seq<Action>)
    requires Ledger(s)
    ensures Ledger(After(s, actions)) && |After(s, actions).closes| >= |s.closes|
    decreases |actions|
  {
    if actions != [] {
      StepKeepsLedger(s, actions[0]);
      RunsKeepLedger(Step(s, actions[0]), actions[1..]);
    }
  }

  /** A client is never kept again after it was closed. */
  lemma {:induction false} ClosedStaysClosed(s: State, actions: seq<Action>, k: nat)
    requires Ledger(s) && k < |s.closes| && s.client != Some(k)
    ensures After(s, actions).client != Some(k)
    decreases |actions|
  {
    if actions != [] {
      StepKeepsLedger(s, actions[0]);
      ClosedStaysClosed(Step(s, actions[0]), actions[1..], k);
    }
  }

  /** A request that has ensured its connection finds the same client when it sends its command exactly when
      everything other requests did in between was to find that client recently checked. */
  lemma {:induction false} ClientIsStillThereIff(s: State, actions: seq<Action>)
    requires Ledger(s) && s.client.Some?
    ensures After(s, actions).client == s.client
            <==> forall i :: 0 <= i < |actions| ==> actions[i].Ensure? && Fresh(s, actions[i].check)
    decreases |actions|
  {
    if actions != [] {
      var a, rest := actions[0], actions[1..];
      assert forall i :: 0 <= i < |rest| ==> rest[i] == actions[i + 1];
      if a.Ensure? && Fresh(s, a.check) {
        ClientIsStillThereIff(s, rest);
        assert forall i :: 0 < i < |actions| ==> actions[i] == rest[i - 1];
      } else {
        StepKeepsLedger(s, a);
        ClosedStaysClosed(Step(s, a), rest, s.client.value);
      }
    }
  }

  // ---- how long a client lasts ----

  /** The request creates the client that is kept after it. */
  predicate Creates(s: State, a: Action) {
    a.Ensure? && Step(s, a).client == Some(|s.closes|)
  }

  /** A client found alive at some time is kept, unchanged, by every request that starts within the next five
      minutes, and given up, closed once, by the first that starts later. */
  lemma ClientLastsFiveMinutes(s: State, check: Check, next: Check)
    requires Ledger(s) && Creates(s, Ensure(check))
    ensures var s', u := Ensured(s, check), Ensured(Ensured(s, check), next);
            && (next.now < check.checkedAt + 300_000_000_000 ==> u == s' && u.closes[|s.closes|] == 0)
            && (next.now >= check.checkedAt + 300_000_000_000 ==>
                  u.closes[|s.closes|] == 1 && u.client == if next.pings then Some(|s.closes| + 1) else None)
  {
  }

  /** Without a client, one that answers is created. */
  lemma FirstClientIsCreated(s: State, check: Check)
    requires s.client.None?
    ensures Creates(s, Ensure(check)) <==> check.pings
  {
  }

  /** When the clients are created, as they are found alive. */
  function CreationTimes(s: State, actions: seq<Action>): seq<int>
    decreases |actions|
  {
    if actions == [] then []
    else
      (if Creates(s, actions[0]) then [actions[0].check.checkedAt] else [])
      + CreationTimes(Step(s, actions[0]), actions[1..])
  }

  /** While nobody closes the client and every new one answers, no two are created within five minutes, however
      many requests come in. */
  lemma {:induction false} ClientsAreFarBetween(s: State, actions: seq<Action>)
    requires Ledger(s)
    requires forall i :: 0 <= i < |actions| ==>
                           actions[i].Ensure? && actions[i].check.pings
                           && actions[i].check.now <= actions[i].check.checkedAt
    ensures var times := CreationTimes(s, actions);
            && (s.client.Some? && times != [] ==> times[0] >= s.lastCheck + 300_000_000_000)
            && forall i :: 0 <= i < |times| - 1 ==> times[i + 1] >= times[i] + 300_000_000_000
    decreases |actions|
  {
    if actions != [] {
      var s', rest := Step(s, actions[0]), actions[1..];
      StepKeepsLedger(s, actions[0]);
      ClientsAreFarBetween(s', rest);
      var later := CreationTimes(s', rest);
      if Creates(s, actions[0]) {
        var t := actions[0].check.checkedAt;
        assert CreationTimes(s, actions) == [t] + later;
        forall i | 0 <= i < |later| ensures ([t] + later)[i + 1] >= ([t] + later)[i] + 300_000_000_000 {
          assert i > 0 ==> later[(i - 1) + 1] >= later[i - 1] + 300_000_000_000;
        }
      } else {
        assert CreationTimes(s, actions) == later;
      }
    }
  }

  // ---- commands ----

  datatype Outcome = Reply(value: string) | ConnectionError | OtherError

  /** One attempt at the command, and what ensureConnection observes if it follows. */
  datatype Try = Try(outcome: Outcome, check: Check)

  /** The clients the command was sent to, the response it comes to, and the state it leaves. */
  datatype Commands = Commands(sentTo: seq<nat>, response: Response, state: State)

  function Execute(s: State, tries: seq<Try>): (run: Commands)
    requires tries != [] && s.client.Some?
    ensures 1 <= |run.sentTo| <= |tries|
    decreases |tries|
  {
    var to := [s.client.value];
    match tries[0].outcome
    case Reply(value) => Commands(to, Response(Good, Result(value)), s)
    case OtherError => Commands(to, FAILURE, s)
    case ConnectionError =>
      var s' := Ensured(s, tries[0].check);
      if s'.client.None? || |tries| == 1 then Commands(to, FAILURE, s')
      else
        var rest := Execute(s', tries[1..]);
        Commands(to + rest.sentTo, rest.response, rest.state)
  }

  /** Later attempts go to the same client or to a newer one, and the ledger holds. */
  lemma {:induction false} CommandsGoForward(s: State, tries: seq<Try>)
    requires tries != [] && s.client.Some? && Ledger(s)
    ensures var run := Execute(s, tries);
            Ledger(run.state) && |run.state.closes| >= |s.closes|
            && run.sentTo[0] == s.client.value
            && forall i, j :: 0 <= i < j < |run.sentTo| ==> run.sentTo[i] <= run.sentTo[j] < |run.state.closes|
    decreases |tries|
  {
    var s' := Ensured(s, tries[0].check);
    StepKeepsLedger(s, Ensure(tries[0].check));
    if tries[0].outcome.ConnectionError? && s'.client.Some? && |tries| > 1 {
      CommandsGoForward(s', tries[1..]);
      var rest := Execute(s', tries[1..]);
      assert s.client.value <= s'.client.value;
      forall i, j | 0 <= i < j < |Execute(s, tries).sentTo|
        ensures Execute(s, tries).sentTo[i] <= Execute(s, tries).sentTo[j] < |rest.state.closes|
      {
        assert Execute(s, tries).sentTo[j] == rest.sentTo[j - 1];
        if i > 0 {
          assert Execute(s, tries).sentTo[i] == rest.sentTo[i - 1];
        }
        assert j > 1 ==> rest.sentTo[0] <= rest.sentTo[j - 1];
      }
    }
  }

  /** The client was checked recently enough for every attempt. */
  predicate AllFresh(s: State, tries: seq<Try>) {
    forall k :: 0 <= k < |tries| ==> tries[k].outcome.ConnectionError? && Fresh(s, tries[k].check)
  }

  /** After connection errors soon enough after the last check, attempt k meets one more, too late for that. */
  predicate FindsStale(s: State, tries: seq<Try>, k: nat) {
    k < |tries| && tries[k].outcome.ConnectionError? && !Fresh(s, tries[k].check)
    && forall j :: 0 <= j < k ==> tries[j].outcome.ConnectionError? && Fresh(s, tries[j].check)
  }

  /** The retries touch the client if and only if, in an unbroken run of connection errors, one comes when the
      last check is five minutes old: the errors before it are followed by no reconnect. */
  lemma {:induction false} ReconnectsIff(s: State, tries: seq<Try>)
    requires tries != [] && s.client.Some? && Ledger(s)
    ensures Execute(s, tries).state != s <==> exists k: nat :: FindsStale(s, tries, k)
    decreases |tries|
  {
    var t, rest := tries[0], tries[1..];
    if t.outcome.ConnectionError? && !Fresh(s, t.check) {
      assert FindsStale(s, tries, 0);
      StaleIsReplaced(s, tries);
    } else if t.outcome.ConnectionError? {
      if |tries| > 1 {
        ReconnectsIff(s, rest);
      }
      if k: nat :| FindsStale(s, rest, k) {
        StaleLater(s, tries, k);
      }
      if k: nat :| FindsStale(s, tries, k) {
        StaleLater(s, tries, k - 1);
      }
    }
  }

  lemma StaleLater(s: State, tries: seq<Try>, k: nat)
    requires tries != [] && tries[0].outcome.ConnectionError? && Fresh(s, tries[0].check)
    ensures FindsStale(s, tries, k + 1) <==> FindsStale(s, tries[1..], k)
  {
    var rest := tries[1..];
    assert forall j :: 0 < j <= k + 1 && j < |tries| ==> tries[j] == rest[j - 1];
    assert forall j :: 0 <= j < k && j < |rest| ==> rest[j] == tries[j + 1];
  }

  lemma StaleIsReplaced(s: State, tries: seq<Try>)
    requires tries != [] && s.client.Some? && Ledger(s)
    requires tries[0].outcome.ConnectionError? && !Fresh(s, tries[0].check)
    ensures Execute(s, tries).state != s
  {
    var s' := Ensured(s, tries[0].check);
    StepKeepsLedger(s, Ensure(tries[0].check));
    assert |s'.closes| > |s.closes|;
    if s'.client.Some? && |tries| > 1 {
      CommandsGoForward(s', tries[1..]);
    }
  }

  /** Within five minutes of the last check, all three attempts of a command that keeps meeting connection
      errors go to the one client. */
  lemma {:induction false} FreshRetriesDoNotReconnect(s: State, tries: seq<Try>)
    requires tries != [] && s.client.Some? && AllFresh(s, tries)
    ensures var run := Execute(s, tries);
            run.state == s && run.response == FAILURE
            && |run.sentTo| == |tries| && forall i :: 0 <= i < |tries| ==> run.sentTo[i] == s.client.value
    decreases |tries|
  {
    if |tries| > 1 {
      FreshRetriesDoNotReconnect(s, tries[1..]);
    }
  }

  function Checks(tries: seq<Try>): seq<Action> {
    seq(|tries|, i requires 0 <= i < |tries| => Ensure(tries[i].check))
  }

  /** Attempt j meets a connection error, and the checks up to the one after it leave a client. */
  predicate LeavesClient(s: State, tries: seq<Try>, j: nat)
    requires j < |tries|
  {
    tries[j].outcome.ConnectionError? && After(s, Checks(tries[..j + 1])).client.Some?
  }

  /** Attempt k gets a reply, and before it there are only connection errors that leave a client. */
  predicate RepliesAt(s: State, tries: seq<Try>, k: nat) {
    k < |tries| && tries[k].outcome.Reply? && forall j :: 0 <= j < k ==> LeavesClient(s, tries, j)
  }

  lemma LeavesAtOnce(s: State, tries: seq<Try>)
    requires tries != []
    ensures LeavesClient(s, tries, 0) <==> tries[0].outcome.ConnectionError? && Ensured(s, tries[0].check).client.Some?
  {
    var checks := Checks(tries[..0 + 1]);
    assert checks[0] == Ensure(tries[0].check) && checks[1..] == [];
    assert After(s, checks) == After(Ensured(s, tries[0].check), []);
  }

  lemma LeavesLater(s: State, tries: seq<Try>, j: nat)
    requires j + 1 < |tries|
    ensures LeavesClient(s, tries, j + 1) <==> LeavesClient(Ensured(s, tries[0].check), tries[1..], j)
  {
    var checks := Checks(tries[..j + 2]);
    assert checks[0] == Ensure(tries[0].check) && checks[1..] == Checks(tries[1..][..j + 1]);
  }

  lemma RepliesLater(s: State, tries: seq<Try>, k: nat)
    requires tries != [] && tries[0].outcome.ConnectionError?
    ensures var s' := Ensured(s, tries[0].check);
            RepliesAt(s, tries, k + 1) <==> s'.client.Some? && RepliesAt(s', tries[1..], k)
  {
    var s', rest := Ensured(s, tries[0].check), tries[1..];
    if k + 1 < |tries| {
      LeavesAtOnce(s, tries);
      forall j: nat | j < k ensures LeavesClient(s, tries, j + 1) <==> LeavesClient(s', rest, j) {
        LeavesLater(s, tries, j);
      }
      assert RepliesAt(s, tries, k + 1) ==> LeavesClient(s, tries, 0);
      forall j: nat | s'.client.Some? && RepliesAt(s', rest, k) && j < k + 1 ensures LeavesClient(s, tries, j) {
        assert j > 0 ==> LeavesClient(s', rest, j - 1) && LeavesClient(s, tries, (j - 1) + 1);
      }
    }
  }

  /** A reply reaches the client if and only if some attempt gets one and all before it meet connection errors
      after which there still is a client; that reply is the response. */
  lemma {:induction false} ReplyIsServedIff(s: State, tries: seq<Try>)
    requires tries != [] && s.client.Some?
    ensures Execute(s, tries).response.status == Good <==> exists k: nat :: RepliesAt(s, tries, k)
    ensures forall k: nat :: RepliesAt(s, tries, k) ==>
                               Execute(s, tries).response == Response(Good, Result(tries[k].outcome.value))
    decreases |tries|
  {
    var t, rest := tries[0], tries[1..];
    if t.outcome.ConnectionError? {
      var s' := Ensured(s, t.check);
      if s'.client.Some? && |tries| > 1 {
        ReplyIsServedIff(s', rest);
        if k: nat :| RepliesAt(s', rest, k) {
          RepliesLater(s, tries, k);
        }
      }
      forall k: nat | RepliesAt(s, tries, k)
        ensures Execute(s, tries).response == Response(Good, Result(tries[k].outcome.value))
      {
        RepliesLater(s, tries, k - 1);
      }
    } else {
      assert t.outcome.Reply? ==> RepliesAt(s, tries, 0);
      forall k: nat | RepliesAt(s, tries, k) ensures k == 0 {
        assert k > 0 ==> LeavesClient(s, tries, 0);
      }
    }
  }

  datatype RedisRequest = RedisRequest(check: Check, binds: bool, bindSent: bool, tries: seq<Try>, sent: bool)

  datatype Handled = Handled(writes: seq<Write>, err: bool, state: State)

  function HandledCommand(s: State, req: RedisRequest): Handled
    requires req.tries != []
  {
    var s' := Ensured(s, req.check);
    if s'.client.None? then Handled([Write(FAILURE, req.sent)], !req.sent, s')
    else if !req.binds && !req.bindSent then Handled([Write(UNBOUND, false)], true, s')
    else
      var run := Execute(s', req.tries);
      var first := if req.binds then [] else [Write(UNBOUND, true)];
      Handled(first + [Write(run.response, req.sent)], !req.sent, run.state)
  }

  /** A command is responded to once and only once, unless its body does not bind, the client was told so,
      and there is a connection: then a second response follows the first. */
  lemma CommandIsAnsweredOnceIff(s: State, req: RedisRequest)
    requires req.tries != []
    ensures var h := HandledCommand(s, req);
            (AnsweredOnce(h.writes) <==> req.binds || !req.bindSent || Ensured(s, req.check).client.None?)
            && (AnsweredOnce(h.writes) <==> |h.writes| == 1)
            && (!h.err <==> Answered(h.writes))
  {
    var h := HandledCommand(s, req);
    if !req.binds && req.bindSent && Ensured(s, req.check).client.Some? {
      assert h.writes[0].ok;
    }
  }

  /** The last response written to a command whose body binds is the value of its reply, if there is a client
      and the command gets one, and else the failure. */
  lemma CommandIsShown(s: State, req: RedisRequest)
    requires |req.tries| == 3 && req.binds
    ensures var h := HandledCommand(s, req); var s' := Ensured(s, req.check);
            |h.writes| == 1 && h.writes[0].ok == req.sent
            && (h.writes[0].response.status == Good
                <==> s'.client.Some? && exists k: nat :: RepliesAt(s', req.tries, k))
            && (s'.client.Some? ==>
                  forall k: nat :: RepliesAt(s', req.tries, k) ==>
                                     h.writes[0].response == Response(Good, Result(req.tries[k].outcome.value)))
            && (h.writes[0].response.status != Good ==>
                  h.writes[0].response == Response(InternalError, Message("Internal Server Error")))
  {
    var s' := Ensured(s, req.check);
    if s'.client.Some? {
      ReplyIsServedIff(s', req.tries);
      OtherwiseFailure(s', req.tries);
    }
  }

  lemma {:induction false} OtherwiseFailure(s: State, tries: seq<Try>)
    requires tries != [] && s.client.Some?
    ensures var response := Execute(s, tries).response;
            response.status != Good ==> response == Response(InternalError, Message("Internal Server Error"))
    decreases |tries|
  {
    var s' := Ensured(s, tries[0].check);
    if tries[0].outcome.ConnectionError? && s'.client.Some? && |tries| > 1 {
      OtherwiseFailure(s', tries[1..]);
    }
  }

  class RedisQueryController {
    var client: Option<nat>
    var lastCheck: int
    var closes: seq<nat>

    constructor ()
      ensures View() == State([], None, 0)
    {
      client, lastCheck, closes := None, 0, [];
    }

    ghost function View(): State
      reads this
    {
      State(closes, client, lastCheck)
    }

    method CloseClient(k: nat)
      requires k < |closes|
      modifies this`closes
      ensures closes == old(closes)[k := old(closes)[k] + 1]
    {
      closes := closes[k := closes[k] + 1];
    }

    /** The client is forgotten whether or not closing it fails. */
    method Close(closeFails: bool) returns (err: bool)
      requires Ledger(View())
      modifies this
      ensures Ledger(View()) && View() == Step(old(View()), Action.Close)
      ensures err <==> old(client).Some? && closeFails
    {
      err := false;
      if client.Some? {
        CloseClient(client.value);
        err := closeFails;
        client := None;
      }
    }

    method EnsureConnection(check: Check) returns (err: bool)
      requires Ledger(View())
      modifies this
      ensures Ledger(View()) && View() == Ensured(old(View()), check)
      ensures err <==> client.None?
    {
      if client.Some? && check.now - lastCheck < CHECK_INTERVAL {
        return false;
      }
      if client.Some? {
        CloseClient(client.value);
        client := None;
      }
      var k := |closes|;
      closes := closes + [0];
      if !check.pings {
        CloseClient(k);
        return true;
      }
      client := Some(k);
      lastCheck := check.checkedAt;
      err := false;
    }

    /** The handler's loop, up to the response it sends. */
    method RetryCommand(c: Context, req: RedisRequest) returns (err: bool, sentTo: seq<nat>)
      requires Ledger(View()) && client.Some? && |req.tries| == 3
      modifies this, c
      ensures Ledger(View()) && err == !req.sent
      ensures var run := Execute(old(View()), req.tries);
              View() == run.state && sentTo == run.sentTo && c.log == old(c.log) + [Write(run.response, req.sent)]
    {
      sentTo := [];
      ghost var all := Execute(View(), req.tries);
      assert req.tries[0..] == req.tries && [] + all.sentTo == all.sentTo;
      var attempt := 0;
      while attempt < COMMAND_ATTEMPTS
        invariant 0 <= attempt <= COMMAND_ATTEMPTS && Ledger(View()) && client.Some? && c.log == old(c.log)
        invariant if attempt == COMMAND_ATTEMPTS then all == Commands(sentTo, FAILURE, View())
                  else StillToRun(all, sentTo, View(), req.tries[attempt..])
      {
        var t := req.tries[attempt];
        OneMoreTry(all, sentTo, View(), req.tries[attempt..]);
        assert req.tries[attempt..][1..] == req.tries[attempt + 1..];
        sentTo := sentTo + [client.value];
        match t.outcome {
          case Reply(value) =>
            err := c.Send(Response(Good, Result(value)), req.sent);
            return;
          case OtherError =>
            err := c.Send(FAILURE, req.sent);
            return;
          case ConnectionError =>
            var failed := EnsureConnection(t.check);
            if failed {
              err := c.Send(FAILURE, req.sent);
              return;
            }
        }
        attempt := attempt + 1;
      }
      err := c.Send(FAILURE, req.sent);
    }

    method QueryHandler(c: Context, req: RedisRequest) returns (err: bool)
      requires Ledger(View()) && |req.tries| == 3
      modifies this, c
      ensures Ledger(View()) && View() == HandledCommand(old(View()), req).state
      ensures err == HandledCommand(old(View()), req).err
      ensures c.log == old(c.log) + HandledCommand(old(View()), req).writes
    {
      err := EnsureConnection(req.check);
      if err {
        err := c.Send(FAILURE, req.sent);
        return;
      }
      err := c.BindBody(req.binds, req.bindSent);
      if err {
        return;
      }
      var sentTo;
      err, sentTo := RetryCommand(c, req);
    }
  }

  /** What is left of the loop: the remaining attempts, run from `s`, complete the whole. */
  ghost predicate StillToRun(all: Commands, sentTo: seq<nat>, s: State, tries: seq<Try>) {
    tries != [] && s.client.Some?
    && var rest := Execute(s, tries);
       all == Commands(sentTo + rest.sentTo, rest.response, rest.state)
  }

  lemma OneMoreTry(all: Commands, sentTo: seq<nat>, s: State, tries: seq<Try>)
    requires StillToRun(all, sentTo, s, tries)
    ensures var now := sentTo + [s.client.value]; var t := tries[0]; var s' := Ensured(s, t.check);
            match t.outcome
            case Reply(value) => all == Commands(now, Response(Good, Result(value)), s)
            case OtherError => all == Commands(now, FAILURE, s)
            case ConnectionError =>
              if s'.client.None? || |tries| == 1 then all == Commands(now, FAILURE, s')
              else StillToRun(all, now, s', tries[1..])
  {
    var s' := Ensured(s, tries[0].check);
    if tries[0].outcome.ConnectionError? && s'.client.Some? && |tries| > 1 {
      var rest := Execute(s', tries[1..]);
      assert sentTo + ([s.client.value] + rest.sentTo) == sentTo + [s.client.value] + rest.sentTo;
    }
  }
}
