/** What a request for a SQL query or the cluster's status is answered with (lib/cluster/controller/sql.go,
    lib/cluster/tables/connection.go, lib/cluster/server/http.go). A handler writes its response inside an
    operation that is retried, so the question is how often it answers and how often it asks the database. */
module Responses {
  import opened Text
  import Backoff

  const READ_ATTEMPTS := 3

  // ---- responses ----

  datatype Status = Good | BadRequest | InternalError

  datatype Json = Null | Str(text: string) | Other(id: int)

  datatype Value = NoValue | Bytes(text: string) | Typed(id: int)

  datatype Body =
    | Message(text: string)
    | Result(value: string)
    | Results(rows: seq<map<string, Json>>)
    | Records(records: seq<seq<Value>>)

  datatype Response = Response(status: Status, body: Body)

  /** A response, and whether writing it succeeded. */
  datatype Write = Write(response: Response, ok: bool)

  const FAILURE := Response(InternalError, Message("Internal Server Error"))
  const UNBOUND := Response(BadRequest, Message("invalid request body"))
  const EMPTY_QUERY := Response(BadRequest, Message("Query cannot be empty"))

  /** No response follows one that was written. */
  predicate AnsweredOnce(log: seq<Write>) {
    forall i :: 0 <= i < |log| - 1 ==> !log[i].ok
  }

  predicate Answered(log: seq<Write>) {
    log != [] && log[|log| - 1].ok
  }

  /** The exchange of one request. */
  class Context {
    var log: seq<Write>

    constructor ()
      ensures log == []
    {
      log := [];
    }

    method Send(response: Response, sent: bool) returns (err: bool)
      modifies this
      ensures err == !sent && log == old(log) + [Write(response, sent)]
    {
      log := log + [Write(response, sent)];
      err := !sent;
    }

    /** A body that does not bind is answered at once, and the caller is told of an error only when that
        answer could not be written. */
    method BindBody(binds: bool, sent: bool) returns (err: bool)
      modifies this
      ensures err <==> !binds && !sent
      ensures log == old(log) + if binds then [] else [Write(UNBOUND, sent)]
    {
      err := false;
      if !binds {
        err := Send(UNBOUND, sent);
      }
    }
  }

  // ---- the retried operation ----

  /** One attempt of an operation: the response it writes, if any, whether the write succeeds, and whether
      the wait that follows a failure ends in the request's cancellation. */
  datatype Attempt = Attempt(response: Option<Response>, sent: bool, cancelled: bool)

  predicate Succeeds(a: Attempt) {
    a.response.Some? && a.sent
  }

  /** What became of an operation: the responses it wrote, how often it was run, whether it failed. */
  datatype Run = Run(writes: seq<Write>, attempts: nat, err: bool)

  function Writes(a: Attempt): seq<Write> {
    if a.response.Some? then [Write(a.response.value, a.sent)] else []
  }

  /** RetryOperation on a connection it has found: every error is tried again, permanent or not. */
  function Retried(tries: seq<Attempt>): Run
    requires tries != []
  {
    var a := tries[0];
    if Succeeds(a) then Run(Writes(a), 1, false)
    else if |tries| == 1 || a.cancelled then Run(Writes(a), 1, true)
    else
      var rest := Retried(tries[1..]);
      Run(Writes(a) + rest.writes, 1 + rest.attempts, rest.err)
  }

  /** At most one response is written, nothing follows it, and the operation succeeds exactly when it is. */
  lemma {:induction false} OperationAnswersOnce(tries: seq<Attempt>)
    requires tries != []
    ensures AnsweredOnce(Retried(tries).writes) && (!Retried(tries).err <==> Answered(Retried(tries).writes))
  {
    var a := tries[0];
    if !(Succeeds(a) || |tries| == 1 || a.cancelled) {
      OperationAnswersOnce(tries[1..]);
      ThenAnswers(Writes(a), Retried(tries[1..]).writes);
    }
  }

  lemma ThenAnswers(writes: seq<Write>, rest: seq<Write>)
    requires forall i :: 0 <= i < |writes| ==> !writes[i].ok
    requires AnsweredOnce(rest)
    ensures AnsweredOnce(writes + rest) && (Answered(writes + rest) <==> Answered(rest))
  {
    forall i | 0 <= i < |writes + rest| - 1 ensures !(writes + rest)[i].ok {
      if i >= |writes| {
        assert !rest[i - |writes|].ok;
      }
    }
  }

  /** Attempt n is made exactly when none before it succeeded or was cancelled: an operation whose response
      cannot be written runs again, whatever it has already done to the database. */
  lemma {:induction false} AttemptIsMadeIff(tries: seq<Attempt>, n: nat)
    requires n < |tries|
    ensures n < Retried(tries).attempts <==> forall k :: 0 <= k < n ==> !tries[k].cancelled && !Succeeds(tries[k])
    ensures 1 <= Retried(tries).attempts <= |tries|
  {
    var rest := tries[1..];
    if |tries| > 1 {
      AttemptIsMadeIff(rest, if n == 0 then 0 else n - 1);
      if n > 0 {
        assert tries[0].cancelled || Succeeds(tries[0])
               || forall k :: 0 < k < n ==> tries[k] == rest[k - 1];
      }
    }
  }

  lemma {:induction false} LastAttemptDecides(tries: seq<Attempt>)
    requires tries != []
    ensures 1 <= Retried(tries).attempts <= |tries|
    ensures Retried(tries).err <==> !Succeeds(tries[Retried(tries).attempts - 1])
  {
    if !(Succeeds(tries[0]) || |tries| == 1 || tries[0].cancelled) {
      LastAttemptDecides(tries[1..]);
      assert tries[1..][Retried(tries[1..]).attempts - 1] == tries[Retried(tries).attempts - 1];
    }
  }

  /** What is said here of a retried operation is what the backoff loop does: any outcome that loop's
      contract allows makes as many calls and ends the same way. */
  lemma RetriedAsBackoff(b: Backoff.BackoffConfig, tries: seq<Attempt>, r: Backoff.RetryResult, calls: nat)
    requires |tries| == b.maxAttempts && 1 <= calls <= b.maxAttempts
    requires forall k :: 0 <= k < calls - 1 ==> !Succeeds(tries[k]) && !tries[k].cancelled
    requires r == Backoff.Nil <==> Succeeds(tries[calls - 1])
    requires r == Backoff.Cancelled <==> !Succeeds(tries[calls - 1]) && calls < b.maxAttempts
    requires r == Backoff.Cancelled ==> tries[calls - 1].cancelled
    ensures calls == Retried(tries).attempts && (r != Backoff.Nil <==> Retried(tries).err)
  {
    LastAttemptDecides(tries);
    AttemptIsMadeIff(tries, calls - 1);
    if calls < |tries| {
      AttemptIsMadeIff(tries, calls);
      assert tries[calls - 1].cancelled || Succeeds(tries[calls - 1]);
    }
  }

  /** No attempt that is made writes anything. */
  predicate Silent(tries: seq<Attempt>)
    requires tries != []
  {
    tries[0].response == None && (|tries| == 1 || tries[0].cancelled || Silent(tries[1..]))
  }

  lemma {:induction false} NothingWrittenIff(tries: seq<Attempt>)
    requires tries != []
    ensures Retried(tries).writes == [] <==> Silent(tries)
  {
    if |tries| > 1 {
      NothingWrittenIff(tries[1..]);
    }
  }

  // ---- rows ----

  function ToJson(v: Value): Json {
    match v
    case NoValue => Null
    case Bytes(text) => Str(text)
    case Typed(id) => Other(id)
  }

  /** A row as scanned, or None where the driver cannot deliver it. */
  type Row = Option<seq<Value>>

  /** The database's answer to a query; `broken` when the iteration over the rows ends in an error. */
  datatype Reply =
    | QueryFails
    | NoRows
    | NoColumns
    | Table(columns: seq<string>, rows: seq<Row>, broken: bool)

  /** Scan succeeds when the row has one value per destination. */
  predicate Scans(row: Row, columns: nat) {
    row.Some? && |row.value| == columns
  }

  function JsonRow(columns: seq<string>, values: seq<Value>): map<string, Json>
    requires |columns| == |values|
  {
    if columns == [] then map[] else
      var last := |columns| - 1;
      JsonRow(columns[..last], values[..last])[columns[last] := ToJson(values[last])]
  }

  predicate Distinct(columns: seq<string>) {
    forall i, j :: 0 <= i < j < |columns| ==> columns[i] != columns[j]
  }

  /** A row object has the columns' names for its keys and, under each, the value at the last column of
      that name. */
  lemma {:induction false} LastColumnWins(columns: seq<string>, values: seq<Value>, j: nat)
    requires |columns| == |values| && j < |columns|
    requires forall k :: j < k < |columns| ==> columns[k] != columns[j]
    ensures columns[j] in JsonRow(columns, values) && JsonRow(columns, values)[columns[j]] == ToJson(values[j])
  {
    var last := |columns| - 1;
    if j < last {
      LastColumnWins(columns[..last], values[..last], j);
    }
  }

  /** Every column reaches the client exactly when no two share a name. */
  lemma {:induction false} NoColumnIsLostIff(columns: seq<string>, values: seq<Value>)
    requires |columns| == |values|
    ensures forall name :: name in JsonRow(columns, values) <==> name in columns
    ensures |JsonRow(columns, values)| <= |columns|
    ensures |JsonRow(columns, values)| == |columns| <==> Distinct(columns)
  {
    if columns != [] {
      var last := |columns| - 1;
      var init, row := columns[..last], JsonRow(columns[..last], values[..last]);
      NoColumnIsLostIff(init, values[..last]);
      assert columns == init + [columns[last]];
      assert JsonRow(columns, values).Keys == row.Keys + {columns[last]};
      if columns[last] in init {
        assert row.Keys + {columns[last]} == row.Keys;
        var i :| 0 <= i < last && init[i] == columns[last];
        assert columns[i] == columns[last];
      } else {
        assert Distinct(columns) <==> Distinct(init);
      }
    }
  }

  // ---- the query handler ----

  /** One attempt to read: what the database replies, whether the response can be written, whether the
      request is cancelled during the wait that may follow. */
  datatype ReadAnswer<R> = ReadAnswer(reply: R, sent: bool, cancelled: bool)

  predicate Readable(reply: Reply) {
    reply.Table? && !reply.broken && forall i :: 0 <= i < |reply.rows| ==> Scans(reply.rows[i], |reply.columns|)
  }

  function JsonRows(columns: seq<string>, rows: seq<Row>): seq<map<string, Json>>
    requires forall i :: 0 <= i < |rows| ==> Scans(rows[i], |columns|)
  {
    seq(|rows|, i requires 0 <= i < |rows| && Scans(rows[i], |columns|) => JsonRow(columns, rows[i].value))
  }

  /** A query that fails is not answered within the attempt. */
  function QueryResponse(reply: Reply): Option<Response> {
    if reply.QueryFails? then None
    else if Readable(reply) then Some(Response(Good, Results(JsonRows(reply.columns, reply.rows))))
    else Some(FAILURE)
  }

  function QueryTries(answers: seq<ReadAnswer<Reply>>): seq<Attempt> {
    seq(|answers|, k requires 0 <= k < |answers| => QueryTry(answers[k]))
  }

  function QueryTry(a: ReadAnswer<Reply>): Attempt {
    Attempt(QueryResponse(a.reply), a.sent, a.cancelled)
  }

  datatype QueryRequest = QueryRequest(binds: bool, bindSent: bool, blank: bool, blankSent: bool,
                                       connected: bool, answers: seq<ReadAnswer<Reply>>)

  /** The handler from the point where the body is taken to be bound. */
  function AfterBinding(req: QueryRequest): Run
    requires req.answers != []
  {
    if req.blank then Run([Write(EMPTY_QUERY, req.blankSent)], 0, !req.blankSent)
    else if !req.connected then Run([], 0, true)
    else Retried(QueryTries(req.answers))
  }

  function HandledQuery(req: QueryRequest): Run
    requires req.answers != []
  {
    if req.binds then AfterBinding(req)
    else if !req.bindSent then Run([Write(UNBOUND, false)], 0, true)
    else AfterBinding(req).(writes := [Write(UNBOUND, true)] + AfterBinding(req).writes)
  }

  /** A request whose body binds is answered at most once, and the handler returns nil exactly when it is. */
  lemma BoundQueryIsAnsweredOnce(req: QueryRequest)
    requires req.answers != [] && req.binds
    ensures AnsweredOnce(HandledQuery(req).writes)
    ensures !HandledQuery(req).err <==> Answered(HandledQuery(req).writes)
  {
    OperationAnswersOnce(QueryTries(req.answers));
  }

  /** In general a response follows another that was written exactly when the body does not bind, the client
      has been told so, and the rest of the handler writes anything: BindBody reports no error then. */
  lemma QueryIsAnsweredOnceIff(req: QueryRequest)
    requires req.answers != []
    ensures AnsweredOnce(HandledQuery(req).writes)
            <==> req.binds || !req.bindSent
                 || (!req.blank && (!req.connected || Silent(QueryTries(req.answers))))
  {
    var run := HandledQuery(req);
    if req.binds {
      BoundQueryIsAnsweredOnce(req);
    } else if req.bindSent {
      NothingWrittenIff(QueryTries(req.answers));
      assert run.writes[0].ok;
      assert AnsweredOnce(run.writes) <==> |run.writes| == 1;
    }
  }

  /** With a body that does not bind and leaves the query empty, two responses are written. */
  lemma UnboundBodyIsAnsweredTwice(req: QueryRequest)
    requires req.answers != [] && !req.binds && req.bindSent && req.blank && req.blankSent
    ensures HandledQuery(req) == Run([Write(UNBOUND, true), Write(EMPTY_QUERY, true)], 0, false)
  {
    assert [Write(UNBOUND, true)] + [Write(EMPTY_QUERY, true)] == [Write(UNBOUND, true), Write(EMPTY_QUERY, true)];
  }

  /** A query that attempt n gets a table for is run once more if and only if the response with its rows cannot
      be written and the request is not cancelled; attempt n is made when no attempt before it succeeds or is
      cancelled. */
  lemma UnsentResultIsQueriedAgain(req: QueryRequest, n: nat)
    requires |req.answers| == 3 && req.binds && !req.blank && req.connected
    requires n < READ_ATTEMPTS - 1 && Readable(req.answers[n].reply)
    requires forall k :: 0 <= k < n ==> !req.answers[k].cancelled && !Succeeds(QueryTry(req.answers[k]))
    ensures HandledQuery(req).attempts > n
    ensures HandledQuery(req).attempts > n + 1 <==> !req.answers[n].sent && !req.answers[n].cancelled
  {
    var tries := QueryTries(req.answers);
    AttemptIsMadeIff(tries, n);
    AttemptIsMadeIff(tries, n + 1);
    assert tries[n] == QueryTry(req.answers[n]);
  }

  // ---- what a client is answered with ----

  /** The object for a row: under every column's name the value of the last column of that name, bytes as text
      and no value as null, and nothing else. */
  ghost predicate ObjectShows(columns: seq<string>, values: seq<Value>, object': map<string, Json>) {
    && |columns| == |values|
    && (forall name :: name in object' ==> name in columns)
    && (forall j :: 0 <= j < |columns| && (forall k :: j < k < |columns| ==> columns[k] != columns[j]) ==>
                      && columns[j] in object'
                      && match values[j]
                         case NoValue => object'[columns[j]] == Null
                         case Bytes(text) => object'[columns[j]] == Str(text)
                         case Typed(id) => object'[columns[j]] == Other(id))
  }

  /** The response for a table: one object for each row, in the order of the rows. */
  ghost predicate TableShown(columns: seq<string>, rows: seq<Row>, response: Response) {
    && response.status == Good && response.body.Results? && |response.body.rows| == |rows|
    && forall i :: 0 <= i < |rows| ==> rows[i].Some? && ObjectShows(columns, rows[i].value, response.body.rows[i])
  }

  /** The answer to a reply: its table if it can be read, and else the failure. */
  ghost predicate Shown(reply: Reply, response: Response) {
    if reply.Table? && !reply.broken
       && forall i :: 0 <= i < |reply.rows| ==> reply.rows[i].Some? && |reply.rows[i].value| == |reply.columns|
    then TableShown(reply.columns, reply.rows, response)
    else !reply.QueryFails? && response == Response(InternalError, Message("Internal Server Error"))
  }

  lemma RowIsShown(columns: seq<string>, values: seq<Value>)
    requires |columns| == |values|
    ensures ObjectShows(columns, values, JsonRow(columns, values))
  {
    NoColumnIsLostIff(columns, values);
    forall j | 0 <= j < |columns| && (forall k :: j < k < |columns| ==> columns[k] != columns[j])
      ensures columns[j] in JsonRow(columns, values) && JsonRow(columns, values)[columns[j]] == ToJson(values[j])
    {
      LastColumnWins(columns, values, j);
    }
  }

  lemma ReplyIsShown(reply: Reply)
    requires QueryResponse(reply).Some?
    ensures Shown(reply, QueryResponse(reply).value)
  {
    if Readable(reply) {
      forall i | 0 <= i < |reply.rows|
        ensures ObjectShows(reply.columns, reply.rows[i].value, JsonRow(reply.columns, reply.rows[i].value))
      {
        RowIsShown(reply.columns, reply.rows[i].value);
      }
    }
  }

  /** The last response a retried operation has written when it succeeds is that of its last attempt. */
  lemma {:induction false} LastWriteIsOfLastAttempt(tries: seq<Attempt>)
    requires tries != [] && !Retried(tries).err
    ensures var run := Retried(tries);
            1 <= run.attempts <= |tries| && run.writes != []
            && tries[run.attempts - 1].response == Some(run.writes[|run.writes| - 1].response)
  {
    if !(Succeeds(tries[0]) || |tries| == 1 || tries[0].cancelled) {
      LastWriteIsOfLastAttempt(tries[1..]);
      assert tries[1..][Retried(tries[1..]).attempts - 1] == tries[Retried(tries).attempts - 1];
    }
  }

  /** When the handler returns nil on a query that is not empty, the last response written shows the reply to
      the last query made. */
  lemma QueryIsShown(req: QueryRequest)
    requires |req.answers| == 3 && !req.blank && !HandledQuery(req).err
    ensures var run := HandledQuery(req);
            1 <= run.attempts <= 3 && Answered(run.writes)
            && Shown(req.answers[run.attempts - 1].reply, run.writes[|run.writes| - 1].response)
  {
    var tries := QueryTries(req.answers);
    var run := Retried(tries);
    LastWriteIsOfLastAttempt(tries);
    OperationAnswersOnce(tries);
    assert tries[run.attempts - 1] == QueryTry(req.answers[run.attempts - 1]);
    ReplyIsShown(req.answers[run.attempts - 1].reply);
    var writes := HandledQuery(req).writes;
    assert writes[|writes| - 1] == run.writes[|run.writes| - 1];
  }

  /** A body that binds to an empty query is answered with an error of the client's, and no query is made; one
      that does not bind is answered so before anything else. */
  lemma BadRequestsAreRefused(req: QueryRequest)
    requires |req.answers| == 3
    ensures req.binds && req.blank ==>
              HandledQuery(req).writes == [Write(Response(BadRequest, Message("Query cannot be empty")), req.blankSent)]
              && HandledQuery(req).attempts == 0
    ensures !req.binds ==>
              HandledQuery(req).writes != []
              && HandledQuery(req).writes[0]
                 == Write(Response(BadRequest, Message("invalid request body")), req.bindSent)
  {
  }

  method ReadRow(columns: seq<string>, values: seq<Value>) returns (row: map<string, Json>)
    requires |columns| == |values|
    ensures row == JsonRow(columns, values)
  {
    row := map[];
    for i := 0 to |columns|
      invariant row == JsonRow(columns[..i], values[..i])
    {
      var v := Null;
      if values[i] != NoValue {
        match values[i] {
          case Bytes(text) => v := Str(text);
          case Typed(id) => v := Other(id);
        }
      }
      assert columns[..i + 1][..i] == columns[..i] && values[..i + 1][..i] == values[..i];
      row := row[columns[i] := v];
    }
    assert columns[..|columns|] == columns && values[..|values|] == values;
  }

  /** The operation of the query handler. */
  method QueryAttempt(c: Context, a: ReadAnswer<Reply>) returns (err: bool)
    modifies c
    ensures c.log == old(c.log) + Writes(QueryTry(a)) && err == !Succeeds(QueryTry(a))
  {
    match a.reply {
      case QueryFails =>
        err := true;
      case NoRows =>
        err := c.Send(FAILURE, a.sent);
      case NoColumns =>
        err := c.Send(FAILURE, a.sent);
      case Table(columns, rows, broken) =>
        var results := [];
        for i := 0 to |rows|
          invariant c.log == old(c.log)
          invariant forall k :: 0 <= k < i ==> Scans(rows[k], |columns|)
          invariant results == JsonRows(columns, rows[..i])
        {
          if !Scans(rows[i], |columns|) {
            err := c.Send(FAILURE, a.sent);
            return;
          }
          var row := ReadRow(columns, rows[i].value);
          results := results + [row];
        }
        if broken {
          err := c.Send(FAILURE, a.sent);
          return;
        }
        assert rows[..|rows|] == rows;
        err := c.Send(Response(Good, Results(results)), a.sent);
    }
  }

  /** Before attempt n, an operation has run n times without success. */
  ghost predicate Underway(tries: seq<Attempt>, n: nat, written: seq<Write>) {
    n < |tries|
    && var rest := Retried(tries[n..]);
       Retried(tries) == Run(written + rest.writes, n + rest.attempts, rest.err)
  }

  /** One more attempt: the run is over, or underway with the next. */
  lemma OneMoreAttempt(tries: seq<Attempt>, n: nat, written: seq<Write>)
    requires Underway(tries, n, written)
    ensures var a := tries[n]; var now := written + Writes(a);
            if Succeeds(a) || n + 1 == |tries| || a.cancelled then Retried(tries) == Run(now, n + 1, !Succeeds(a))
            else Underway(tries, n + 1, now)
  {
    var a := tries[n];
    assert tries[n..][1..] == tries[n + 1..];
    if !(Succeeds(a) || n + 1 == |tries| || a.cancelled) {
      var rest := Retried(tries[n + 1..]);
      assert written + (Writes(a) + rest.writes) == written + Writes(a) + rest.writes;
    }
  }

  lemma NotYetRun(tries: seq<Attempt>)
    requires tries != []
    ensures Underway(tries, 0, [])
  {
    assert tries[0..] == tries;
    assert [] + Retried(tries).writes == Retried(tries).writes;
  }

  /** The query handler's operation on a connection, with its retries. */
  method RetryQuery(c: Context, answers: seq<ReadAnswer<Reply>>) returns (err: bool, queries: nat)
    requires |answers| == 3
    modifies c
    ensures var run := Retried(QueryTries(answers));
            c.log == old(c.log) + run.writes && queries == run.attempts && err == run.err
  {
    queries := 0;
    ghost var tries := QueryTries(answers);
    ghost var written: seq<Write> := [];
    NotYetRun(tries);
    while true
      invariant queries < READ_ATTEMPTS && c.log == old(c.log) + written && Underway(tries, queries, written)
      decreases READ_ATTEMPTS - queries
    {
      var a := answers[queries];
      err := QueryAttempt(c, a);
      OneMoreAttempt(tries, queries, written);
      written := written + Writes(tries[queries]);
      queries := queries + 1;
      if !err || queries == READ_ATTEMPTS || a.cancelled {
        return;
      }
    }
  }

  method QueryHandler(c: Context, req: QueryRequest) returns (err: bool, queries: nat)
    requires |req.answers| == 3
    modifies c
    ensures c.log == old(c.log) + HandledQuery(req).writes
    ensures queries == HandledQuery(req).attempts && err == HandledQuery(req).err
    ensures !err && !req.blank ==> 1 <= queries <= 3 && c.log != []
                                   && Shown(req.answers[queries - 1].reply, c.log[|c.log| - 1].response)
  {
    if !req.blank && !HandledQuery(req).err {
      QueryIsShown(req);
    }
    queries := 0;
    err := c.BindBody(req.binds, req.bindSent);
    if err {
      return;
    }
    assert c.log + AfterBinding(req).writes == old(c.log) + HandledQuery(req).writes;
    if req.blank {
      err := c.Send(EMPTY_QUERY, req.blankSent);
      return;
    }
    if !req.connected {
      return true, 0;
    }
    err, queries := RetryQuery(c, req.answers);
  }

  // ---- the status handler ----

  /** The generic handler asks for rows only. */
  datatype StatusReply = StatusFails | StatusRows(rows: seq<Row>, broken: bool)

  /** A query that fails is answered within the attempt. */
  function StatusResponse(reply: StatusReply, isSlice: bool, fields: nat): Response {
    if isSlice && reply.StatusRows? && !reply.broken
       && forall i :: 0 <= i < |reply.rows| ==> Scans(reply.rows[i], fields) then
      Response(Good, Records(seq(|reply.rows|, i requires 0 <= i < |reply.rows| => reply.rows[i].value)))
    else FAILURE
  }

  function StatusTry(a: ReadAnswer<StatusReply>, isSlice: bool, fields: nat): Attempt {
    Attempt(Some(StatusResponse(a.reply, isSlice, fields)), a.sent, a.cancelled)
  }

  function StatusTries(answers: seq<ReadAnswer<StatusReply>>, isSlice: bool, fields: nat): seq<Attempt> {
    seq(|answers|, k requires 0 <= k < |answers| => StatusTry(answers[k], isSlice, fields))
  }

  const MEMBER_FIELDS := 6

  datatype StatusRequest = StatusRequest(connected: bool, answers: seq<ReadAnswer<StatusReply>>, finalSent: bool)

  function HandledStatus(req: StatusRequest): Run
    requires req.answers != []
  {
    var op := if req.connected then Retried(StatusTries(req.answers, true, MEMBER_FIELDS)) else Run([], 0, true);
    if op.err then Run(op.writes + [Write(FAILURE, req.finalSent)], op.attempts, !req.finalSent) else op
  }

  /** Every status request is responded to, at most one response is written, nothing follows it, and the
      handler returns nil exactly when it is. */
  lemma StatusIsAnsweredOnce(req: StatusRequest)
    requires req.answers != []
    ensures HandledStatus(req).writes != [] && AnsweredOnce(HandledStatus(req).writes)
    ensures !HandledStatus(req).err <==> Answered(HandledStatus(req).writes)
  {
    if req.connected {
      var op := Retried(StatusTries(req.answers, true, MEMBER_FIELDS));
      OperationAnswersOnce(StatusTries(req.answers, true, MEMBER_FIELDS));
      if op.err {
        assert forall i :: 0 <= i < |op.writes| ==> !op.writes[i].ok;
        ThenAnswers(op.writes, [Write(FAILURE, req.finalSent)]);
      }
    }
  }

  /** The database is asked for its status again exactly when a response cannot be written: a query that
      fails is not retried, unlike in the query handler. */
  lemma StatusIsQueriedAgainIff(req: StatusRequest, n: nat)
    requires req.connected && n < |req.answers|
    ensures n < HandledStatus(req).attempts
            <==> forall k :: 0 <= k < n ==> !req.answers[k].cancelled && !req.answers[k].sent
  {
    var tries := StatusTries(req.answers, true, MEMBER_FIELDS);
    AttemptIsMadeIff(tries, n);
    assert forall k :: 0 <= k < n ==> tries[k] == StatusTry(req.answers[k], true, MEMBER_FIELDS);
  }

  /** The answer to a status query: the members' rows, in their order, each with its six fields; or the failure. */
  ghost predicate StatusShown(reply: StatusReply, response: Response) {
    if reply.StatusRows? && !reply.broken
       && forall i :: 0 <= i < |reply.rows| ==> reply.rows[i].Some? && |reply.rows[i].value| == 6
    then
      && response.status == Good && response.body.Records? && |response.body.records| == |reply.rows|
      && forall i :: 0 <= i < |reply.rows| ==> response.body.records[i] == reply.rows[i].value
    else response == Response(InternalError, Message("Internal Server Error"))
  }

  /** When the handler returns nil, the last response written shows the reply to the last query made, or is the
      failure of an operation none of whose responses could be written. */
  lemma StatusIsShown(req: StatusRequest)
    requires |req.answers| == 3 && !HandledStatus(req).err
    ensures var run := HandledStatus(req); var last := run.writes[|run.writes| - 1].response;
            Answered(run.writes)
            && if req.connected && exists k :: 0 <= k < run.attempts <= 3 && req.answers[k].sent then
                 1 <= run.attempts <= 3 && StatusShown(req.answers[run.attempts - 1].reply, last)
               else last == Response(InternalError, Message("Internal Server Error"))
  {
    StatusIsAnsweredOnce(req);
    if req.connected {
      var tries := StatusTries(req.answers, true, MEMBER_FIELDS);
      LastAttemptDecides(tries);
      var op := Retried(tries);
      if op.err {
        NoneSent(tries);
        assert forall k :: 0 <= k < op.attempts ==> tries[k] == StatusTry(req.answers[k], true, MEMBER_FIELDS);
      } else {
        LastWriteIsOfLastAttempt(tries);
        assert tries[op.attempts - 1] == StatusTry(req.answers[op.attempts - 1], true, MEMBER_FIELDS);
      }
    }
  }

  lemma {:induction false} NoneSent(tries: seq<Attempt>)
    requires tries != [] && Retried(tries).err
    ensures Retried(tries).attempts <= |tries|
    ensures forall k :: 0 <= k < Retried(tries).attempts ==> !Succeeds(tries[k])
  {
    if !(|tries| == 1 || tries[0].cancelled) {
      NoneSent(tries[1..]);
      assert forall k :: 0 < k < Retried(tries).attempts ==> tries[k] == tries[1..][k - 1];
    }
  }

  /** The operation of the generic handler. */
  method StatusAttempt(c: Context, a: ReadAnswer<StatusReply>, isSlice: bool, fields: nat) returns (err: bool)
    modifies c
    ensures c.log == old(c.log) + Writes(StatusTry(a, isSlice, fields))
    ensures err == !Succeeds(StatusTry(a, isSlice, fields))
  {
    if a.reply.StatusFails? || !isSlice {
      err := c.Send(FAILURE, a.sent);
      return;
    }
    var rows := a.reply.rows;
    var results := [];
    for i := 0 to |rows|
      invariant c.log == old(c.log) && |results| == i
      invariant forall k :: 0 <= k < i ==> Scans(rows[k], fields) && results[k] == rows[k].value
    {
      if !Scans(rows[i], fields) {
        err := c.Send(FAILURE, a.sent);
        return;
      }
      results := results + [rows[i].value];
    }
    if a.reply.broken {
      err := c.Send(FAILURE, a.sent);
      return;
    }
    assert Records(results) == StatusResponse(a.reply, isSlice, fields).body;
    err := c.Send(Response(Good, Records(results)), a.sent);
  }

  method GenericQueryHandler(c: Context, connected: bool, answers: seq<ReadAnswer<StatusReply>>, isSlice: bool,
                             fields: nat)
    returns (err: bool, queries: nat)
    requires |answers| == 3
    modifies c
    ensures !connected ==> err && queries == 0 && c.log == old(c.log)
    ensures connected ==> var run := Retried(StatusTries(answers, isSlice, fields));
                          c.log == old(c.log) + run.writes && queries == run.attempts && err == run.err
  {
    queries := 0;
    if !connected {
      return true, 0;
    }
    ghost var tries := StatusTries(answers, isSlice, fields);
    ghost var written: seq<Write> := [];
    NotYetRun(tries);
    while true
      invariant queries < READ_ATTEMPTS && c.log == old(c.log) + written && Underway(tries, queries, written)
      decreases READ_ATTEMPTS - queries
    {
      var a := answers[queries];
      err := StatusAttempt(c, a, isSlice, fields);
      OneMoreAttempt(tries, queries, written);
      written := written + Writes(tries[queries]);
      queries := queries + 1;
      if !err || queries == READ_ATTEMPTS || a.cancelled {
        return;
      }
    }
  }

  method ClusterStatusHandler(c: Context, req: StatusRequest) returns (err: bool, queries: nat)
    requires |req.answers| == 3
    modifies c
    ensures c.log == old(c.log) + HandledStatus(req).writes
    ensures queries == HandledStatus(req).attempts && err == HandledStatus(req).err
  {
    err, queries := GenericQueryHandler(c, req.connected, req.answers, true, MEMBER_FIELDS);
    if err {
      err := c.Send(FAILURE, req.finalSent);
    }
  }
}
