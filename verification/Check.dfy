/** The check itself, its stop function, and the v3 and v2 entry points (internal/internal.go). */
module Check {
  import opened Outcomes
  import opened Values
  import opened Decision
  import opened Effects
  import opened Evaluation
  import opened DecisionLog
  import opened Headers
  import opened CheckSpec

  /** The variables that check shares with the stop function it returns. */
  class Call {
    const result: EvalResult
    const txn: nat
    var input: Option<Value>
    var err: Option<Fault>
    var internalErr: Option<Coded>

    constructor (result: EvalResult, txn: nat)
      ensures this.result == result && this.txn == txn
      ensures input == None && err == None && internalErr == None
    {
      this.result, this.txn := result, txn;
      input, err, internalErr := None, None, None;
    }

    /** An early return: the error is kept for the stop function. */
    method Fail(code: string, fault: Fault) returns (e: Option<Coded>)
      modifies this
      ensures e == internalErr == Some(Coded(code, fault)) && err == Some(fault) && input == old(input)
    {
      err := Some(fault);
      internalErr := Some(Coded(code, fault));
      e := internalErr;
    }

    /** The failure is recorded, and nothing else is. */
    predicate Records(failure: Option<Coded>)
      reads this
    {
      internalErr == failure && err == FailureFault(failure)
    }
  }

  /** From the request to the decision. */
  method RunToDecision(server: Server, cfg: Config, inputs: Inputs, call: Call) returns (e: Option<Coded>)
    requires server.Valid() && call.result.Contents() == NO_FIELDS && call.result.txn == Some(call.txn)
    requires call.Records(None) && call.input == None
    modifies server, call, call.result
    ensures server.Valid() && server.journal == old(server.journal) && server.open == old(server.open)
    ensures e == StageFailure(inputs) && call.Records(e) && call.input == InputOf(inputs)
    ensures call.result.txn == Some(call.txn) && call.result.Contents() == ResultFields(cfg, inputs, call.txn)
  {
    hide TxnsMatch, MetricsMatch, EventsOf;
    if inputs.request.Err? {
      e := call.Fail(REQUEST_PARSE, inputs.request.error);
      return;
    }
    call.input := Some(inputs.request.value);
    if inputs.contextDone.Some? {
      e := call.Fail(TIMEOUT, Wrapped("check request timed out before query execution", inputs.contextDone.value));
      return;
    }
    if inputs.toValue.Some? {
      e := call.Fail(INPUT_PARSE, inputs.toValue.value);
      return;
    }
    var err := Eval(server, inputs.eval, call.result, cfg.ndbOn);
    if err.Some? {
      e := call.Fail(EVAL, err.value);
      return;
    }
    e := None;
  }

  /** The error of a getter, wrapped. */
  method FailResult(call: Call, what: string, fault: Fault) returns (e: Option<Coded>)
    modifies call
    ensures e == Some(Coded(RESULT, GetFault(what, fault))) && call.Records(e)
    ensures call.input == old(call.input)
  {
    e := call.Fail(RESULT, GetFault(what, fault));
  }

  /** The response to an object that allows: the remaining getters. */
  method AllowedHttp(lib: Library, d: Value, headers: seq<Pair>, call: Call)
    returns (http: Http, e: Option<Coded>, ghost toAdd: seq<Pair>)
    requires d.Object? && call.Records(None)
    modifies call
    ensures call.Records(e) && call.input == old(call.input)
    ensures (if e.Some? then Some(e.value.fault) else None) ==
            Or(FaultOf(HeadersToRemove(d), "request headers to remove"),
               HeaderFault(d, "response_headers_to_add", "response headers to send to client"))
    ensures e.Some? ==> e.value.code == RESULT
    ensures e.None? ==> IsHeaderList(lib, d, "response_headers_to_add", toAdd)
    ensures e.None? ==> http == OkHttp(headers, HeadersToRemove(d).value, toAdd)
  {
    http, toAdd := NoHttp, [];
    var toRemove := GetRequestHTTPHeadersToRemove(d);
    if toRemove.Err? {
      e := FailResult(call, "request headers to remove", toRemove.error);
      return;
    }
    var list := HeaderValueOptions(lib.canon, Field(d, "response_headers_to_add"));
    if list.None? {
      e := FailResult(call, "response headers to send to client", TypeFault("response_headers_to_add"));
      return;
    }
    e, toAdd := None, list.value;
    http := OkHttp(headers, toRemove.value, list.value);
  }

  /** The response to an object that denies: the remaining getters. */
  method DeniedResponse(lib: Library, d: Value, headers: seq<Pair>, call: Call) returns (http: Http, e: Option<Coded>)
    requires d.Object? && call.Records(None)
    modifies call
    ensures call.Records(e) && call.input == old(call.input)
    ensures (if e.Some? then Some(e.value.fault) else None) ==
            Or(FaultOf(GetResponseBody(d), "response body"),
               FaultOf(GetResponseEnvoyHTTPStatus(lib, d), "response http status"))
    ensures e.Some? ==> e.value.code == RESULT
    ensures e.None? ==> http == DeniedHttp(headers, GetResponseBody(d).value, GetResponseEnvoyHTTPStatus(lib, d).value)
  {
    http := NoHttp;
    var body := GetResponseBody(d);
    if body.Err? {
      e := FailResult(call, "response body", body.error);
      return;
    }
    var status := GetResponseEnvoyHTTPStatus(lib, d);
    if status.Err? {
      e := FailResult(call, "response http status", status.error);
      return;
    }
    e := None;
    http := DeniedHttp(headers, body.value, status.value);
  }

  /** From the decision to the response the policy asks for. */
  method AnswerDecision(lib: Library, d: Value, call: Call)
    returns (resp: Response, e: Option<Coded>, ghost lists: HeaderLists)
    requires call.Records(None)
    modifies call
    ensures call.Records(e) && call.input == old(call.input)
    ensures (if e.Some? then Some(e.value.fault) else None) == DecisionFault(lib, d)
    ensures e.Some? ==> e.value.code == RESULT
    ensures e.None? ==> ListsOk(lib, d, lists) && resp == PolicyReply(lib, d, lists)
  {
    resp, lists := Response(PERMISSION_DENIED, NoHttp, None), HeaderLists([], []);
    var allowed := IsAllowed(d);
    if allowed.Err? {
      e := FailResult(call, "response status", allowed.error);
      return;
    }
    var status := PERMISSION_DENIED;
    if allowed.value {
      status := OK;
    }
    resp := resp.(status := status);
    e := None;
    if d.Object? {
      var headers := HeaderValueOptions(lib.canon, Field(d, "headers"));
      if headers.None? {
        e := FailResult(call, "response headers", TypeFault("headers"));
        return;
      }
      lists := lists.(headers := headers.value);
      var metadata := GetDynamicMetadata(lib, d);
      if metadata.Err? {
        e := FailResult(call, "dynamic metadata", metadata.error);
        return;
      }
      resp := resp.(metadata := metadata.value);
      var http;
      if status == OK {
        ghost var toAdd;
        http, e, toAdd := AllowedHttp(lib, d, headers.value, call);
        lists := lists.(toAdd := toAdd);
      } else {
        http, e := DeniedResponse(lib, d, headers.value, call);
      }
      resp := resp.(http := http);
    }
  }

  /** check, once it has its transaction. */
  method CheckInTxn(server: Server, cfg: Config, lib: Library, inputs: Inputs, call: Call)
    returns (resp: Option<Response>, e: Option<Coded>, ghost lists: HeaderLists)
    requires Started(inputs) && server.Valid()
    requires call.result.Contents() == NO_FIELDS && call.result.txn == Some(call.txn)
    requires call.result.decisionId == inputs.decisionId.value && call.Records(None) && call.input == None
    modifies server, call, call.result
    ensures server.Valid() && server.open == old(server.open)
    ensures server.journal == old(server.journal) + WhenOn(cfg, if e.None? then [Observed] else [])
    ensures e == Failure(lib, inputs) && call.Records(e) && call.input == InputOf(inputs)
    ensures call.result.txn == Some(call.txn) && call.result.Contents() == ResultFields(cfg, inputs, call.txn)
    ensures e.Some? ==> resp == None
    ensures e.None? ==> ListsOk(lib, PolicyDecision(inputs), lists) && resp == Some(Reply(cfg, lib, inputs, lists))
  {
    hide TxnsMatch, MetricsMatch, EventsOf;
    resp, lists := None, HeaderLists([], []);
    e := RunToDecision(server, cfg, inputs, call);
    if e.Some? {
      return;
    }
    var r;
    r, e, lists := AnswerDecision(lib, call.result.decision, call);
    if e.Some? {
      return;
    }
    if cfg.metricsOn {
      server.ObserveDuration();
    }
    if cfg.dryRun {
      if r.status != OK {
        r := r.(status := OK, http := OkHttp([], [], []));
      }
    }
    if r.metadata == None {
      r := r.(metadata := Some(map[]));
    }
    r := r.(metadata := Some(r.metadata.value["decision_id" := Str(call.result.decisionId)]));
    resp := Some(r);
  }

  /** The error of a check that does not start. */
  function StartFailure(inputs: Inputs): Option<Coded> {
    if inputs.decisionId.Err? then Some(Coded(START_CHECK, inputs.decisionId.error))
    else if inputs.begin.Some? then Some(Coded(START_TXN, inputs.begin.value))
    else None
  }

  /** The result object and the transaction; null if either cannot be had. */
  method StartCheck(server: Server, inputs: Inputs) returns (call: Call?, e: Option<Coded>)
    requires server.Valid()
    modifies server
    ensures server.Valid() && e == StartFailure(inputs) && (call == null <==> e.Some?)
    ensures call == null ==> server.journal == old(server.journal)
    ensures call != null ==>
      && fresh(call) && fresh(call.result) && call.txn == old(server.nextTxn) && call.txn in server.open
      && call.result.txn == Some(call.txn) && call.result.decisionId == inputs.decisionId.value
      && call.result.Contents() == NO_FIELDS && call.input == None && call.Records(None)
      && server.journal == old(server.journal) + [Opened(call.txn)]
  {
    hide TxnsMatch, MetricsMatch, EventsOf;
    call := null;
    if inputs.decisionId.Err? {
      e := Some(Coded(START_CHECK, inputs.decisionId.error));
      return;
    }
    var result := new EvalResult(inputs.decisionId.value);
    var txn := result.GetTxn(server, inputs.begin);
    if txn.Err? {
      e := Some(Coded(START_TXN, txn.error));
      return;
    }
    result.txn := Some(txn.value);
    call := new Call(result, txn.value);
    e := None;
  }

  /** The call is as a check under transaction `txn` leaves it for its stop function. */
  ghost predicate ReadyToStop(cfg: Config, lib: Library, inputs: Inputs, call: Call, txn: nat)
    requires Started(inputs)
    reads call, call.result
  {
    && call.txn == txn && call.result.txn == Some(txn)
    && call.result.decisionId == inputs.decisionId.value && call.result.Contents() == ResultFields(cfg, inputs, txn)
    && call.input == InputOf(inputs) && call.Records(Failure(lib, inputs))
  }

  /** check. The call is null when the returned stop function does nothing. */
  method CheckRequest(server: Server, cfg: Config, lib: Library, inputs: Inputs)
    returns (resp: Option<Response>, call: Call?, e: Option<Coded>, ghost lists: HeaderLists)
    requires server.Valid()
    modifies server
    ensures server.Valid() && (call != null <==> Started(inputs))
    ensures call == null ==> server.journal == old(server.journal) && e == StartFailure(inputs)
    ensures call != null ==> fresh(call) && fresh(call.result) && old(server.nextTxn) in server.open
    ensures call != null ==> ReadyToStop(cfg, lib, inputs, call, old(server.nextTxn)) && e == Failure(lib, inputs)
    ensures call != null ==> server.journal == old(server.journal) + StartEffects(cfg, lib, inputs, old(server.nextTxn))
    ensures e.Some? ==> resp == None
    ensures e.None? ==> call != null && ListsOk(lib, PolicyDecision(inputs), lists)
    ensures e.None? ==> call != null && resp == Some(Reply(cfg, lib, inputs, lists))
  {
    hide TxnsMatch, MetricsMatch, EventsOf;
    resp, lists := None, HeaderLists([], []);
    call, e := StartCheck(server, inputs);
    if e.Some? {
      return;
    }
    resp, e, lists := CheckInTxn(server, cfg, lib, inputs, call);
    ghost var observed := WhenOn(cfg, if e.None? then [Observed] else []);
    assert old(server.journal) + [Opened(call.txn)] + observed == old(server.journal) + ([Opened(call.txn)] + observed);
  }

  /** The first half of the stop function. */
  method CountFailure(server: Server, cfg: Config, internalErr: Option<Coded>)
    requires server.Valid()
    modifies server
    ensures server.Valid() && server.open == old(server.open)
    ensures server.journal == old(server.journal) + FailureEffects(cfg, internalErr)
  {
    hide TxnsMatch, MetricsMatch, EventsOf;
    if cfg.metricsOn {
      if internalErr.Some? && internalErr.value.fault.TopdownCode().Some? {
        server.CountError(internalErr.value.fault.TopdownCode().value);
      } else if internalErr.Some? {
        server.CountError(internalErr.value.code);
      }
    }
  }

  /** What is logged for a call, in the state it is in when it is stopped. */
  function LogOfCall(cfg: Config, inputs: Inputs, call: Call): (Option<Event>, Option<Fault>)
    reads call, call.result
  {
    LogOutcome(LogInputsOf(cfg, inputs), call.result.decisionId, call.result.Contents(), call.result.txn,
               call.input, call.err)
  }

  /** The second half of the stop function: the log call, and then the abort. */
  method LogAndClose(server: Server, cfg: Config, inputs: Inputs, call: Call) returns (logErr: Option<Fault>)
    requires server.Valid() && call.txn in server.open
    modifies server, call.result
    ensures server.Valid() && call.result.txn == None && call.result.Contents() == old(call.result.Contents())
    ensures logErr == old(LogOfCall(cfg, inputs, call)).1
    ensures server.journal == old(server.journal) + LogEffects(cfg, old(LogOfCall(cfg, inputs, call)), call.txn)
  {
    hide TxnsMatch, MetricsMatch, EventsOf;
    logErr := Log(server, LogInputsOf(cfg, inputs), call.input, call.result, call.err);
    ghost var logged := Logged(old(LogOfCall(cfg, inputs, call)).0, logErr.Some?);
    JournalGrows(old(server.journal), logged, Aborted(call.txn));
    if logErr.Some? {
      call.result.Close(server, call.txn);
      if cfg.metricsOn {
        server.CountError(LOG_ERROR);
      }
    } else {
      call.result.Close(server, call.txn);
    }
    assert server.journal == old(server.journal) + [logged, Aborted(call.txn)] +
                             WhenOn(cfg, if logErr.Some? then [Errored(LOG_ERROR)] else []);
  }

  /** The stop function: count the failure, log, abort the transaction; a status replaces the response's. */
  method Stop(server: Server, cfg: Config, inputs: Inputs, call: Call) returns (status: Option<Status>)
    requires server.Valid() && call.txn in server.open
    modifies server, call.result
    ensures server.Valid() && call.result.txn == None && call.result.Contents() == old(call.result.Contents())
    ensures server.journal == old(server.journal) + FailureEffects(cfg, call.internalErr) +
                              LogEffects(cfg, old(LogOfCall(cfg, inputs, call)), call.txn)
    ensures var logErr := old(LogOfCall(cfg, inputs, call)).1;
            status == if logErr.Some? then Some(UNKNOWN(logErr.value.Message())) else None
  {
    hide TxnsMatch, MetricsMatch, EventsOf;
    CountFailure(server, cfg, call.internalErr);
    var logErr := LogAndClose(server, cfg, inputs, call);
    status := if logErr.Some? then Some(UNKNOWN(logErr.value.Message())) else None;
  }

  /** The stop function as a caller of check meets it: it may be the one that does nothing. */
  method StopIfStarted(server: Server, cfg: Config, lib: Library, inputs: Inputs, call: Call?, ghost txn: nat,
                       ghost before: seq<Entry>)
    returns (status: Option<Status>)
    requires server.Valid() && (call != null <==> Started(inputs))
    requires call == null ==> server.journal == before
    requires call != null ==> ReadyToStop(cfg, lib, inputs, call, txn) && txn in server.open
    requires call != null ==> server.journal == before + StartEffects(cfg, lib, inputs, txn)
    modifies server, if call == null then {} else {call.result}
    ensures server.Valid() && server.journal == before + CheckEffects(cfg, lib, inputs, txn)
    ensures status == StopStatus(cfg, lib, inputs, txn)
  {
    hide TxnsMatch, MetricsMatch, EventsOf;
    if call == null {
      return None;
    }
    assert LogOfCall(cfg, inputs, call) == LogOf(cfg, lib, inputs, txn);
    status := Stop(server, cfg, inputs, call);
    CheckEffectsParts(cfg, lib, inputs, txn, before);
  }

  lemma CheckEffectsParts(cfg: Config, lib: Library, inputs: Inputs, txn: nat, before: seq<Entry>)
    requires Started(inputs)
    ensures before + CheckEffects(cfg, lib, inputs, txn) ==
            before + StartEffects(cfg, lib, inputs, txn) + FailureEffects(cfg, Failure(lib, inputs)) +
            LogEffects(cfg, LogOf(cfg, lib, inputs, txn), txn)
  {
  }

  /** v3 Check. The ghost result tells which iteration orders the header lists came from. */
  method V3Check(server: Server, cfg: Config, lib: Library, inputs: Inputs)
    returns (resp: Option<Response>, err: Option<Fault>, ghost lists: HeaderLists)
    requires server.Valid()
    modifies server
    ensures server.Valid()
    ensures server.journal == old(server.journal) + CheckEffects(cfg, lib, inputs, old(server.nextTxn))
    ensures (resp, err) == V3Result(cfg, lib, inputs, old(server.nextTxn), lists)
    ensures resp.Some? ==> ListsOk(lib, PolicyDecision(inputs), lists)
  {
    hide TxnsMatch, MetricsMatch, EventsOf, CheckEffects, ReadyToStop, ListsOk, Reply;
    var call, e;
    resp, call, e, lists := CheckRequest(server, cfg, lib, inputs);
    var code := StopIfStarted(server, cfg, lib, inputs, call, old(server.nextTxn), old(server.journal));
    if resp.Some? && code.Some? {
      resp := Some(resp.value.(status := code.value));
    }
    err := if e.Some? then Some(e.value.fault) else None;
  }

  /** v2Headers. */
  method V2Headers(headers: seq<Pair>) returns (out: seq<HeaderV2>)
    ensures out == HeadersToV2(headers)
  {
    out := [];
    for i := 0 to |headers|
      invariant out == HeadersToV2(headers[..i])
    {
      out := out + [HeaderV2(headers[i].0, headers[i].1)];
      assert headers[..i + 1] == headers[..i] + [headers[i]];
    }
    assert headers[..|headers|] == headers;
  }

  /** v2Response. */
  method V2Response(r: Response) returns (out: ResponseV2)
    ensures out == ToV2(r)
  {
    out := ResponseV2(r.status, NoHttpV2);
    match r.http {
      case OkHttp(headers, _, _) =>
        var hs := V2Headers(headers);
        out := out.(http := OkHttpV2(hs));
      case DeniedHttp(headers, body, code) =>
        var hs := V2Headers(headers);
        out := out.(http := DeniedHttpV2(hs, body, code));
      case NoHttp =>
    }
  }

  /** v2 Check: converts first, and lets the deferred stop function replace the converted status. */
  method V2Check(server: Server, cfg: Config, lib: Library, inputs: Inputs)
    returns (resp: Option<ResponseV2>, err: Option<Fault>, ghost lists: HeaderLists)
    requires server.Valid()
    modifies server
    ensures server.Valid()
    ensures server.journal == old(server.journal) + CheckEffects(cfg, lib, inputs, old(server.nextTxn))
    ensures (resp, err) == ProjectV2(V3Result(cfg, lib, inputs, old(server.nextTxn), lists))
    ensures resp.Some? ==> ListsOk(lib, PolicyDecision(inputs), lists)
  {
    hide TxnsMatch, MetricsMatch, EventsOf, CheckEffects, ReadyToStop, ListsOk, Reply;
    var respV3, call, e;
    respV3, call, e, lists := CheckRequest(server, cfg, lib, inputs);
    resp, err := None, None;
    if e.Some? {
      err := Some(e.value.fault);
    } else {
      var converted := V2Response(respV3.value);
      resp := Some(converted);
    }
    var code := StopIfStarted(server, cfg, lib, inputs, call, old(server.nextTxn), old(server.journal));
    if code.Some? && resp.Some? {
      resp := Some(resp.value.(status := code.value));
    }
  }
}
