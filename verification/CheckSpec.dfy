/**
 What one authorization check comes to, as functions of its configuration and of the outcomes of
 the library calls it makes (internal/internal.go).
 */
module CheckSpec {
  import opened Outcomes
  import opened Values
  import opened Decision
  import opened Effects
  import opened Evaluation
  import opened DecisionLog
  import opened Headers

  datatype Config = Config(dryRun: bool, metricsOn: bool, ndbOn: bool, query: string, path: string)

  /** `request` is RequestToInput, `contextDone` is ctx.Err(), `toValue` is ast.InterfaceToValue. */
  datatype Inputs = Inputs(
    decisionId: Result<string, Fault>,
    begin: Option<Fault>,
    request: Result<Value, Fault>,
    contextDone: Option<Fault>,
    toValue: Option<Fault>,
    eval: EvalInputs,
    span: Option<Span>,
    ndbJson: Result<Value, Fault>,
    plugin: LogPlugin
  )

  datatype Status = OK | PERMISSION_DENIED | UNKNOWN(message: string)

  datatype Http =
    | NoHttp
    | OkHttp(headers: seq<Pair>, toRemove: seq<string>, toAdd: seq<Pair>)
    | DeniedHttp(headers: seq<Pair>, body: string, code: int)

  /** A v3 CheckResponse. */
  datatype Response = Response(status: Status, http: Http, metadata: Option<map<string, Value>>)

  /** internal.Error: a code and the error it wraps. */
  datatype Coded = Coded(code: string, fault: Fault)

  const START_CHECK := "start_check_error"
  const START_TXN := "start_txn_error"
  const REQUEST_PARSE := "request_parse_error"
  const TIMEOUT := "check_request_timeout"
  const INPUT_PARSE := "input_parse_error"
  const EVAL := "envoyauth_eval_error"
  const RESULT := "envoyauth_result_error"
  const LOG_ERROR := "unknown_log_error"

  /** The check gets as far as its own transaction. */
  predicate Started(inputs: Inputs) {
    inputs.decisionId.Ok? && inputs.begin.None?
  }

  /** The first stage before the decision that fails. */
  function StageFailure(inputs: Inputs): Option<Coded> {
    if inputs.request.Err? then Some(Coded(REQUEST_PARSE, inputs.request.error))
    else if inputs.contextDone.Some? then
      Some(Coded(TIMEOUT, Wrapped("check request timed out before query execution", inputs.contextDone.value)))
    else if inputs.toValue.Some? then Some(Coded(INPUT_PARSE, inputs.toValue.value))
    else
      match EvalFault(inputs.eval)
      case Some(f) => Some(Coded(EVAL, f))
      case None => None
  }

  function PolicyDecision(inputs: Inputs): Value
    requires StageFailure(inputs).None?
  {
    inputs.eval.results.value[0]
  }

  function GetFault(what: string, f: Fault): Fault {
    Wrapped("failed to get " + what, f)
  }

  function FaultOf<T>(r: Result<T, Fault>, what: string): Option<Fault> {
    match r
    case Ok(_) => None
    case Err(f) => Some(GetFault(what, f))
  }

  function HeaderFault(decision: Value, key: string, what: string): Option<Fault> {
    if HeaderFieldOk(decision, key) then None else Some(GetFault(what, TypeFault(key)))
  }

  function Or(first: Option<Fault>, second: Option<Fault>): Option<Fault> {
    if first.Some? then first else second
  }

  /** The first part of the decision, in the order the check reads it, that is malformed. */
  function DecisionFault(lib: Library, d: Value): Option<Fault> {
    match IsAllowed(d)
    case Err(f) => Some(GetFault("response status", f))
    case Ok(allowed) =>
      if !d.Object? then None
      else
        Or(HeaderFault(d, "headers", "response headers"),
        Or(FaultOf(GetDynamicMetadata(lib, d), "dynamic metadata"),
        if allowed then
          Or(FaultOf(HeadersToRemove(d), "request headers to remove"),
             HeaderFault(d, "response_headers_to_add", "response headers to send to client"))
        else
          Or(FaultOf(GetResponseBody(d), "response body"),
             FaultOf(GetResponseEnvoyHTTPStatus(lib, d), "response http status"))))
  }

  /** Why the check fails, if it does. */
  function Failure(lib: Library, inputs: Inputs): Option<Coded> {
    if StageFailure(inputs).Some? then StageFailure(inputs)
    else
      match DecisionFault(lib, PolicyDecision(inputs))
      case Some(f) => Some(Coded(RESULT, f))
      case None => None
  }

  /** The header lists of the response are possible flattenings of the decision's header fields. */
  ghost predicate ListsOk(lib: Library, d: Value, lists: HeaderLists) {
    d.Object? ==>
      && IsHeaderList(lib, d, "headers", lists.headers)
      && (IsAllowed(d) == Ok(true) ==> IsHeaderList(lib, d, "response_headers_to_add", lists.toAdd))
  }

  /** What the policy asks for, before dry-run. */
  function PolicyReply(lib: Library, d: Value, lists: HeaderLists): Response
    requires DecisionFault(lib, d).None?
  {
    var allowed := IsAllowed(d).value;
    var http :=
      if !d.Object? then NoHttp
      else if allowed then OkHttp(lists.headers, HeadersToRemove(d).value, lists.toAdd)
      else DeniedHttp(lists.headers, GetResponseBody(d).value, GetResponseEnvoyHTTPStatus(lib, d).value);
    Response(if allowed then OK else PERMISSION_DENIED, http,
             if d.Object? then GetDynamicMetadata(lib, d).value else None)
  }

  /** Dry-run turns every denial into an empty permission. */
  function Overridden(cfg: Config, r: Response): Response {
    if cfg.dryRun && r.status != OK then r.(status := OK, http := OkHttp([], [], [])) else r
  }

  function WithDecisionId(r: Response, id: string): Response {
    r.(metadata := Some((if r.metadata.Some? then r.metadata.value else map[])["decision_id" := Str(id)]))
  }

  /** The response of a check that does not fail, before its outcome is logged. */
  function Reply(cfg: Config, lib: Library, inputs: Inputs, lists: HeaderLists): Response
    requires Started(inputs) && Failure(lib, inputs).None?
  {
    WithDecisionId(Overridden(cfg, PolicyReply(lib, PolicyDecision(inputs), lists)), inputs.decisionId.value)
  }

  predicate ReachesEval(inputs: Inputs) {
    inputs.request.Ok? && inputs.contextDone.None? && inputs.toValue.None?
  }

  function ResultFields(cfg: Config, inputs: Inputs, txn: nat): Fields {
    if ReachesEval(inputs) then EvalFields(inputs.eval, NO_FIELDS, txn, cfg.ndbOn) else NO_FIELDS
  }

  function InputOf(inputs: Inputs): Option<Value> {
    if inputs.request.Ok? then Some(inputs.request.value) else None
  }

  function FailureFault(failure: Option<Coded>): Option<Fault> {
    if failure.Some? then Some(failure.value.fault) else None
  }

  function LogInputsOf(cfg: Config, inputs: Inputs): LogInputs {
    LogInputs(cfg.query, cfg.path, inputs.span, inputs.ndbJson, inputs.plugin)
  }

  /** The event that is logged, if any, and the error of logging it. */
  function LogOf(cfg: Config, lib: Library, inputs: Inputs, txn: nat): (Option<Event>, Option<Fault>)
    requires Started(inputs)
  {
    LogOutcome(LogInputsOf(cfg, inputs), inputs.decisionId.value, ResultFields(cfg, inputs, txn), Some(txn),
               InputOf(inputs), FailureFault(Failure(lib, inputs)))
  }

  /** The label of the error counter for a failure: a topdown error in its chain, or its own code. */
  function Reason(c: Coded): string {
    if c.fault.TopdownCode().Some? then c.fault.TopdownCode().value else c.code
  }

  function WhenOn(cfg: Config, entries: seq<Entry>): seq<Entry> {
    if cfg.metricsOn then entries else []
  }

  /** What a started check does before its stop function. */
  function StartEffects(cfg: Config, lib: Library, inputs: Inputs, txn: nat): seq<Entry> {
    [Opened(txn)] + WhenOn(cfg, if Failure(lib, inputs).None? then [Observed] else [])
  }

  /** The stop function counts the failure, */
  function FailureEffects(cfg: Config, failure: Option<Coded>): seq<Entry> {
    WhenOn(cfg, if failure.Some? then [Errored(Reason(failure.value))] else [])
  }

  /** and then logs and aborts. */
  function LogEffects(cfg: Config, logged: (Option<Event>, Option<Fault>), txn: nat): seq<Entry> {
    [Logged(logged.0, logged.1.Some?), Aborted(txn)] + WhenOn(cfg, if logged.1.Some? then [Errored(LOG_ERROR)] else [])
  }

  /** Everything a check does to the world, in order. */
  function CheckEffects(cfg: Config, lib: Library, inputs: Inputs, txn: nat): seq<Entry> {
    if !Started(inputs) then []
    else
      StartEffects(cfg, lib, inputs, txn) + FailureEffects(cfg, Failure(lib, inputs)) +
      LogEffects(cfg, LogOf(cfg, lib, inputs, txn), txn)
  }

  /** The status that the stop function returns, if any. */
  function StopStatus(cfg: Config, lib: Library, inputs: Inputs, txn: nat): Option<Status> {
    if !Started(inputs) then None
    else
      match LogOf(cfg, lib, inputs, txn).1
      case Some(f) => Some(UNKNOWN(f.Message()))
      case None => None
  }

  /** What v3 Check returns. */
  function V3Result(cfg: Config, lib: Library, inputs: Inputs, txn: nat, lists: HeaderLists)
    : (Option<Response>, Option<Fault>)
  {
    if inputs.decisionId.Err? then (None, Some(inputs.decisionId.error))
    else if inputs.begin.Some? then (None, inputs.begin)
    else if Failure(lib, inputs).Some? then (None, FailureFault(Failure(lib, inputs)))
    else
      var reply := Reply(cfg, lib, inputs, lists);
      match StopStatus(cfg, lib, inputs, txn)
      case Some(status) => (Some(reply.(status := status)), None)
      case None => (Some(reply), None)
  }

  // ----- the v2 API

  datatype HeaderV2 = HeaderV2(key: string, value: string)

  datatype HttpV2 =
    | NoHttpV2
    | OkHttpV2(headers: seq<HeaderV2>)
    | DeniedHttpV2(headers: seq<HeaderV2>, body: string, code: int)

  /** A v2 CheckResponse, which has no dynamic metadata. */
  datatype ResponseV2 = ResponseV2(status: Status, http: HttpV2)

  function HeadersToV2(headers: seq<Pair>): seq<HeaderV2> {
    seq(|headers|, i requires 0 <= i < |headers| => HeaderV2(headers[i].0, headers[i].1))
  }

  function ToV2(r: Response): ResponseV2 {
    ResponseV2(r.status,
               match r.http
               case NoHttp => NoHttpV2
               case OkHttp(headers, _, _) => OkHttpV2(HeadersToV2(headers))
               case DeniedHttp(headers, body, code) => DeniedHttpV2(HeadersToV2(headers), body, code))
  }

  /** The v2 view of what v3 Check returns. */
  function ProjectV2(v3: (Option<Response>, Option<Fault>)): (Option<ResponseV2>, Option<Fault>) {
    (if v3.0.Some? then Some(ToV2(v3.0.value)) else None, v3.1)
  }
}
