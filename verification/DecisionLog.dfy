/** The decision log event of one check (opa/decisionlog/decision_log.go and the server's log method). */
module DecisionLog {
  import opened Outcomes
  import opened Values
  import opened Effects
  import opened Evaluation

  /** Whether a log plugin is configured, and what its Log call would return. */
  datatype LogPlugin = Absent | Present(failure: Option<Fault>)

  /** The ids of a valid trace span. */
  datatype Span = Span(traceId: string, spanId: string)

  /**
   What a log call takes from outside the check: the configured query and path, the span of the
   request, the outcome of converting the cache of nondeterministic builtins, and the log plugin.
   */
  datatype LogInputs = LogInputs(
    query: string,
    path: string,
    span: Option<Span>,
    ndbJson: Result<Value, Fault>,
    plugin: LogPlugin
  )

  /** How an error is recorded: by its own dynamic type, so a wrapped one becomes its message. */
  function LoggedErrorOf(f: Fault): LoggedError {
    match f
    case StorageFault(_) => AsIs(f)
    case AstFault(_) => AsIs(f)
    case AstFaults(_) => AsIs(f)
    case TopdownFault(_, _, _) => if f.IsCancel() then Canceled else AsIs(f)
    case _ => Plain(f.Message())
  }

  function BundlesOf(revisions: map<string, string>): map<string, BundleInfo> {
    map name | name in revisions :: BundleInfo(revisions[name])
  }

  /** What the event says about the request, before the result is known. */
  datatype EventHead = EventHead(
    query: string,
    path: string,
    traceId: string,
    spanId: string,
    input: Option<Value>,
    ndbCache: Option<Value>
  )

  function HeadFor(l: LogInputs, fields: Fields, input: Option<Value>): EventHead {
    EventHead(l.query, l.path,
              if l.span.Some? then l.span.value.traceId else "", if l.span.Some? then l.span.value.spanId else "",
              input, if fields.hasNdbCache && l.ndbJson.Ok? then Some(l.ndbJson.value) else None)
  }

  /** The event for a result and the error of its check, if any. */
  function EventFor(h: EventHead, decisionId: string, fields: Fields, txn: Option<nat>, err: Option<Fault>): Event {
    Event(decisionId, h.query, h.path, h.traceId, h.spanId, h.input, h.ndbCache,
          fields.revision, BundlesOf(fields.revisions), txn,
          if err.Some? then Failed(LoggedErrorOf(err.value)) else Decided(fields.decision))
  }

  /** server.Info, as the log call fills it. */
  class Info {
    var query: string
    var path: string
    var traceId: string
    var spanId: string
    var ndbCache: Option<Value>
    var decisionId: string
    var input: Option<Value>
    var revision: string
    var bundles: map<string, BundleInfo>
    var txn: Option<nat>
    var error: Option<LoggedError>
    var results: Option<Value>

    constructor (input: Option<Value>)
      ensures ToHead() == EventHead("", "", "", "", input, None) && error == None && results == None
    {
      this.input := input;
      query, path, traceId, spanId, ndbCache := "", "", "", "", None;
      decisionId, revision, bundles, txn, error, results := "", "", map[], None, None, None;
    }

    function ToHead(): EventHead
      reads this
    {
      EventHead(query, path, traceId, spanId, input, ndbCache)
    }

    function ToEvent(): Event
      requires error.Some? || results.Some?
      reads this
    {
      Event(decisionId, query, path, traceId, spanId, input, ndbCache, revision, bundles, txn,
            if error.Some? then Failed(error.value) else Decided(results.value))
    }
  }

  /** The loop over the revisions. */
  method CopyBundles(revisions: map<string, string>) returns (bundles: map<string, BundleInfo>)
    ensures bundles == BundlesOf(revisions)
  {
    bundles := map[];
    var rest := revisions.Keys;
    while rest != {}
      invariant rest <= revisions.Keys && bundles.Keys == revisions.Keys - rest
      invariant forall name :: name in bundles ==> bundles[name] == BundleInfo(revisions[name])
      decreases rest
    {
      var name :| name in rest;
      rest := rest - {name};
      bundles := bundles[name := BundleInfo(revisions[name])];
    }
  }

  /** LogDecision: the event given to the plugin, if there is one, and the plugin's error. */
  method LogDecision(plugin: LogPlugin, info: Info, result: EvalResult, err: Option<Fault>)
    returns (event: Option<Event>, failure: Option<Fault>)
    requires info.error == None && info.results == None
    modifies info
    ensures plugin.Absent? ==> event == None && failure == None
    ensures plugin.Present? ==> failure == plugin.failure
    ensures plugin.Present? ==>
      event == Some(EventFor(old(info.ToHead()), result.decisionId, result.Contents(), result.txn, err))
  {
    if plugin.Absent? {
      return None, None;
    }
    info.revision := result.revision;

    info.bundles := CopyBundles(result.revisions);

    info.decisionId := result.decisionId;
    info.txn := result.txn;

    if err.Some? {
      var logged;
      match err.value {
        case StorageFault(_) => logged := AsIs(err.value);
        case AstFault(_) => logged := AsIs(err.value);
        case AstFaults(_) => logged := AsIs(err.value);
        case TopdownFault(_, _, _) =>
          logged := AsIs(err.value);
          if err.value.IsCancel() {
            logged := Canceled;
          }
        case _ => logged := Plain(err.value.Message());
      }
      info.error := Some(logged);
    } else {
      info.results := Some(result.decision);
    }
    event := Some(info.ToEvent());
    failure := plugin.failure;
  }

  /**
   What the server's log method comes to: the event, and the error. With a cache of
   nondeterministic builtins, its conversion to JSON comes first and may fail.
   */
  function LogOutcome(l: LogInputs, decisionId: string, fields: Fields, txn: Option<nat>, input: Option<Value>,
                      err: Option<Fault>): (Option<Event>, Option<Fault>)
  {
    if fields.hasNdbCache && l.ndbJson.Err? then (None, Some(l.ndbJson.error))
    else if l.plugin.Absent? then (None, None)
    else (Some(EventFor(HeadFor(l, fields, input), decisionId, fields, txn, err)), l.plugin.failure)
  }

  /** The part of the log method before the result is looked at. */
  method StartInfo(l: LogInputs, input: Option<Value>) returns (info: Info)
    ensures fresh(info) && info.ToHead() == HeadFor(l, NO_FIELDS, input)
    ensures info.error == None && info.results == None
  {
    info := new Info(input);
    if l.query != "" {
      info.query := l.query;
    }
    if l.path != "" {
      info.path := l.path;
    }
    if l.span.Some? {
      info.traceId := l.span.value.traceId;
      info.spanId := l.span.value.spanId;
    }
  }

  /** The log method of the server. */
  method Log(server: Server, l: LogInputs, input: Option<Value>, result: EvalResult, err: Option<Fault>)
    returns (failure: Option<Fault>)
    requires server.Valid()
    modifies server
    ensures server.Valid() && server.open == old(server.open)
    ensures var outcome := LogOutcome(l, result.decisionId, result.Contents(), result.txn, input, err);
            failure == outcome.1 && server.journal == old(server.journal) + [Logged(outcome.0, outcome.1.Some?)]
  {
    hide TxnsMatch, MetricsMatch, EventsOf, EventFor;
    var info := StartInfo(l, input);
    if result.hasNdbCache {
      if l.ndbJson.Err? {
        server.RecordLog(None, true);
        return Some(l.ndbJson.error);
      }
      info.ndbCache := Some(l.ndbJson.value);
    }
    var event;
    event, failure := LogDecision(l.plugin, info, result, err);
    server.RecordLog(event, failure.Some?);
  }
}
