/** Which error a check fails with, and under which label it is counted. */
module FailureTheorems {
  import opened Outcomes
  import opened Values
  import opened Decision
  import opened Evaluation
  import opened CheckSpec
  import opened CheckTheorems
  import opened LogTheorems

  function FirstFault(faults: seq<Option<Coded>>): Option<Coded> {
    if faults == [] then None else if faults[0].Some? then faults[0] else FirstFault(faults[1..])
  }

  function Labelled(code: string, fault: Option<Fault>): Option<Coded> {
    if fault.Some? then Some(Coded(code, fault.value)) else None
  }

  function ReadFault<T>(r: Read<T>): Option<Fault> {
    if r.Broken? then Some(r.fault) else None
  }

  function RevisionFaults(e: EvalInputs, names: seq<string>): seq<Option<Coded>> {
    seq(|names|, i requires 0 <= i < |names| => Labelled("envoyauth_eval_error", ReadFault(e.revision(names[i]))))
  }

  function EarlyAttempts(inputs: Inputs): seq<Option<Coded>> {
    [ Labelled("request_parse_error", if inputs.request.Err? then Some(inputs.request.error) else None),
      Labelled("check_request_timeout",
               if inputs.contextDone.Some?
               then Some(Wrapped("check request timed out before query execution", inputs.contextDone.value))
               else None),
      Labelled("input_parse_error", inputs.toValue),
      Labelled("envoyauth_eval_error", ReadFault(inputs.eval.names))
    ]
  }

  function LateAttempts(e: EvalInputs): seq<Option<Coded>> {
    [ Labelled("envoyauth_eval_error", ReadFault(e.legacy)),
      Labelled("envoyauth_eval_error", e.prepare),
      Labelled("envoyauth_eval_error", if e.results.Err? then Some(e.results.error) else None),
      Labelled("envoyauth_eval_error",
               if e.results.Err? || |e.results.value| == 1 then None
               else Some(OtherFault(if |e.results.value| == 0 then "undefined decision"
                                    else "multiple evaluation results")))
    ]
  }

  /** Everything that can fail before there is a decision, in the order it is tried, with its label. */
  function Attempts(inputs: Inputs): seq<Option<Coded>> {
    var e := inputs.eval;
    EarlyAttempts(inputs) + (RevisionFaults(e, if e.names.Found? then e.names.value else []) + LateAttempts(e))
  }

  /** The parts of a decision in the order they are read, and whether each can be used. */
  function Parts(lib: Library, d: Value): seq<(string, bool)> {
    var allowed := Field(d, "allowed");
    [("response status", d.Boolean? || (allowed.Some? && allowed.value.Boolean?))] +
    if !d.Object? then []
    else
      [("response headers", HeadersUsable(d, "headers")), ("dynamic metadata", MetadataUsable(lib, d))] +
      if allowed == Some(Boolean(true)) then
        [("request headers to remove", RemovalsUsable(d)),
         ("response headers to send to client", HeadersUsable(d, "response_headers_to_add"))]
      else
        [("response body", BodyUsable(d)), ("response http status", StatusUsable(lib, d))]
  }

  function FirstUnusable(parts: seq<(string, bool)>): Option<string> {
    if parts == [] then None else if parts[0].1 then FirstUnusable(parts[1..]) else Some(parts[0].0)
  }

  predicate SaysFailedToGet(f: Option<Fault>, what: string) {
    f.Some? && f.value.Wrapped? && f.value.text == "failed to get " + what
  }

  lemma FirstOfFour(faults: seq<Option<Coded>>)
    requires |faults| == 4
    ensures FirstFault(faults) == if faults[0].Some? then faults[0] else if faults[1].Some? then faults[1]
                                  else if faults[2].Some? then faults[2] else faults[3]
  {
    assert faults[1..][1..] == faults[2..] && faults[2..][1..] == faults[3..] && faults[3..][1..] == [];
    assert FirstFault(faults[3..]) == faults[3];
    assert FirstFault(faults[2..]) == if faults[2].Some? then faults[2] else faults[3];
  }

  lemma FirstOfFive(parts: seq<(string, bool)>)
    requires |parts| == 5
    ensures FirstUnusable(parts) == if !parts[0].1 then Some(parts[0].0) else if !parts[1].1 then Some(parts[1].0)
                                    else if !parts[2].1 then Some(parts[2].0) else if !parts[3].1 then Some(parts[3].0)
                                    else if !parts[4].1 then Some(parts[4].0) else None
  {
    assert parts[1..][1..] == parts[2..] && parts[2..][1..] == parts[3..] && parts[3..][1..] == parts[4..];
    assert parts[4..][1..] == [];
    assert FirstUnusable(parts[4..]) == if !parts[4].1 then Some(parts[4].0) else None;
    assert FirstUnusable(parts[3..]) == if !parts[3].1 then Some(parts[3].0) else FirstUnusable(parts[4..]);
    assert FirstUnusable(parts[2..]) == if !parts[2].1 then Some(parts[2].0) else FirstUnusable(parts[3..]);
  }

  lemma {:induction false} FirstFaultOfConcat(a: seq<Option<Coded>>, b: seq<Option<Coded>>)
    ensures FirstFault(a + b) == if FirstFault(a).Some? then FirstFault(a) else FirstFault(b)
  {
    if a == [] {
      assert a + b == b;
    } else {
      assert (a + b)[1..] == a[1..] + b;
      FirstFaultOfConcat(a[1..], b);
    }
  }

  lemma {:induction false} FirstRevisionFault(e: EvalInputs, names: seq<string>)
    ensures FirstFault(RevisionFaults(e, names)) == Labelled("envoyauth_eval_error", FirstBroken(e.revision, names))
  {
    if names != [] {
      assert RevisionFaults(e, names)[1..] == RevisionFaults(e, names[1..]);
      FirstRevisionFault(e, names[1..]);
    }
  }

  /** Before the decision the first attempt that fails is the failure. */
  lemma StageFailureIsFirst(inputs: Inputs)
    ensures StageFailure(inputs) == FirstFault(Attempts(inputs))
  {
    var e := inputs.eval;
    var names := if e.names.Found? then e.names.value else [];
    FirstFaultOfConcat(EarlyAttempts(inputs), RevisionFaults(e, names) + LateAttempts(e));
    FirstFaultOfConcat(RevisionFaults(e, names), LateAttempts(e));
    FirstRevisionFault(e, names);
    FirstOfFour(EarlyAttempts(inputs));
    FirstOfFour(LateAttempts(e));
  }

  /** The fault of a decision is that of its first unusable part. */
  lemma DecisionFaultIsFirst(lib: Library, d: Value)
    ensures match FirstUnusable(Parts(lib, d))
            case None => DecisionFault(lib, d).None?
            case Some(what) => SaysFailedToGet(DecisionFault(lib, d), what)
  {
    hide HeaderFieldOk, HeadersUsable, HeadersToRemove, RemovalsUsable, GetDynamicMetadata, MetadataUsable;
    hide GetResponseBody, BodyUsable, GetResponseEnvoyHTTPStatus, StatusUsable;
    PartsExactly(lib, d);
    var parts := Parts(lib, d);
    if d.Object? {
      FirstOfFive(parts);
    }
  }

  /** A topdown error that no other topdown error of the chain wraps. */
  ghost predicate Outermost(f: Fault, g: Fault) {
    Unwraps(f, g) && g.TopdownFault? && forall h :: Unwraps(f, h) && h.TopdownFault? ==> Unwraps(g, h)
  }

  /** A failure is counted under the code of the outermost topdown error in its chain, or else under its own. */
  lemma LabelExactly(c: Coded, reason: string)
    ensures Reason(c) == reason <==>
            if exists g :: Unwraps(c.fault, g) && g.TopdownFault?
            then exists g :: Outermost(c.fault, g) && g.code == reason
            else c.code == reason
  {
    TopdownCodeExactly(c.fault, reason);
    if c.fault.TopdownCode().Some? {
      var code := c.fault.TopdownCode().value;
      TopdownCodeExactly(c.fault, code);
    } else {
      NoTopdownInChain(c.fault);
    }
  }

  lemma {:induction false} NoTopdownInChain(f: Fault)
    requires f.TopdownCode().None?
    ensures forall g :: Unwraps(f, g) ==> !g.TopdownFault?
  {
    if f.Wrapped? {
      NoTopdownInChain(f.cause);
    }
  }

  /** A check returns the error of the first thing that fails, and none if nothing does. */
  lemma ErrorIsTheFirstFailure(cfg: Config, lib: Library, inputs: Inputs, txn: nat, lists: HeaderLists)
    ensures var err := V3Result(cfg, lib, inputs, txn, lists).1;
            if inputs.decisionId.Err? then err == Some(inputs.decisionId.error)
            else if inputs.begin.Some? then err == inputs.begin
            else if FirstFault(Attempts(inputs)).Some? then
              Failure(lib, inputs) == FirstFault(Attempts(inputs)) && err == Some(Failure(lib, inputs).value.fault)
            else
              && inputs.eval.results.Ok? && |inputs.eval.results.value| == 1
              && match FirstUnusable(Parts(lib, inputs.eval.results.value[0]))
                 case None => err == None && Failure(lib, inputs) == None
                 case Some(what) =>
                   && Failure(lib, inputs).Some? && Failure(lib, inputs).value.code == "envoyauth_result_error"
                   && err == Some(Failure(lib, inputs).value.fault)
                   && SaysFailedToGet(err, what)
  {
    hide Attempts, Parts, DecisionFault;
    StageFailureIsFirst(inputs);
    if StageFailure(inputs).None? {
      DecisionFaultIsFirst(lib, PolicyDecision(inputs));
    }
  }
}
