/** What holds of every single check, whatever its library calls do. */
module CheckTheorems {
  import opened Outcomes
  import opened Values
  import opened Decision
  import opened Evaluation
  import opened Headers
  import opened CheckSpec
  import HeaderOrder
  import Text

  // ----- the verdict

  /** Evaluation ends with one decision: every read, the preparation and the query succeed with one result. */
  predicate Decides(inputs: Inputs, d: Value) {
    && Started(inputs) && ReachesEval(inputs)
    && !inputs.eval.names.Broken? && !inputs.eval.legacy.Broken?
    && (forall i | 0 <= i < |NamesOf(inputs.eval.names)| ::
          !inputs.eval.revision(NamesOf(inputs.eval.names)[i]).Broken?)
    && inputs.eval.prepare.None?
    && inputs.eval.results == Ok([d])
  }

  /** A header field is absent, or one object or a list of objects whose fields have strings. */
  predicate HeadersUsable(d: Value, key: string) {
    match Field(d, key)
    case None => true
    case Some(v) => HasHeaders(v) || (v.Array? && forall i | 0 <= i < |v.items| :: HasHeaders(v.items[i]))
  }

  /** The metadata is absent, or an object that converts to a Struct. */
  predicate MetadataUsable(lib: Library, d: Value) {
    match Field(d, "dynamic_metadata")
    case None => true
    case Some(Object(fields)) => lib.newStruct(fields).Ok?
    case Some(_) => false
  }

  /** The removals are absent or a list of strings; a single string is not one. */
  predicate RemovalsUsable(d: Value) {
    match Field(d, "request_headers_to_remove")
    case None => true
    case Some(v) => HasStrings(v) && !v.Str?
  }

  predicate BodyUsable(d: Value) {
    match Field(d, "body")
    case None => true
    case Some(v) => v.Str?
  }

  /** The status is absent, or a 64-bit integer that is in both tables of codes. */
  predicate StatusUsable(lib: Library, d: Value) {
    match Field(d, "http_status")
    case None => lib.isEnvoyStatus(403)
    case Some(Number(literal)) =>
      var code := Text.ParseInt(literal);
      code.Some? && lib.hasStatusText(code.value) && lib.isEnvoyStatus(ToInt32(code.value))
    case Some(_) => false
  }

  /** The decision allows, and every part of it that an allowed response uses is well-formed. */
  predicate Grants(lib: Library, d: Value) {
    || d == Boolean(true)
    || (&& Field(d, "allowed") == Some(Boolean(true)) && HeadersUsable(d, "headers") && MetadataUsable(lib, d)
        && RemovalsUsable(d) && HeadersUsable(d, "response_headers_to_add"))
  }

  /** The decision denies, and every part of it that a denied response uses is well-formed. */
  predicate Denies(lib: Library, d: Value) {
    || d == Boolean(false)
    || (&& Field(d, "allowed") == Some(Boolean(false)) && HeadersUsable(d, "headers") && MetadataUsable(lib, d)
        && BodyUsable(d) && StatusUsable(lib, d))
  }

  /** Logging succeeds: the cache of nondeterministic builtins converts, and the plugin accepts the event. */
  predicate LogSucceeds(cfg: Config, inputs: Inputs) {
    && !(cfg.ndbOn && inputs.ndbJson.Err?)
    && (inputs.plugin.Present? ==> inputs.plugin.failure.None?)
  }

  lemma DecidesExactly(inputs: Inputs, d: Value)
    requires Started(inputs)
    ensures Decides(inputs, d) <==> StageFailure(inputs).None? && PolicyDecision(inputs) == d
  {
    if RevisionFault(inputs.eval).None? && inputs.eval.results.Ok? && |inputs.eval.results.value| == 1 {
      assert inputs.eval.results.value == [inputs.eval.results.value[0]];
    }
  }

  /** The getters succeed exactly on usable parts. */
  lemma PartsExactly(lib: Library, d: Value)
    ensures forall key :: HeaderFieldOk(d, key) <==> HeadersUsable(d, key)
    ensures d.Object? ==> (GetDynamicMetadata(lib, d).Ok? <==> MetadataUsable(lib, d))
    ensures d.Object? ==> (HeadersToRemove(d).Ok? <==> RemovalsUsable(d))
    ensures GetResponseBody(d).Ok? <==> BodyUsable(d)
    ensures d.Object? ==> (GetResponseEnvoyHTTPStatus(lib, d).Ok? <==> StatusUsable(lib, d))
  {
    forall key ensures HeaderFieldOk(d, key) <==> HeadersUsable(d, key) {
      if Field(d, key).Some? {
        HeadersOkExactly(Field(d, key).value);
      }
    }
    if Field(d, "request_headers_to_remove").Some? {
      StringsOfIsListed(Field(d, "request_headers_to_remove").value);
    }
  }

  /** A decision has no malformed part exactly when it grants or denies. */
  lemma FaultFreeExactly(lib: Library, d: Value)
    ensures DecisionFault(lib, d).None? <==> Grants(lib, d) || Denies(lib, d)
    ensures DecisionFault(lib, d).None? ==> (IsAllowed(d) == Ok(true) <==> Grants(lib, d))
  {
    hide HeaderFieldOk, HeadersUsable, HeadersToRemove, RemovalsUsable, GetDynamicMetadata, MetadataUsable;
    hide GetResponseBody, BodyUsable, GetResponseEnvoyHTTPStatus, StatusUsable;
    PartsExactly(lib, d);
  }

  /**
   Without dry-run a check answers OK exactly when everything up to and including the log succeeds
   and the decision grants; it answers PERMISSION_DENIED exactly when everything succeeds and the
   decision denies; a failed log makes either one UNKNOWN; anything else is an error and no response.
   */
  lemma VerdictExactly(cfg: Config, lib: Library, inputs: Inputs, txn: nat, lists: HeaderLists)
    requires !cfg.dryRun
    ensures var (resp, err) := V3Result(cfg, lib, inputs, txn, lists);
            && (resp.Some? && resp.value.status == OK <==>
                exists d :: Decides(inputs, d) && Grants(lib, d) && LogSucceeds(cfg, inputs))
            && (resp.Some? && resp.value.status == PERMISSION_DENIED <==>
                exists d :: Decides(inputs, d) && Denies(lib, d) && LogSucceeds(cfg, inputs))
            && (resp.Some? && resp.value.status.UNKNOWN? <==>
                exists d :: Decides(inputs, d) && (Grants(lib, d) || Denies(lib, d)) && !LogSucceeds(cfg, inputs))
            && (resp.None? <==> err.Some?)
  {
    if Started(inputs) && StageFailure(inputs).None? {
      var d := PolicyDecision(inputs);
      DecidesExactly(inputs, d);
      FaultFreeExactly(lib, d);
      LogSucceedsExactly(cfg, lib, inputs, txn);
      assert Grants(lib, d) ==> !Denies(lib, d);
    }
    forall d | Decides(inputs, d) ensures StageFailure(inputs).None? && PolicyDecision(inputs) == d {
      DecidesExactly(inputs, d);
    }
  }

  lemma LogSucceedsExactly(cfg: Config, lib: Library, inputs: Inputs, txn: nat)
    requires Started(inputs) && StageFailure(inputs).None?
    ensures StopStatus(cfg, lib, inputs, txn).None? <==> LogSucceeds(cfg, inputs)
    ensures StopStatus(cfg, lib, inputs, txn).Some? ==> StopStatus(cfg, lib, inputs, txn).value.UNKNOWN?
  {
  }

  // ----- dry-run

  /**
   Dry-run does the same things to the world and returns the same error and metadata; the response
   differs exactly when the policy denies, and then it is an empty permission.
   */
  lemma DryRunOverridesDenialsOnly(cfg: Config, lib: Library, inputs: Inputs, txn: nat, lists: HeaderLists)
    requires !cfg.dryRun
    ensures var dry := cfg.(dryRun := true);
            var (resp, err) := V3Result(cfg, lib, inputs, txn, lists);
            var (resp', err') := V3Result(dry, lib, inputs, txn, lists);
            && CheckEffects(dry, lib, inputs, txn) == CheckEffects(cfg, lib, inputs, txn)
            && err' == err && (resp'.Some? <==> resp.Some?)
            && (resp.Some? ==> resp'.value.metadata == resp.value.metadata)
            && (resp' != resp <==> exists d :: Decides(inputs, d) && Denies(lib, d))
            && (resp' != resp ==>
                && resp'.value.http == OkHttp([], [], [])
                && resp'.value.status == if LogSucceeds(cfg, inputs) then OK else resp.value.status)
  {
    if Started(inputs) && StageFailure(inputs).None? {
      var d := PolicyDecision(inputs);
      DecidesExactly(inputs, d);
      FaultFreeExactly(lib, d);
      LogSucceedsExactly(cfg, lib, inputs, txn);
      assert Grants(lib, d) ==> !Denies(lib, d);
    }
    forall d | Decides(inputs, d) ensures StageFailure(inputs).None? && PolicyDecision(inputs) == d {
      DecidesExactly(inputs, d);
    }
  }

  /** Every response carries the decision id, beside the Struct of the policy's own metadata. */
  lemma ResponsesCarryTheDecisionId(cfg: Config, lib: Library, inputs: Inputs, txn: nat, lists: HeaderLists)
    requires V3Result(cfg, lib, inputs, txn, lists).0.Some?
    ensures inputs.decisionId.Ok? && inputs.eval.results.Ok? && |inputs.eval.results.value| == 1
    ensures var metadata := V3Result(cfg, lib, inputs, txn, lists).0.value.metadata;
            && metadata.Some? && "decision_id" in metadata.value
            && metadata.value["decision_id"] == Str(inputs.decisionId.value)
            && match Field(inputs.eval.results.value[0], "dynamic_metadata")
               case Some(Object(fields)) =>
                 && lib.newStruct(fields).Ok?
                 && metadata.value - {"decision_id"} == lib.newStruct(fields).value - {"decision_id"}
               case _ => metadata.value - {"decision_id"} == map[]
  {
    hide LogOf, HeaderFieldOk, HeadersToRemove, GetResponseBody, GetResponseEnvoyHTTPStatus;
  }

  // ----- the contents of a response

  /** The list has each string of the decision's header field, as often as it is listed there, under its name. */
  ghost predicate HasEntries(lib: Library, d: Value, key: string, list: seq<Pair>) {
    match Field(d, key)
    case None => list == []
    case Some(v) =>
      && |list| == HeaderOrder.SumOverHeaders(v, HeaderOrder.SIZES)
      && forall name, text :: multiset(list)[(name, text)] ==
           HeaderOrder.SumOverHeaders(v, HeaderOrder.OccurrencesUnder(lib.canon, name, text))
  }

  lemma HeaderListHasEntries(lib: Library, d: Value, key: string, list: seq<Pair>)
    requires IsHeaderList(lib, d, key, list)
    ensures HasEntries(lib, d, key, list)
  {
    if Field(d, key).Some? {
      HeaderOrder.FlatteningSendsEachString(lib.canon, Field(d, key).value, list, "", "");
      forall name, text {
        HeaderOrder.FlatteningSendsEachString(lib.canon, Field(d, key).value, list, name, text);
      }
    }
  }

  /** The body and the status are the decision's own: no body by default, and 403; the status is cut to 32 bits. */
  predicate CarriesDenial(lib: Library, d: Value, body: string, code: int) {
    && body == (match Field(d, "body") case Some(Str(text)) => text case _ => "")
    && lib.isEnvoyStatus(code)
    && match Field(d, "http_status")
       case None => code == 403
       case Some(v) =>
         && v.Number?
         && var status := Text.ParseInt(v.literal);
            && status.Some? && lib.hasStatusText(status.value)
            && -0x8000_0000 <= code < 0x8000_0000 && (status.value - code) % 0x1_0000_0000 == 0
  }

  /** The names to remove are the decision's own. */
  predicate CarriesRemovals(d: Value, toRemove: seq<string>) {
    match Field(d, "request_headers_to_remove")
    case None => toRemove == []
    case Some(v) => Lists(v, toRemove) && !v.Str?
  }

  lemma CarriesTheGetters(lib: Library, d: Value)
    requires d.Object? && BodyUsable(d) && StatusUsable(lib, d)
    ensures GetResponseBody(d).Ok? && GetResponseEnvoyHTTPStatus(lib, d).Ok?
    ensures CarriesDenial(lib, d, GetResponseBody(d).value, GetResponseEnvoyHTTPStatus(lib, d).value)
  {
    hide Text.ParseInt;
  }

  lemma DeniedHttpOfPolicy(lib: Library, d: Value, lists: HeaderLists)
    requires Denies(lib, d) && d.Object?
    ensures DecisionFault(lib, d).None?
    ensures var http := PolicyReply(lib, d, lists).http;
            http.DeniedHttp? && CarriesDenial(lib, d, http.body, http.code) && http.headers == lists.headers
  {
    hide CarriesDenial, GetResponseBody, GetResponseEnvoyHTTPStatus, BodyUsable, StatusUsable, DecisionFault;
    CarriesTheGetters(lib, d);
    FaultFreeExactly(lib, d);
  }

  lemma OkHttpOfPolicy(lib: Library, d: Value, lists: HeaderLists)
    requires Grants(lib, d)
    ensures DecisionFault(lib, d).None? && PolicyReply(lib, d, lists).status == OK
    ensures var http := PolicyReply(lib, d, lists).http;
            d.Object? ==>
              && http.OkHttp? && CarriesRemovals(d, http.toRemove)
              && http.headers == lists.headers && http.toAdd == lists.toAdd
  {
    FaultFreeExactly(lib, d);
    if Field(d, "request_headers_to_remove").Some? {
      StringsOfIsListed(Field(d, "request_headers_to_remove").value);
    }
  }

  /** Whatever the log does, the client gets the HTTP part the policy asked for, unless dry-run replaces a denial. */
  lemma HttpIsThePolicys(cfg: Config, lib: Library, inputs: Inputs, txn: nat, lists: HeaderLists, d: Value)
    requires Decides(inputs, d) && DecisionFault(lib, d).None? && (cfg.dryRun ==> Grants(lib, d))
    ensures var resp := V3Result(cfg, lib, inputs, txn, lists).0;
            resp.Some? && resp.value.http == PolicyReply(lib, d, lists).http
  {
    hide LogOf, PolicyReply, Grants, Denies;
    DecidesExactly(inputs, d);
    if cfg.dryRun {
      OkHttpOfPolicy(lib, d, lists);
    }
  }

  /** A denial by an object reaches the client with the policy's headers, body and status. */
  lemma DenialCarriesThePolicy(cfg: Config, lib: Library, inputs: Inputs, txn: nat, lists: HeaderLists, d: Value)
    requires !cfg.dryRun && Decides(inputs, d) && Denies(lib, d) && d.Object? && ListsOk(lib, d, lists)
    ensures var resp := V3Result(cfg, lib, inputs, txn, lists).0;
            && resp.Some? && resp.value.http.DeniedHttp?
            && CarriesDenial(lib, d, resp.value.http.body, resp.value.http.code)
            && HasEntries(lib, d, "headers", resp.value.http.headers)
  {
    hide V3Result, PolicyReply, Decides, Denies, Grants, HasEntries, DecisionFault;
    DeniedHttpOfPolicy(lib, d, lists);
    HttpIsThePolicys(cfg, lib, inputs, txn, lists, d);
    HeaderListHasEntries(lib, d, "headers", lists.headers);
  }

  /** A permission by an object carries the policy's request headers, removals and response headers. */
  lemma GrantCarriesThePolicy(cfg: Config, lib: Library, inputs: Inputs, txn: nat, lists: HeaderLists, d: Value)
    requires Decides(inputs, d) && Grants(lib, d) && d.Object? && ListsOk(lib, d, lists)
    ensures var resp := V3Result(cfg, lib, inputs, txn, lists).0;
            && resp.Some? && resp.value.http.OkHttp? && CarriesRemovals(d, resp.value.http.toRemove)
            && HasEntries(lib, d, "headers", resp.value.http.headers)
            && HasEntries(lib, d, "response_headers_to_add", resp.value.http.toAdd)
  {
    hide V3Result, PolicyReply, Decides, HasEntries, DecisionFault;
    OkHttpOfPolicy(lib, d, lists);
    HttpIsThePolicys(cfg, lib, inputs, txn, lists, d);
    HeaderListHasEntries(lib, d, "headers", lists.headers);
    HeaderListHasEntries(lib, d, "response_headers_to_add", lists.toAdd);
  }

  /** A decision that is only a boolean sends nothing but its status, unless dry-run overrides it. */
  lemma BooleansSendNothing(cfg: Config, lib: Library, inputs: Inputs, txn: nat, lists: HeaderLists, flag: bool)
    requires Decides(inputs, Boolean(flag))
    ensures var resp := V3Result(cfg, lib, inputs, txn, lists).0;
            resp.Some? && resp.value.http == if cfg.dryRun && !flag then OkHttp([], [], []) else NoHttp
  {
    hide LogOf;
    DecidesExactly(inputs, Boolean(flag));
  }

  // ----- the v2 response

  function PairsRead(headers: seq<HeaderV2>): seq<Pair> {
    seq(|headers|, i requires 0 <= i < |headers| => (headers[i].key, headers[i].value))
  }

  /** v2 Check returns the error, status, header list, body and code that v3 Check returns. */
  lemma V2TellsTheSame(cfg: Config, lib: Library, inputs: Inputs, txn: nat, lists: HeaderLists)
    ensures var (v3, err) := V3Result(cfg, lib, inputs, txn, lists);
            var (v2, errV2) := ProjectV2(V3Result(cfg, lib, inputs, txn, lists));
            && errV2 == err && (v2.Some? <==> v3.Some?)
            && (v2.Some? ==> v2.value.status == v3.value.status && match v3.value.http
                case NoHttp => v2.value.http == NoHttpV2
                case OkHttp(headers, _, _) =>
                  v2.value.http.OkHttpV2? && PairsRead(v2.value.http.headers) == headers
                case DeniedHttp(headers, body, code) =>
                  && v2.value.http.DeniedHttpV2? && PairsRead(v2.value.http.headers) == headers
                  && v2.value.http.body == body && v2.value.http.code == code)
  {
    hide V3Result;
  }

  /** So a denial by an object reaches a v2 client with the policy's headers, body and status, */
  lemma V2DenialCarriesThePolicy(cfg: Config, lib: Library, inputs: Inputs, txn: nat, lists: HeaderLists, d: Value)
    requires !cfg.dryRun && Decides(inputs, d) && Denies(lib, d) && d.Object? && ListsOk(lib, d, lists)
    ensures var resp := ProjectV2(V3Result(cfg, lib, inputs, txn, lists)).0;
            && resp.Some? && resp.value.http.DeniedHttpV2?
            && CarriesDenial(lib, d, resp.value.http.body, resp.value.http.code)
            && HasEntries(lib, d, "headers", PairsRead(resp.value.http.headers))
  {
    hide V3Result, ProjectV2, Decides, Denies, HasEntries, CarriesDenial, ListsOk;
    DenialCarriesThePolicy(cfg, lib, inputs, txn, lists, d);
    V2TellsTheSame(cfg, lib, inputs, txn, lists);
  }

  /** and a permission with the policy's request headers. */
  lemma V2GrantCarriesThePolicy(cfg: Config, lib: Library, inputs: Inputs, txn: nat, lists: HeaderLists, d: Value)
    requires Decides(inputs, d) && Grants(lib, d) && d.Object? && ListsOk(lib, d, lists)
    ensures var resp := ProjectV2(V3Result(cfg, lib, inputs, txn, lists)).0;
            && resp.Some? && resp.value.http.OkHttpV2?
            && HasEntries(lib, d, "headers", PairsRead(resp.value.http.headers))
  {
    hide V3Result, ProjectV2, Decides, Grants, HasEntries, CarriesRemovals, ListsOk;
    GrantCarriesThePolicy(cfg, lib, inputs, txn, lists, d);
    V2TellsTheSame(cfg, lib, inputs, txn, lists);
  }
}
