/** What the decision log tells about a check, and what a failing log does to its answer. */
module LogTheorems {
  import opened Outcomes
  import opened Values
  import opened Effects
  import opened Evaluation
  import opened DecisionLog
  import opened CheckSpec
  import Decision

  // ----- errors and what they wrap

  /** `g` is `f` or an error that `f` wraps, at any depth. */
  predicate Unwraps(f: Fault, g: Fault) {
    || f == g
    || match f
       case Wrapped(_, cause) => Unwraps(cause, g)
       case TopdownFault(_, _, inner) => inner.Some? && Unwraps(inner.value, g)
       case _ => false
  }

  predicate IsTopdown(f: Fault, code: string) {
    f.TopdownFault? && f.code == code
  }

  /** A cancellation is any topdown error in the chain with that code. */
  lemma {:induction false} CancelExactly(f: Fault)
    ensures f.IsCancel() <==> exists g :: Unwraps(f, g) && IsTopdown(g, "eval_cancel_error")
  {
    if f.Wrapped? {
      CancelExactly(f.cause);
    } else if f.TopdownFault? && f.inner.Some? {
      CancelExactly(f.inner.value);
    }
    assert Unwraps(f, f);
    if f.IsCancel() && !IsTopdown(f, "eval_cancel_error") {
      var next := if f.Wrapped? then f.cause else f.inner.value;
      var g :| Unwraps(next, g) && IsTopdown(g, "eval_cancel_error");
      assert Unwraps(f, g);
    }
  }

  /** The code found in a chain is that of the topdown error that wraps all the others. */
  lemma {:induction false} TopdownCodeExactly(f: Fault, code: string)
    ensures f.TopdownCode() == Some(code) <==>
            exists g :: Unwraps(f, g) && IsTopdown(g, code) &&
                        forall h :: Unwraps(f, h) && h.TopdownFault? ==> Unwraps(g, h)
  {
    if f.Wrapped? {
      TopdownCodeExactly(f.cause, code);
      assert forall g: Fault :: g.TopdownFault? ==> (Unwraps(f, g) <==> Unwraps(f.cause, g));
    } else if f.TopdownFault? {
      assert Unwraps(f, f);
      forall g | Unwraps(f, g) && Unwraps(g, f) ensures g == f {
        UnwrapsIsSmaller(f, g);
        UnwrapsIsSmaller(g, f);
      }
    }
  }

  function Depth(f: Fault): nat {
    match f
    case Wrapped(_, cause) => 1 + Depth(cause)
    case TopdownFault(_, _, inner) => if inner.Some? then 1 + Depth(inner.value) else 0
    case _ => 0
  }

  lemma {:induction false} UnwrapsIsSmaller(f: Fault, g: Fault)
    requires Unwraps(f, g)
    ensures f == g || Depth(g) < Depth(f)
  {
    if f != g {
      UnwrapsIsSmaller(if f.Wrapped? then f.cause else f.inner.value, g);
    }
  }

  /**
   How an error is recorded: a storage, ast or topdown error as it is, but a cancellation by one fixed
   error; any other error, a wrapped one included, by its message.
   */
  ghost predicate Records(logged: LoggedError, f: Fault) {
    match f
    case StorageFault(_) => logged == AsIs(f)
    case AstFault(_) => logged == AsIs(f)
    case AstFaults(_) => logged == AsIs(f)
    case TopdownFault(_, _, _) =>
      if exists g :: Unwraps(f, g) && IsTopdown(g, "eval_cancel_error") then logged == Canceled else logged == AsIs(f)
    case _ => logged == LoggedError.Plain(f.Message())
  }

  // ----- the event

  /**
   A started check makes one log call, between opening and aborting its transaction. Its event, if
   there is one, names that transaction, carries an error exactly when the check returns one, and
   otherwise carries the policy's own decision, dry-run or not.
   */
  lemma EventTellsTheOutcome(cfg: Config, lib: Decision.Library, inputs: Inputs, txn: nat, lists: Decision.HeaderLists)
    requires Started(inputs)
    ensures var (event, logErr) := LogOf(cfg, lib, inputs, txn);
            var err := V3Result(cfg, lib, inputs, txn, lists).1;
            && (event.None? <==>
                inputs.plugin.Absent? || (cfg.ndbOn && inputs.ndbJson.Err? && StageFailure(inputs).None?))
            && (event.Some? ==>
                && event.value.decisionId == inputs.decisionId.value && event.value.txn == Some(txn)
                && (err.Some? ==> event.value.outcome.Failed? && Records(event.value.outcome.error, err.value))
                && (err.None? ==> event.value.outcome == Decided(PolicyDecision(inputs))))
  {
    var err := V3Result(cfg, lib, inputs, txn, lists).1;
    if err.Some? {
      CancelExactly(err.value);
    }
  }

  /** The event tells the request by its query, path, trace, input, builtin cache and legacy revision. */
  lemma EventTellsTheRequest(cfg: Config, lib: Decision.Library, inputs: Inputs, txn: nat)
    requires Started(inputs) && LogOf(cfg, lib, inputs, txn).0.Some?
    ensures var event := LogOf(cfg, lib, inputs, txn).0.value;
            && event.query == cfg.query && event.path == cfg.path
            && (inputs.span.Some? ==>
                event.traceId == inputs.span.value.traceId && event.spanId == inputs.span.value.spanId)
            && (inputs.span.None? ==> event.traceId == event.spanId == "")
            && (inputs.request.Ok? ==> event.input == Some(inputs.request.value))
            && (inputs.request.Err? ==> event.input == None)
            && (if cfg.ndbOn && StageFailure(inputs).None?
                then inputs.ndbJson.Ok? && event.ndbCache == Some(inputs.ndbJson.value) else event.ndbCache == None)
            && event.revision ==
               if ReachesEval(inputs) && RevisionFault(inputs.eval).None? && inputs.eval.legacy.Found?
               then inputs.eval.legacy.value else ""
  {
    hide Failure, LoggedErrorOf;
  }

  /** The event lists the revision of every bundle the evaluation read, and no other. */
  lemma EventListsTheBundles(cfg: Config, lib: Decision.Library, inputs: Inputs, txn: nat)
    requires Started(inputs) && ReachesEval(inputs) && LogOf(cfg, lib, inputs, txn).0.Some?
    ensures var bundles := LogOf(cfg, lib, inputs, txn).0.value.bundles;
            if RevisionFault(inputs.eval).Some? then bundles == map[]
            else forall name :: name in bundles <==> name in NamesOf(inputs.eval.names)
    ensures var bundles := LogOf(cfg, lib, inputs, txn).0.value.bundles;
            forall name :: name in bundles ==>
              match inputs.eval.revision(name)
              case Found(revision) => bundles[name].revision == revision
              case NotFound => bundles[name].revision == ""
              case Broken(_) => false
  {
    var names := NamesOf(inputs.eval.names);
    if RevisionFault(inputs.eval).None? {
      forall name | name in names ensures OrEmpty(inputs.eval.revision(name)).Some? {
        var i :| 0 <= i < |names| && names[i] == name;
        assert !inputs.eval.revision(names[i]).Broken?;
      }
    }
  }

  /** A failed log replaces the status by the message of its error; otherwise the verdict stands. */
  lemma FailedLogReplacesTheStatus(cfg: Config, lib: Decision.Library, inputs: Inputs, txn: nat,
                                   lists: Decision.HeaderLists)
    requires V3Result(cfg, lib, inputs, txn, lists).0.Some?
    ensures var status := V3Result(cfg, lib, inputs, txn, lists).0.value.status;
            if cfg.ndbOn && inputs.ndbJson.Err? then status == UNKNOWN(inputs.ndbJson.error.Message())
            else if inputs.plugin.Present? && inputs.plugin.failure.Some?
            then status == UNKNOWN(inputs.plugin.failure.value.Message())
            else status in {OK, PERMISSION_DENIED}
  {
  }
}
