/**
 Conservation over whole runs: any number of checks, their effects interleaved in any way.
 */
module CheckRuns {
  import opened Outcomes
  import opened Decision
  import opened DecisionLog
  import opened Effects
  import opened Evaluation
  import opened CheckSpec
  import opened Interleaving
  import Values

  /** The effects of each check: check i has the given outcomes and, if it starts, transaction `txns[i]`. */
  function PartsOf(cfg: Config, lib: Library, checks: seq<Inputs>, txns: seq<nat>): seq<seq<Entry>>
    requires |txns| == |checks|
  {
    seq(|checks|, i requires 0 <= i < |checks| => CheckEffects(cfg, lib, checks[i], txns[i]))
  }

  ghost predicate IsRun(cfg: Config, lib: Library, checks: seq<Inputs>, txns: seq<nat>, run: seq<(nat, Entry)>) {
    |txns| == |checks| && Interleaves(run, PartsOf(cfg, lib, checks, txns))
  }

  // ----- kinds of effects

  const NEVER: Entry -> bool := (e: Entry) => false
  const IS_OPENED: Entry -> bool := (e: Entry) => e.Opened?
  const IS_ABORTED: Entry -> bool := (e: Entry) => e.Aborted?
  const IS_LOGGED: Entry -> bool := (e: Entry) => e.Logged?
  const IS_FAILED_LOG: Entry -> bool := (e: Entry) => e.Logged? && e.failed
  const IS_DURATION: Entry -> bool := (e: Entry) => e.Observed?
  const IS_ERROR: Entry -> bool := (e: Entry) => e.Errored?

  function Is(x: Entry): (p: Entry -> bool) {
    (e: Entry) => e == x
  }

  lemma {:induction false} NumberIsCount(entries: seq<Entry>, x: Entry)
    ensures Number(entries, Is(x)) == Count(entries, x)
  {
    if entries != [] {
      var n := |entries| - 1;
      NumberIsCount(entries[..n], x);
      assert entries == entries[..n] + [entries[n]];
      CountSnoc(entries[..n], entries[n], x);
    }
  }

  lemma {:induction false} NumberOfNever(entries: seq<Entry>)
    ensures Number(entries, NEVER) == 0
  {
    if entries != [] {
      NumberOfNever(entries[..|entries| - 1]);
    }
  }

  // ----- one check

  /** The check fails, and its failure is counted under the label. */
  predicate CountedAs(cfg: Config, lib: Library, inputs: Inputs, reason: string) {
    cfg.metricsOn && Started(inputs) && Failure(lib, inputs).Some? && Reason(Failure(lib, inputs).value) == reason
  }

  /** A failure that a topdown error labels like a failed log. */
  predicate Collides(cfg: Config, lib: Library, inputs: Inputs) {
    CountedAs(cfg, lib, inputs, LOG_ERROR)
  }

  /** The metric of a check before its log call, if metrics are on, and after it. */
  function MetricBefore(cfg: Config, lib: Library, inputs: Inputs): seq<Entry> {
    WhenOn(cfg, [if Failure(lib, inputs).None? then Observed else Errored(Reason(Failure(lib, inputs).value))])
  }

  function MetricAfter(cfg: Config, failedLog: bool): seq<Entry> {
    WhenOn(cfg, if failedLog then [Errored(LOG_ERROR)] else [])
  }

  /** The effects of one check, one by one. */
  lemma EffectsOfCheck(cfg: Config, lib: Library, inputs: Inputs, txn: nat)
    requires Started(inputs)
    ensures var log := LogOf(cfg, lib, inputs, txn);
            CheckEffects(cfg, lib, inputs, txn) ==
            [Opened(txn)] + MetricBefore(cfg, lib, inputs) + [Logged(log.0, log.1.Some?), Aborted(txn)] +
            MetricAfter(cfg, log.1.Some?)
  {
  }

  lemma NumberOfPieces(a: Entry, before: seq<Entry>, b: Entry, c: Entry, after: seq<Entry>, p: Entry -> bool)
    ensures Number([a] + before + [b, c] + after, p) ==
            One(p(a)) + Number(before, p) + One(p(b)) + One(p(c)) + Number(after, p)
  {
    NumberOfConcat([a] + before + [b, c], after, p);
    NumberOfConcat([a] + before, [b, c], p);
    NumberOfConcat([a], before, p);
    assert [b, c] == [b] + [c];
    NumberOfConcat([b], [c], p);
    NumberOfSingle(a, p);
    NumberOfSingle(b, p);
    NumberOfSingle(c, p);
  }

  lemma NumberOfCheck(cfg: Config, lib: Library, inputs: Inputs, txn: nat, p: Entry -> bool)
    requires Started(inputs)
    ensures var log, failure := LogOf(cfg, lib, inputs, txn), Failure(lib, inputs);
            Number(CheckEffects(cfg, lib, inputs, txn), p) ==
            One(p(Opened(txn))) + One(p(Logged(log.0, log.1.Some?))) + One(p(Aborted(txn))) +
            (if !cfg.metricsOn then 0
             else (if failure.None? then One(p(Observed)) else One(p(Errored(Reason(failure.value))))) +
                  (if log.1.Some? then One(p(Errored(LOG_ERROR))) else 0))
  {
    var log := LogOf(cfg, lib, inputs, txn);
    EffectsOfCheck(cfg, lib, inputs, txn);
    NumberOfPieces(Opened(txn), MetricBefore(cfg, lib, inputs), Logged(log.0, log.1.Some?), Aborted(txn),
                   MetricAfter(cfg, log.1.Some?), p);
    NumberOfSingle(if Failure(lib, inputs).None? then Observed else Errored(Reason(Failure(lib, inputs).value)), p);
    NumberOfSingle(Errored(LOG_ERROR), p);
  }

  lemma CheckTransactions(cfg: Config, lib: Library, inputs: Inputs, txn: nat, t: nat)
    ensures var effects, started := CheckEffects(cfg, lib, inputs, txn), One(Started(inputs));
            && Number(effects, IS_OPENED) == Number(effects, IS_ABORTED) == Number(effects, IS_LOGGED) == started
            && Number(effects, Is(Opened(t))) == Number(effects, Is(Aborted(t)))
  {
    if Started(inputs) {
      NumberOfCheck(cfg, lib, inputs, txn, IS_OPENED);
      NumberOfCheck(cfg, lib, inputs, txn, IS_ABORTED);
      NumberOfCheck(cfg, lib, inputs, txn, IS_LOGGED);
      NumberOfCheck(cfg, lib, inputs, txn, Is(Opened(t)));
      NumberOfCheck(cfg, lib, inputs, txn, Is(Aborted(t)));
    }
  }

  lemma CheckMetrics(cfg: Config, lib: Library, inputs: Inputs, txn: nat)
    ensures var effects := CheckEffects(cfg, lib, inputs, txn);
            PartBalances(effects, IS_DURATION, IS_ERROR, if cfg.metricsOn then IS_FAILED_LOG else NEVER,
                         if cfg.metricsOn then One(Started(inputs)) else 0)
  {
    NumberOfNever(CheckEffects(cfg, lib, inputs, txn));
    if Started(inputs) {
      NumberOfCheck(cfg, lib, inputs, txn, IS_DURATION);
      NumberOfCheck(cfg, lib, inputs, txn, IS_ERROR);
      NumberOfCheck(cfg, lib, inputs, txn, IS_FAILED_LOG);
    }
  }

  /** The failed log calls, if the label is theirs. */
  function LogsUnder(reason: string): Entry -> bool {
    if reason == LOG_ERROR then IS_FAILED_LOG else NEVER
  }

  lemma CheckLabel(cfg: Config, lib: Library, inputs: Inputs, txn: nat, reason: string)
    requires cfg.metricsOn
    ensures PartBalances(CheckEffects(cfg, lib, inputs, txn), Is(Errored(reason)), NEVER, LogsUnder(reason),
                         One(CountedAs(cfg, lib, inputs, reason)))
  {
    hide CheckEffects, LogOf;
    NumberOfNever(CheckEffects(cfg, lib, inputs, txn));
    if Started(inputs) {
      NumberOfCheck(cfg, lib, inputs, txn, IS_FAILED_LOG);
      NumberOfCheck(cfg, lib, inputs, txn, Is(Errored(reason)));
    } else {
      assert CheckEffects(cfg, lib, inputs, txn) == [] by { NothingWithoutStart(cfg, lib, inputs, txn); }
    }
  }

  lemma NothingWithoutStart(cfg: Config, lib: Library, inputs: Inputs, txn: nat)
    requires !Started(inputs)
    ensures CheckEffects(cfg, lib, inputs, txn) == []
  {
  }

  // ----- the conservation laws

  function StartedFlags(checks: seq<Inputs>): seq<nat> {
    seq(|checks|, i requires 0 <= i < |checks| => One(Started(checks[i])))
  }

  /** How many of the checks opened a transaction. */
  function StartedChecks(checks: seq<Inputs>): nat {
    Sum(StartedFlags(checks))
  }

  function LabelFlags(cfg: Config, lib: Library, checks: seq<Inputs>, reason: string): seq<nat> {
    seq(|checks|, i requires 0 <= i < |checks| => One(CountedAs(cfg, lib, checks[i], reason)))
  }

  /** How many of the checks fail under the label. */
  function FailuresUnder(cfg: Config, lib: Library, checks: seq<Inputs>, reason: string): nat {
    Sum(LabelFlags(cfg, lib, checks, reason))
  }

  /** A kind of effect that every started check has once, and no other check has. */
  lemma OncePerStart(cfg: Config, lib: Library, checks: seq<Inputs>, txns: seq<nat>, run: seq<(nat, Entry)>,
                     p: Entry -> bool)
    requires IsRun(cfg, lib, checks, txns, run) && p in [IS_OPENED, IS_ABORTED, IS_LOGGED]
    ensures Number(Untagged(run), p) == StartedChecks(checks)
  {
    var parts := PartsOf(cfg, lib, checks, txns);
    forall i | 0 <= i < |parts| ensures PartBalances(parts[i], p, NEVER, NEVER, StartedFlags(checks)[i]) {
      CheckTransactions(cfg, lib, checks[i], txns[i], 0);
      NumberOfNever(parts[i]);
    }
    InterleavingBalances(run, parts, p, NEVER, NEVER, StartedFlags(checks));
  }

  /** Over any finished run as many transactions are aborted as opened, each one of them, and as many log calls made. */
  lemma TransactionsBalance(cfg: Config, lib: Library, checks: seq<Inputs>, txns: seq<nat>,
                            run: seq<(nat, Entry)>, t: nat)
    requires IsRun(cfg, lib, checks, txns, run)
    ensures Number(Untagged(run), IS_OPENED) == StartedChecks(checks)
    ensures Number(Untagged(run), IS_ABORTED) == StartedChecks(checks)
    ensures Number(Untagged(run), IS_LOGGED) == StartedChecks(checks)
    ensures Count(Untagged(run), Opened(t)) == Count(Untagged(run), Aborted(t))
  {
    OncePerStart(cfg, lib, checks, txns, run, IS_OPENED);
    OncePerStart(cfg, lib, checks, txns, run, IS_ABORTED);
    OncePerStart(cfg, lib, checks, txns, run, IS_LOGGED);
    EachTransactionBalances(cfg, lib, checks, txns, run, t);
  }

  lemma EachTransactionBalances(cfg: Config, lib: Library, checks: seq<Inputs>, txns: seq<nat>,
                                run: seq<(nat, Entry)>, t: nat)
    requires IsRun(cfg, lib, checks, txns, run)
    ensures Count(Untagged(run), Opened(t)) == Count(Untagged(run), Aborted(t))
  {
    var parts := PartsOf(cfg, lib, checks, txns);
    var zeros := seq(|parts|, i => 0);
    forall i | 0 <= i < |parts| ensures PartBalances(parts[i], Is(Opened(t)), NEVER, Is(Aborted(t)), zeros[i]) {
      CheckTransactions(cfg, lib, checks[i], txns[i], t);
      NumberOfNever(parts[i]);
    }
    InterleavingBalances(run, parts, Is(Opened(t)), NEVER, Is(Aborted(t)), zeros);
    SumOfZeros(zeros);
    NumberOfNever(Untagged(run));
    NumberIsCount(Untagged(run), Opened(t));
    NumberIsCount(Untagged(run), Aborted(t));
  }

  lemma {:induction false} SumOfZeros(numbers: seq<nat>)
    ensures Sum(numbers) == 0 <==> forall i :: 0 <= i < |numbers| ==> numbers[i] == 0
  {
    if numbers != [] {
      SumOfZeros(numbers[..|numbers| - 1]);
    }
  }

  /**
   With metrics on, every check that opened a transaction is either timed or counted as an error, and
   the errors beyond those are the failed log calls; with metrics off nothing is counted.
   */
  lemma MetricsBalance(cfg: Config, lib: Library, checks: seq<Inputs>, txns: seq<nat>, run: seq<(nat, Entry)>)
    requires IsRun(cfg, lib, checks, txns, run)
    ensures var durations, errors := Number(Untagged(run), IS_DURATION), Number(Untagged(run), IS_ERROR);
            if cfg.metricsOn then durations + errors == StartedChecks(checks) + Number(Untagged(run), IS_FAILED_LOG)
            else durations == errors == 0
  {
    var parts := PartsOf(cfg, lib, checks, txns);
    var r := if cfg.metricsOn then IS_FAILED_LOG else NEVER;
    var extra := if cfg.metricsOn then StartedFlags(checks) else seq(|parts|, i => 0);
    forall i | 0 <= i < |parts| ensures PartBalances(parts[i], IS_DURATION, IS_ERROR, r, extra[i]) {
      CheckMetrics(cfg, lib, checks[i], txns[i]);
    }
    InterleavingBalances(run, parts, IS_DURATION, IS_ERROR, r, extra);
    if !cfg.metricsOn {
      SumOfZeros(extra);
      NumberOfNever(Untagged(run));
    }
  }

  /** Each label counts the checks that fail under it; the label of failed log calls counts those too. */
  lemma LabelCounter(cfg: Config, lib: Library, checks: seq<Inputs>, txns: seq<nat>, run: seq<(nat, Entry)>,
                     reason: string)
    requires IsRun(cfg, lib, checks, txns, run) && cfg.metricsOn
    ensures Count(Untagged(run), Errored(reason)) ==
            FailuresUnder(cfg, lib, checks, reason) +
            if reason == LOG_ERROR then Number(Untagged(run), IS_FAILED_LOG) else 0
  {
    var parts, extra := PartsOf(cfg, lib, checks, txns), LabelFlags(cfg, lib, checks, reason);
    forall i | 0 <= i < |parts|
      ensures PartBalances(parts[i], Is(Errored(reason)), NEVER, LogsUnder(reason), extra[i])
    {
      CheckLabel(cfg, lib, checks[i], txns[i], reason);
    }
    InterleavingBalances(run, parts, Is(Errored(reason)), NEVER, LogsUnder(reason), extra);
    NumberOfNever(Untagged(run));
    NumberIsCount(Untagged(run), Errored(reason));
  }

  /** It is exact just when no check fails with an error of that label. */
  lemma LogErrorCounterExactly(cfg: Config, lib: Library, checks: seq<Inputs>, txns: seq<nat>, run: seq<(nat, Entry)>)
    requires IsRun(cfg, lib, checks, txns, run) && cfg.metricsOn
    ensures Count(Untagged(run), Errored(LOG_ERROR)) == Number(Untagged(run), IS_FAILED_LOG) <==>
            forall i :: 0 <= i < |checks| ==> !Collides(cfg, lib, checks[i])
  {
    LabelCounter(cfg, lib, checks, txns, run, LOG_ERROR);
    var flags := LabelFlags(cfg, lib, checks, LOG_ERROR);
    SumOfZeros(flags);
    assert forall i :: 0 <= i < |checks| ==> (flags[i] == 0 <==> !Collides(cfg, lib, checks[i]));
  }

  /** The codes that topdown itself gives its errors (topdown/errors.go of OPA). */
  const STOCK_CODES: set<string> := {
    "eval_internal_error", "eval_cancel_error", "eval_conflict_error",
    "eval_type_error", "eval_builtin_error", "eval_with_merge_error"
  }

  lemma FailureCodeIsNotLogError(lib: Library, inputs: Inputs)
    requires Failure(lib, inputs).Some?
    ensures Failure(lib, inputs).value.code != LOG_ERROR
  {
    hide DecisionFault, EvalFault;
    assert LOG_ERROR[0] == 'u';
    assert REQUEST_PARSE[0] == 'r' && TIMEOUT[0] == 'c' && INPUT_PARSE[0] == 'i' && EVAL[0] == 'e' && RESULT[0] == 'e';
  }

  /** So the counter is exact as long as every topdown error a check fails with has one of topdown's own codes. */
  lemma StockCodesNeverCollide(cfg: Config, lib: Library, checks: seq<Inputs>, txns: seq<nat>, run: seq<(nat, Entry)>)
    requires IsRun(cfg, lib, checks, txns, run) && cfg.metricsOn
    requires forall i :: 0 <= i < |checks| && Failure(lib, checks[i]).Some? ==>
               var code := Failure(lib, checks[i]).value.fault.TopdownCode(); code.Some? ==> code.value in STOCK_CODES
    ensures Count(Untagged(run), Errored(LOG_ERROR)) == Number(Untagged(run), IS_FAILED_LOG)
  {
    hide Failure, IsRun;
    forall i | 0 <= i < |checks| ensures !Collides(cfg, lib, checks[i]) {
      if Failure(lib, checks[i]).Some? {
        FailureCodeIsNotLogError(lib, checks[i]);
        assert LOG_ERROR[0] == 'u' && forall code :: code in STOCK_CODES ==> code[0] == 'e';
      }
    }
    LogErrorCounterExactly(cfg, lib, checks, txns, run);
  }

  /** An evaluation whose query fails with a custom builtin's own topdown error, coded like a failed log. */
  function CollidingInputs(): Inputs {
    var query := Err(Values.TopdownFault(LOG_ERROR, "", None));
    Inputs(Ok("id"), None, Ok(Values.Null), None, None,
           EvalInputs(None, Found([]), (name: string) => NotFound, NotFound, None, query),
           None, Ok(Values.Null), Absent)
  }

  lemma CollidingInputsCollide(cfg: Config, lib: Library)
    ensures Failure(lib, CollidingInputs()) == Some(Coded(EVAL, Values.TopdownFault(LOG_ERROR, "", None)))
    ensures cfg.metricsOn ==> Collides(cfg, lib, CollidingInputs())
    ensures LogOf(cfg, lib, CollidingInputs(), 0).1 == None
  {
  }

  /** One such check, with no log plugin: the counter for failed log calls exceeds the failed log calls. */
  lemma CollisionMiscounts(cfg: Config, lib: Library) returns (run: seq<(nat, Entry)>)
    requires cfg.metricsOn
    ensures Collides(cfg, lib, CollidingInputs()) && IsRun(cfg, lib, [CollidingInputs()], [0], run)
    ensures Number(Untagged(run), IS_FAILED_LOG) == 0 && Count(Untagged(run), Errored(LOG_ERROR)) == 1
  {
    hide Failure, LogOf, CheckEffects;
    var inputs := CollidingInputs();
    CollidingInputsCollide(cfg, lib);
    run := SingleRun(CheckEffects(cfg, lib, inputs, 0));
    assert PartsOf(cfg, lib, [inputs], [0]) == [CheckEffects(cfg, lib, inputs, 0)];
    NumberOfCheck(cfg, lib, inputs, 0, IS_FAILED_LOG);
    NumberOfCheck(cfg, lib, inputs, 0, Is(Errored(LOG_ERROR)));
    NumberIsCount(Untagged(run), Errored(LOG_ERROR));
  }

  /** A store whose transactions are those of a finished run has none open. */
  lemma NothingLeftOpen(cfg: Config, lib: Library, checks: seq<Inputs>, txns: seq<nat>, run: seq<(nat, Entry)>,
                        open: set<nat>, nextTxn: nat)
    requires IsRun(cfg, lib, checks, txns, run) && TxnsMatch(Untagged(run), open, nextTxn)
    ensures open == {}
  {
    forall t: nat ensures t !in open {
      EachTransactionBalances(cfg, lib, checks, txns, run, t);
    }
  }

  // ----- order, at every moment of the run

  /**
   In the effects of one check there is one log call, right before the only abort, after the only
   opening and at most one metric; after the abort only the failed log is counted.
   */
  ghost predicate InOrder(done: seq<Entry>) {
    && (forall j :: 0 <= j < |done| ==> (done[j].Opened? <==> j == 0))
    && (forall j :: 0 <= j < |done| && done[j].Aborted? ==> j > 0 && done[j - 1].Logged?)
    && (forall j, k :: 0 <= j < k < |done| ==>
          !(done[j].Logged? && done[k].Logged?) && !(done[j].Aborted? && done[k].Aborted?))
    && (forall j :: 0 <= j < |done| && done[j].Logged? ==> j <= 2)
    && (forall j, k :: 0 <= j < k < |done| && done[j].Logged? ==> done[k].Aborted? || done[k] == Errored(LOG_ERROR))
  }

  lemma PiecesAreInOrder(txn: nat, before: seq<Entry>, log: Entry, after: seq<Entry>)
    requires log.Logged?
    requires |before| <= 1 && forall e :: e in before ==> e.Observed? || e.Errored?
    requires forall e :: e in after ==> e == Errored(LOG_ERROR)
    ensures InOrder([Opened(txn)] + before + [log, Aborted(txn)] + after)
  {
    var all := [Opened(txn)] + before + [log, Aborted(txn)] + after;
    var n := |before|;
    assert all[0] == Opened(txn) && all[n + 1] == log && all[n + 2] == Aborted(txn);
    forall j | 0 < j <= n ensures all[j].Observed? || all[j].Errored? {
      assert all[j] == before[j - 1];
    }
    forall j | n + 2 < j < |all| ensures all[j] == Errored(LOG_ERROR) {
      assert all[j] == after[j - n - 3] && all[j] in after;
    }
  }

  lemma CheckIsInOrder(cfg: Config, lib: Library, inputs: Inputs, txn: nat)
    ensures InOrder(CheckEffects(cfg, lib, inputs, txn))
  {
    if Started(inputs) {
      var log := LogOf(cfg, lib, inputs, txn);
      EffectsOfCheck(cfg, lib, inputs, txn);
      PiecesAreInOrder(txn, MetricBefore(cfg, lib, inputs), Logged(log.0, log.1.Some?), MetricAfter(cfg, log.1.Some?));
    }
  }

  /** At every moment of every run, no check has aborted before logging, or done either of them twice. */
  lemma RunKeepsOrder(cfg: Config, lib: Library, checks: seq<Inputs>, txns: seq<nat>, run: seq<(nat, Entry)>,
                      k: nat, i: nat)
    requires IsRun(cfg, lib, checks, txns, run) && k <= |run| && i < |checks|
    ensures InOrder(Project(run[..k], i))
  {
    ProjectOfPrefix(run, k, i);
    var all, done := Project(run, i), Project(run[..k], i);
    assert all == PartsOf(cfg, lib, checks, txns)[i];
    CheckIsInOrder(cfg, lib, checks[i], txns[i]);
    assert forall j :: 0 <= j < |done| ==> done[j] == all[j];
  }
}
