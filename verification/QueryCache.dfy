/**
 The prepared-query cache of envoyauth/evaluation.go and internal/internal.go as a transition
 system: any number of request threads share one prepared query behind a replaceable sync.Once,
 and one writer at a time commits data and policies.

 The store is the in-memory one: a commit runs its triggers while it holds the lock that every
 read transaction shares, so the writer's steps happen only while no read transaction is open.
 What preparing and evaluating compute is left free: a prepared query is known only by the
 compiler it came from, and an answer by the query, the data and the input that gave it. Evaluating
 a query that was never prepared dereferences nil, and the panic ends the process.
 */
module QueryCache {
  import opened Outcomes

  type Compiler = nat
  type Data = nat
  type Input = nat

  /** `Empty` is what a failed preparation stores; `Unset` is the nil query before any preparation. */
  datatype Query = Unset | Empty | Prepared(compiler: Compiler)

  datatype Answer = Evaluated(query: Query, data: Data, input: Input) | PrepareFailed(compiler: Compiler)

  datatype Once = Fresh | Running | Done

  /** Where a thread is in Eval; a Once is named by its index in `onces`. */
  datatype Pc =
    | Idle
    | Opened
    | Fetched(once: nat)
    | Building(once: nat)
    | Built(once: nat, error: Option<Compiler>)
    | Passed
    | Refused(failed: Compiler)
    | Holding(query: Query)
    | Answered

  /** `compiler` and `data` are what the store held when the thread opened its transaction. */
  datatype Thread = Thread(pc: Pc, input: Input, compiler: Compiler, data: Data)

  /** The store lock as the writer sees it; `Installed` is a new compiler whose trigger has not run yet. */
  datatype Writer = Unlocked | Locked | Installed

  datatype State = State(
    compiler: Compiler,
    data: Data,
    onces: seq<Once>,
    current: nat,
    query: Query,
    writer: Writer,
    crashed: bool,
    threads: seq<Thread>
  )

  datatype Label =
    | Open(t: nat, input: Input)
    | Abandon(t: nat)
    | Fetch(t: nat)
    | Start(t: nat)
    | Set(t: nat)
    | Finish(t: nat)
    | Join(t: nat)
    | Fail(t: nat)
    | Read(t: nat)
    | Evaluate(t: nat)
    | Crash(t: nat)
    | Close(t: nat)
    | Lock
    | Commit(newData: Data)
    | Install(newCompiler: Compiler)
    | Swap
    | Unlock

  predicate NoneOpen(s: State) {
    forall t :: 0 <= t < |s.threads| ==> s.threads[t].pc == Idle
  }

  function Moved(s: State, t: nat, pc: Pc): State
    requires t < |s.threads|
  {
    s.(threads := s.threads[t := s.threads[t].(pc := pc)])
  }

  function PrepareQuery(prepares: Compiler -> bool, c: Compiler): Query {
    if prepares(c) then Prepared(c) else Empty
  }

  predicate At(s: State, t: nat, pc: Pc) {
    t < |s.threads| && s.threads[t].pc == pc
  }

  /**
   One step; `prepares` says for which compilers PrepareForEval succeeds. A request may end before it
   fetches the Once: the check's earlier stages and the reading of revisions can fail.
   */
  predicate Next(prepares: Compiler -> bool, s: State, step: Label, s': State) {
    !s.crashed &&
    match step
    case Open(t, input) =>
      && At(s, t, Idle) && s.writer == Unlocked
      && s' == s.(threads := s.threads[t := Thread(Opened, input, s.compiler, s.data)])
    case Abandon(t) =>
      At(s, t, Opened) && s' == Moved(s, t, Answered)
    case Fetch(t) =>
      At(s, t, Opened) && s' == Moved(s, t, Fetched(s.current))
    case Start(t) =>
      && t < |s.threads| && s.threads[t].pc.Fetched?
      && var o := s.threads[t].pc.once;
         o < |s.onces| && s.onces[o] == Fresh
         && s' == Moved(s.(onces := s.onces[o := Running]), t, Building(o))
    case Set(t) =>
      && t < |s.threads| && s.threads[t].pc.Building?
      && var error := if prepares(s.compiler) then None else Some(s.compiler);
         s' == Moved(s.(query := PrepareQuery(prepares, s.compiler)), t, Built(s.threads[t].pc.once, error))
    case Finish(t) =>
      && t < |s.threads| && s.threads[t].pc.Built? && s.threads[t].pc.once < |s.onces|
      && var pc := s.threads[t].pc;
         s' == Moved(s.(onces := s.onces[pc.once := Done]), t,
                     if pc.error.Some? then Refused(pc.error.value) else Passed)
    case Join(t) =>
      && t < |s.threads| && s.threads[t].pc.Fetched?
      && s.threads[t].pc.once < |s.onces| && s.onces[s.threads[t].pc.once] == Done
      && s' == Moved(s, t, Passed)
    case Fail(t) =>
      t < |s.threads| && s.threads[t].pc.Refused? && s' == Moved(s, t, Answered)
    case Read(t) =>
      At(s, t, Passed) && s' == Moved(s, t, Holding(s.query))
    case Evaluate(t) =>
      && t < |s.threads| && s.threads[t].pc.Holding? && s.threads[t].pc.query.Prepared?
      && s' == Moved(s, t, Answered)
    case Crash(t) =>
      && t < |s.threads| && s.threads[t].pc.Holding? && !s.threads[t].pc.query.Prepared?
      && s' == s.(crashed := true)
    case Close(t) =>
      At(s, t, Answered) && s' == Moved(s, t, Idle)
    case Lock =>
      s.writer == Unlocked && NoneOpen(s) && s' == s.(writer := Locked)
    case Commit(newData) =>
      s.writer == Locked && s' == s.(data := newData)
    case Install(newCompiler) =>
      s.writer == Locked && s' == s.(compiler := newCompiler, writer := Installed)
    case Swap =>
      s.writer == Installed && s' == s.(onces := s.onces + [Fresh], current := |s.onces|, writer := Locked)
    case Unlock =>
      s.writer == Locked && s' == s.(writer := Unlocked)
  }

  predicate Init(s: State) {
    && s.onces == [Fresh] && s.current == 0
    && s.query == Unset && s.writer == Unlocked && !s.crashed && NoneOpen(s)
  }

  /** The answer a step gives its caller, if it gives one. */
  function AnswerOf(s: State, step: Label): Option<Answer> {
    match step
    case Evaluate(t) =>
      if t < |s.threads| && s.threads[t].pc.Holding? && s.threads[t].pc.query.Prepared?
      then Some(Evaluated(s.threads[t].pc.query, s.data, s.threads[t].input)) else None
    case Fail(t) =>
      if t < |s.threads| && s.threads[t].pc.Refused? then Some(PrepareFailed(s.threads[t].pc.failed)) else None
    case _ => None
  }

  // ----- the invariant

  /** What each thread knows about the Once it fetched and the query it read. */
  predicate ThreadOk(prepares: Compiler -> bool, s: State, th: Thread)
    requires s.current < |s.onces|
  {
    && (th.pc != Idle ==> s.writer == Unlocked && th.compiler == s.compiler && th.data == s.data)
    && match th.pc
       case Fetched(o) => o == s.current
       case Building(o) => o == s.current && s.onces[o] == Running
       case Built(o, error) =>
         && o == s.current && s.onces[o] == Running && s.query == PrepareQuery(prepares, s.compiler)
         && error == (if prepares(s.compiler) then None else Some(s.compiler))
       case Passed => s.onces[s.current] == Done
       case Refused(c) => c == s.compiler && !prepares(c)
       case Holding(q) => q == PrepareQuery(prepares, s.compiler)
       case _ => true
  }

  predicate Constructing(th: Thread) {
    th.pc.Building? || th.pc.Built?
  }

  ghost predicate ThreadsOk(prepares: Compiler -> bool, s: State)
    requires s.current < |s.onces|
  {
    forall t :: 0 <= t < |s.threads| ==> ThreadOk(prepares, s, s.threads[t])
  }

  /** The Once is running exactly while one thread is inside its function. */
  ghost predicate BuilderOk(s: State)
    requires s.current < |s.onces|
  {
    && (forall t, u :: 0 <= t < u < |s.threads| ==> !Constructing(s.threads[t]) || !Constructing(s.threads[u]))
    && (s.onces[s.current] == Running ==> exists t :: 0 <= t < |s.threads| && Constructing(s.threads[t]))
  }

  ghost predicate Inv(prepares: Compiler -> bool, s: State) {
    && s.current < |s.onces|
    && ThreadsOk(prepares, s)
    && BuilderOk(s)
    && (s.onces[s.current] == Done && s.writer != Installed ==> s.query == PrepareQuery(prepares, s.compiler))
  }

  lemma InitHasInv(prepares: Compiler -> bool, s: State)
    requires Init(s)
    ensures Inv(prepares, s)
  {
  }

  predicate IsWriterStep(step: Label) {
    step.Lock? || step.Commit? || step.Install? || step.Swap? || step.Unlock?
  }

  lemma WriterStepKeepsInv(prepares: Compiler -> bool, s: State, step: Label, s': State)
    requires Inv(prepares, s) && Next(prepares, s, step, s') && IsWriterStep(step)
    ensures Inv(prepares, s')
  {
    forall t | 0 <= t < |s.threads| ensures s.threads[t].pc == Idle {
      assert ThreadOk(prepares, s, s.threads[t]);
    }
    assert s'.threads == s.threads;
  }

  lemma ThreadStepKeepsThreadsOk(prepares: Compiler -> bool, s: State, step: Label, s': State)
    requires Inv(prepares, s) && Next(prepares, s, step, s') && !IsWriterStep(step)
    ensures s'.current == s.current < |s'.onces| && ThreadsOk(prepares, s')
    ensures s'.onces[s'.current] == Done && s'.writer != Installed ==> s'.query == PrepareQuery(prepares, s'.compiler)
  {
    assert ThreadOk(prepares, s, s.threads[step.t]);
    forall u | 0 <= u < |s'.threads| ensures ThreadOk(prepares, s', s'.threads[u]) {
      assert ThreadOk(prepares, s, s.threads[u]);
      if u != step.t && Constructing(s.threads[u]) {
        assert !Constructing(s.threads[step.t]);
      }
    }
  }

  /** A thread that starts building finds nobody else building. */
  lemma StartKeepsBuilderOk(prepares: Compiler -> bool, s: State, step: Label, s': State)
    requires Inv(prepares, s) && Next(prepares, s, step, s') && step.Start?
    ensures s'.current < |s'.onces| && BuilderOk(s')
  {
    assert ThreadOk(prepares, s, s.threads[step.t]);
    forall u | 0 <= u < |s.threads| ensures !Constructing(s.threads[u]) {
      assert ThreadOk(prepares, s, s.threads[u]);
    }
    assert Constructing(s'.threads[step.t]);
  }

  lemma ThreadStepKeepsBuilderOk(prepares: Compiler -> bool, s: State, step: Label, s': State)
    requires Inv(prepares, s) && Next(prepares, s, step, s') && !IsWriterStep(step) && !step.Start?
    ensures s'.current < |s'.onces| && BuilderOk(s')
  {
    var th, th' := s.threads[step.t], s'.threads[step.t];
    assert ThreadOk(prepares, s, th);
    assert s'.threads == s.threads[step.t := th'];
    assert Constructing(th') ==> Constructing(th);
    if s'.onces[s'.current] == Running {
      var b :| 0 <= b < |s.threads| && Constructing(s.threads[b]);
      assert Constructing(s'.threads[b]);
    }
  }

  lemma StepKeepsInv(prepares: Compiler -> bool, s: State, step: Label, s': State)
    requires Inv(prepares, s) && Next(prepares, s, step, s')
    ensures Inv(prepares, s')
  {
    if IsWriterStep(step) {
      WriterStepKeepsInv(prepares, s, step, s');
    } else {
      ThreadStepKeepsThreadsOk(prepares, s, step, s');
      if step.Start? {
        StartKeepsBuilderOk(prepares, s, step, s');
      } else {
        ThreadStepKeepsBuilderOk(prepares, s, step, s');
      }
    }
  }

  // ----- runs

  /** The states of a run: `states[i]` steps to `states[i + 1]` by `labels[i]`. */
  ghost predicate IsRun(prepares: Compiler -> bool, states: seq<State>, labels: seq<Label>) {
    && |states| == |labels| + 1 && Init(states[0])
    && forall i :: 0 <= i < |labels| ==> Next(prepares, states[i], labels[i], states[i + 1])
  }

  lemma {:induction false} RunHasInv(prepares: Compiler -> bool, states: seq<State>, labels: seq<Label>, i: nat)
    requires IsRun(prepares, states, labels) && i < |states|
    ensures Inv(prepares, states[i])
  {
    hide Next, Inv, Init;
    if i == 0 {
      InitHasInv(prepares, states[0]);
    } else {
      RunHasInv(prepares, states, labels, i - 1);
      StepKeepsInv(prepares, states[i - 1], labels[i - 1], states[i]);
    }
  }

  /** No run gets stuck while a transaction is open: some thread that has one can always step. */
  lemma NoDeadlock(prepares: Compiler -> bool, states: seq<State>, labels: seq<Label>, i: nat)
    requires IsRun(prepares, states, labels) && i < |states| && !states[i].crashed && !NoneOpen(states[i])
    ensures exists step: Label, s' ::
              !step.Open? && !IsWriterStep(step) && Next(prepares, states[i], step, s')
  {
    RunHasInv(prepares, states, labels, i);
    var s := states[i];
    var t :| 0 <= t < |s.threads| && s.threads[t].pc != Idle;
    if s.threads[t].pc.Fetched? && s.onces[s.current] == Running {
      var b :| 0 <= b < |s.threads| && Constructing(s.threads[b]);
      var _, _ := SomeStep(prepares, s, b);
    } else {
      var _, _ := SomeStep(prepares, s, t);
    }
  }

  /** The step of a thread that is not waiting for a running Once. */
  lemma SomeStep(prepares: Compiler -> bool, s: State, t: nat) returns (step: Label, s': State)
    requires Inv(prepares, s) && !s.crashed && t < |s.threads| && s.threads[t].pc != Idle
    requires s.threads[t].pc.Fetched? ==> s.onces[s.current] != Running
    ensures !step.Open? && !IsWriterStep(step) && Next(prepares, s, step, s')
  {
    assert ThreadOk(prepares, s, s.threads[t]);
    match s.threads[t].pc
    case Opened => step, s' := Fetch(t), Moved(s, t, Fetched(s.current));
    case Fetched(o) =>
      if s.onces[o] == Fresh {
        step, s' := Start(t), Moved(s.(onces := s.onces[o := Running]), t, Building(o));
      } else {
        step, s' := Join(t), Moved(s, t, Passed);
      }
    case Building(o) =>
      step := Set(t);
      s' := Moved(s.(query := PrepareQuery(prepares, s.compiler)), t,
                  Built(o, if prepares(s.compiler) then None else Some(s.compiler)));
    case Built(o, error) =>
      step := Finish(t);
      s' := Moved(s.(onces := s.onces[o := Done]), t, if error.Some? then Refused(error.value) else Passed);
    case Passed => step, s' := Read(t), Moved(s, t, Holding(s.query));
    case Refused(c) => step, s' := Fail(t), Moved(s, t, Answered);
    case Holding(q) =>
      if q.Prepared? {
        step, s' := Evaluate(t), Moved(s, t, Answered);
      } else {
        step, s' := Crash(t), s.(crashed := true);
      }
    case Answered => step, s' := Close(t), Moved(s, t, Idle);
  }

  // ----- every transaction ends

  /** How many steps of its own a thread has left at most. */
  function Rank(pc: Pc): nat {
    match pc
    case Opened => 7
    case Fetched(_) => 6
    case Building(_) => 5
    case Built(_, _) => 4
    case Passed => 3
    case Refused(_) => 2
    case Holding(_) => 2
    case Answered => 1
    case Idle => 0
  }

  function RankOf(threads: seq<Thread>): nat {
    if threads == [] then 0 else RankOf(threads[..|threads| - 1]) + Rank(threads[|threads| - 1].pc)
  }

  /** A crashed process has no step left. */
  function StepsLeft(s: State): nat {
    if s.crashed then 0 else RankOf(s.threads)
  }

  lemma {:induction false} RankOfUpdate(threads: seq<Thread>, t: nat, th: Thread)
    requires t < |threads|
    ensures RankOf(threads[t := th]) == RankOf(threads) - Rank(threads[t].pc) + Rank(th.pc)
    ensures RankOf(threads) >= Rank(threads[t].pc)
  {
    var n := |threads| - 1;
    if t < n {
      RankOfUpdate(threads[..n], t, th);
      assert threads[t := th][..n] == threads[..n][t := th];
    } else {
      assert threads[t := th][..n] == threads[..n];
    }
  }

  lemma {:induction false} RankZeroExactly(threads: seq<Thread>)
    ensures RankOf(threads) == 0 <==> forall t :: 0 <= t < |threads| ==> threads[t].pc == Idle
  {
    if threads != [] {
      RankZeroExactly(threads[..|threads| - 1]);
    }
  }

  /** Every step of a thread but opening a transaction brings the ends of the open ones nearer. */
  lemma ThreadStepLowersRank(prepares: Compiler -> bool, s: State, step: Label, s': State)
    requires Next(prepares, s, step, s') && !step.Open? && !IsWriterStep(step)
    ensures StepsLeft(s') < StepsLeft(s)
  {
    RankOfUpdate(s.threads, step.t, s'.threads[step.t]);
    assert step.Crash? || s'.threads == s.threads[step.t := s'.threads[step.t]];
  }

  /** The writer waits for the open transactions. */
  lemma WriterStepMeansNoneOpen(prepares: Compiler -> bool, s: State, step: Label, s': State)
    requires Inv(prepares, s) && Next(prepares, s, step, s') && IsWriterStep(step)
    ensures NoneOpen(s)
  {
    forall t | 0 <= t < |s.threads| ensures s.threads[t].pc == Idle {
      assert ThreadOk(prepares, s, s.threads[t]);
    }
  }

  /**
   Once no new transaction opens, all are closed, or the process has crashed, within StepsLeft steps
   of the run; with NoDeadlock, no wait on the Once is forever.
   */
  lemma {:induction false} TransactionsEnd(prepares: Compiler -> bool, states: seq<State>, labels: seq<Label>,
                                           i: nat, j: nat)
    requires IsRun(prepares, states, labels) && i <= j < |states|
    requires forall k :: i <= k < j ==> !labels[k].Open?
    requires j - i >= StepsLeft(states[i])
    ensures exists k :: i <= k <= j && (NoneOpen(states[k]) || states[k].crashed)
    decreases j - i
  {
    hide Next, Inv;
    RankZeroExactly(states[i].threads);
    if !NoneOpen(states[i]) && !states[i].crashed {
      assert Next(prepares, states[i], labels[i], states[i + 1]);
      if IsWriterStep(labels[i]) {
        RunHasInv(prepares, states, labels, i);
        WriterStepMeansNoneOpen(prepares, states[i], labels[i], states[i + 1]);
      } else {
        ThreadStepLowersRank(prepares, states[i], labels[i], states[i + 1]);
        TransactionsEnd(prepares, states, labels, i + 1, j);
      }
    }
  }
}
