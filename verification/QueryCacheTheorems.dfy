/**
 What every interleaving of requests and policy updates guarantees: the shared query behaves like
 preparing afresh for every request, it is built once per update, and it is never read too early.
 */
module QueryCacheTheorems {
  import opened Outcomes
  import opened QueryCache

  // ----- the service without a cache: each request prepares its own query

  datatype Caller = Free | Waiting(input: Input) | Served

  datatype Plain = Plain(compiler: Compiler, data: Data, callers: seq<Caller>)

  datatype Event =
    | Request(t: nat, input: Input)
    | Reply(t: nat, answer: Answer)
    | GiveUp(t: nat)
    | Panic(t: nat)
    | Release(t: nat)
    | NewData(data: Data)
    | NewCompiler(compiler: Compiler)

  function PrepareAfresh(prepares: Compiler -> bool, compiler: Compiler, data: Data, input: Input): Answer {
    if prepares(compiler) then Evaluated(Prepared(compiler), data, input) else PrepareFailed(compiler)
  }

  predicate AllFree(a: Plain) {
    forall t :: 0 <= t < |a.callers| ==> a.callers[t] == Free
  }

  /** A request may end without an answer before its query is wanted, but never panics. */
  predicate PlainNext(prepares: Compiler -> bool, a: Plain, event: Option<Event>, a': Plain) {
    match event
    case None => a' == a
    case Some(Request(t, input)) =>
      t < |a.callers| && a.callers[t] == Free && a' == a.(callers := a.callers[t := Waiting(input)])
    case Some(Reply(t, answer)) =>
      && t < |a.callers| && a.callers[t].Waiting?
      && answer == PrepareAfresh(prepares, a.compiler, a.data, a.callers[t].input)
      && a' == a.(callers := a.callers[t := Served])
    case Some(GiveUp(t)) =>
      t < |a.callers| && a.callers[t].Waiting? && a' == a.(callers := a.callers[t := Served])
    case Some(Panic(t)) => false
    case Some(Release(t)) =>
      t < |a.callers| && a.callers[t] == Served && a' == a.(callers := a.callers[t := Free])
    case Some(NewData(d)) => AllFree(a) && a' == a.(data := d)
    case Some(NewCompiler(c)) => AllFree(a) && a' == a.(compiler := c)
  }

  // ----- the cached service, seen from outside

  function CallerOf(th: Thread): Caller {
    match th.pc
    case Idle => Free
    case Answered => Served
    case _ => Waiting(th.input)
  }

  function Abs(s: State): Plain {
    Plain(s.compiler, s.data, seq(|s.threads|, t requires 0 <= t < |s.threads| => CallerOf(s.threads[t])))
  }

  function EventOf(s: State, step: Label): Option<Event> {
    match step
    case Open(t, input) => Some(Request(t, input))
    case Evaluate(t) => if AnswerOf(s, step).Some? then Some(Reply(t, AnswerOf(s, step).value)) else None
    case Fail(t) => if AnswerOf(s, step).Some? then Some(Reply(t, AnswerOf(s, step).value)) else None
    case Abandon(t) => Some(GiveUp(t))
    case Crash(t) => Some(Panic(t))
    case Close(t) => Some(Release(t))
    case Commit(d) => Some(NewData(d))
    case Install(c) => Some(NewCompiler(c))
    case _ => None
  }

  lemma WriterStepRefines(prepares: Compiler -> bool, s: State, step: Label, s': State)
    requires Inv(prepares, s) && Next(prepares, s, step, s') && IsWriterStep(step)
    ensures PlainNext(prepares, Abs(s), EventOf(s, step), Abs(s'))
  {
    forall t | 0 <= t < |s.threads| ensures s.threads[t].pc == Idle {
      assert ThreadOk(prepares, s, s.threads[t]);
    }
    assert Abs(s').callers == Abs(s).callers;
  }

  lemma ThreadStepRefines(prepares: Compiler -> bool, s: State, step: Label, s': State)
    requires Next(prepares, s, step, s') && !IsWriterStep(step)
    requires s.current < |s.onces| && ThreadOk(prepares, s, s.threads[step.t])
    ensures PlainNext(prepares, Abs(s), EventOf(s, step), Abs(s')) <==> !step.Crash?
    ensures step.Crash? ==> !prepares(s.compiler)
    ensures step.Evaluate? ==> prepares(s.compiler)
  {
    var th, th' := s.threads[step.t], s'.threads[step.t];
    assert Abs(s').callers == Abs(s).callers[step.t := CallerOf(th')];
    assert Abs(s).callers[step.t] == CallerOf(th);
    assert Abs(s).callers[step.t := CallerOf(th)] == Abs(s).callers;
  }

  /** A step of the cached service is a step of the plain one, except the panic after a failed preparation. */
  lemma StepRefines(prepares: Compiler -> bool, s: State, step: Label, s': State)
    requires Inv(prepares, s) && Next(prepares, s, step, s')
    ensures PlainNext(prepares, Abs(s), EventOf(s, step), Abs(s')) <==> !step.Crash?
    ensures step.Crash? ==> !prepares(s.compiler)
    ensures step.Evaluate? ==> prepares(s.compiler)
  {
    if IsWriterStep(step) {
      WriterStepRefines(prepares, s, step, s');
    } else {
      assert ThreadOk(prepares, s, s.threads[step.t]);
      ThreadStepRefines(prepares, s, step, s');
    }
  }

  /** Seen from outside, step i is one the plain service can make. */
  predicate StepLooksPlain(prepares: Compiler -> bool, states: seq<State>, steps: seq<Label>, i: nat)
    requires |states| == |steps| + 1 && i < |steps|
  {
    PlainNext(prepares, Abs(states[i]), EventOf(states[i], steps[i]), Abs(states[i + 1]))
  }

  /** If step i runs the shared query, then preparation succeeds for the compiler it runs under. */
  predicate StepIsPrepared(prepares: Compiler -> bool, states: seq<State>, steps: seq<Label>, i: nat)
    requires |states| == |steps| + 1 && i < |steps|
  {
    steps[i].Evaluate? || steps[i].Crash? ==> prepares(states[i].compiler)
  }

  /** The cache refines preparing afresh in exactly the runs that never run the query after a failed preparation. */
  lemma CacheRefinesPreparingAfresh(prepares: Compiler -> bool, states: seq<State>, steps: seq<Label>)
    requires IsRun(prepares, states, steps)
    ensures (forall i :: 0 <= i < |steps| ==> StepLooksPlain(prepares, states, steps, i)) <==>
            (forall i :: 0 <= i < |steps| ==> StepIsPrepared(prepares, states, steps, i))
  {
    hide Next, Inv, PlainNext;
    forall i | 0 <= i < |steps|
      ensures StepLooksPlain(prepares, states, steps, i) <==> StepIsPrepared(prepares, states, steps, i)
    {
      RunHasInv(prepares, states, steps, i);
      StepRefines(prepares, states[i], steps[i], states[i + 1]);
    }
  }

  /** In particular whenever preparation never fails. */
  lemma CacheIsTransparent(prepares: Compiler -> bool, states: seq<State>, steps: seq<Label>)
    requires IsRun(prepares, states, steps)
    requires forall c :: prepares(c)
    ensures forall i :: 0 <= i < |steps| ==> StepLooksPlain(prepares, states, steps, i)
  {
    CacheRefinesPreparingAfresh(prepares, states, steps);
    assert forall i :: 0 <= i < |steps| ==> StepIsPrepared(prepares, states, steps, i);
  }

  /** Every answer is what preparing afresh gives for the compiler and data the thread's own transaction opened with. */
  lemma AnswersMatchTheirTransaction(prepares: Compiler -> bool, states: seq<State>, steps: seq<Label>, i: nat)
    requires IsRun(prepares, states, steps) && i < |steps| && AnswerOf(states[i], steps[i]).Some?
    ensures steps[i].t < |states[i].threads|
    ensures var th := states[i].threads[steps[i].t];
            AnswerOf(states[i], steps[i]).value == PrepareAfresh(prepares, th.compiler, th.data, th.input)
  {
    RunHasInv(prepares, states, steps, i);
    assert Next(prepares, states[i], steps[i], states[i + 1]);
    assert ThreadOk(prepares, states[i], states[i].threads[steps[i].t]);
  }

  /** A thread that is about to run the shared query will panic just when preparation failed for its own compiler. */
  lemma PanicsExactly(prepares: Compiler -> bool, states: seq<State>, steps: seq<Label>, i: nat, t: nat)
    requires IsRun(prepares, states, steps) && i < |states| && !states[i].crashed
    requires t < |states[i].threads| && states[i].threads[t].pc.Holding?
    ensures !prepares(states[i].threads[t].compiler) <==> exists s' :: Next(prepares, states[i], Crash(t), s')
    ensures prepares(states[i].threads[t].compiler) <==> exists s' :: Next(prepares, states[i], Evaluate(t), s')
  {
    RunHasInv(prepares, states, steps, i);
    var s := states[i];
    assert ThreadOk(prepares, s, s.threads[t]);
    if prepares(s.compiler) {
      assert Next(prepares, s, Evaluate(t), Moved(s, t, Answered));
    } else {
      assert Next(prepares, s, Crash(t), s.(crashed := true));
    }
  }

  /** Preparation never succeeds. */
  const NEVER: Compiler -> bool := c => false

  /** Two threads that share one Once, with compiler 0 and data 0. */
  function Duo(once: Once, query: Query, a: Pc, b: Pc): State {
    State(0, 0, [once], 0, query, Unlocked, false, [Thread(a, 7, 0, 0), Thread(b, 9, 0, 0)])
  }

  lemma DuoMoves(once: Once, query: Query, a: Pc, b: Pc, pc: Pc)
    ensures Moved(Duo(once, query, a, b), 0, pc) == Duo(once, query, pc, b)
    ensures Moved(Duo(once, query, a, b), 1, pc) == Duo(once, query, a, pc)
  {
    var s := Duo(once, query, a, b);
    assert s.threads[0 := s.threads[0].(pc := pc)] == Duo(once, query, pc, b).threads;
    assert s.threads[1 := s.threads[1].(pc := pc)] == Duo(once, query, a, pc).threads;
  }

  /** The steps in which the first thread of the pair moves alone. */
  lemma FirstMovesAlone(once: Once, query: Query, a: Pc, b: Pc)
    ensures a.Opened? ==> Next(NEVER, Duo(once, query, a, b), Fetch(0), Duo(once, query, Fetched(0), b))
    ensures a.Refused? ==> Next(NEVER, Duo(once, query, a, b), Fail(0), Duo(once, query, Answered, b))
  {
    DuoMoves(once, query, a, b, Fetched(0));
    DuoMoves(once, query, a, b, Answered);
  }

  /** The steps of the second thread after a failed preparation. */
  lemma SecondMovesAlone(a: Pc)
    ensures Next(NEVER, Duo(Done, Empty, a, Opened), Fetch(1), Duo(Done, Empty, a, Fetched(0)))
    ensures Next(NEVER, Duo(Done, Empty, a, Fetched(0)), Join(1), Duo(Done, Empty, a, Passed))
    ensures Next(NEVER, Duo(Done, Empty, a, Passed), Read(1), Duo(Done, Empty, a, Holding(Empty)))
    ensures Next(NEVER, Duo(Done, Empty, a, Holding(Empty)), Crash(1),
                 Duo(Done, Empty, a, Holding(Empty)).(crashed := true))
  {
    DuoMoves(Done, Empty, a, Opened, Fetched(0));
    DuoMoves(Done, Empty, a, Fetched(0), Passed);
    DuoMoves(Done, Empty, a, Passed, Holding(Empty));
  }

  /** The steps in which the first thread opens its transaction and builds the query. */
  lemma DuoSharedSteps(b: Pc)
    ensures Next(NEVER, Duo(Fresh, Unset, Idle, b), Open(0, 7), Duo(Fresh, Unset, Opened, b))
    ensures b == Idle ==> Next(NEVER, Duo(Fresh, Unset, Opened, b), Open(1, 9), Duo(Fresh, Unset, Opened, Opened))
    ensures Next(NEVER, Duo(Fresh, Unset, Fetched(0), b), Start(0), Duo(Running, Unset, Building(0), b))
    ensures Next(NEVER, Duo(Running, Unset, Building(0), b), Set(0), Duo(Running, Empty, Built(0, Some(0)), b))
    ensures Next(NEVER, Duo(Running, Empty, Built(0, Some(0)), b), Finish(0), Duo(Done, Empty, Refused(0), b))
  {
    assert Duo(Fresh, Unset, Idle, b).threads[0 := Thread(Opened, 7, 0, 0)] == Duo(Fresh, Unset, Opened, b).threads;
    assert Duo(Fresh, Unset, Opened, b).threads[1 := Thread(Opened, 9, 0, 0)] ==
           Duo(Fresh, Unset, Opened, Opened).threads;
    assert Duo(Fresh, Unset, Fetched(0), b).(onces := [Fresh][0 := Running]) == Duo(Running, Unset, Fetched(0), b);
    assert Duo(Running, Empty, Built(0, Some(0)), b).(onces := [Running][0 := Done]) ==
           Duo(Done, Empty, Built(0, Some(0)), b);
    DuoMoves(Running, Unset, Fetched(0), b, Building(0));
    DuoMoves(Running, Empty, Building(0), b, Built(0, Some(0)));
    DuoMoves(Done, Empty, Built(0, Some(0)), b, Refused(0));
  }

  /** A run may be prolonged by any enabled step. */
  lemma RunGrows(states: seq<State>, steps: seq<Label>, step: Label, s': State)
    requires IsRun(NEVER, states, steps) && Next(NEVER, states[|steps|], step, s')
    ensures IsRun(NEVER, states + [s'], steps + [step])
  {
  }

  /** Two requests under a compiler that does not prepare: the first gets the error, the second panics. */
  lemma FailedPreparationIsReportedOnce() returns (states: seq<State>, steps: seq<Label>)
    ensures IsRun(NEVER, states, steps) && |steps| == 11
    ensures AnswerOf(states[6], steps[6]) == Some(PrepareFailed(0))
    ensures steps[10] == Crash(1) && states[11].crashed
    ensures !StepLooksPlain(NEVER, states, steps, 10)
  {
    hide Inv;
    states, steps := FailingPreparation();
    states, steps := SecondRequest(states, steps);
    RunHasInv(NEVER, states, steps, 10);
    assert Next(NEVER, states[10], steps[10], states[11]);
    StepRefines(NEVER, states[10], steps[10], states[11]);
  }

  lemma FailingPreparation() returns (states: seq<State>, steps: seq<Label>)
    ensures IsRun(NEVER, states, steps) && |steps| == 7
    ensures states[7] == Duo(Done, Empty, Answered, Opened)
    ensures AnswerOf(states[6], steps[6]) == Some(PrepareFailed(0))
  {
    states, steps := BothOpen();
    FirstMovesAlone(Fresh, Unset, Opened, Opened);
    RunGrows(states, steps, Fetch(0), Duo(Fresh, Unset, Fetched(0), Opened));
    states, steps := states + [Duo(Fresh, Unset, Fetched(0), Opened)], steps + [Fetch(0)];
    states, steps := FirstBuilds(states, steps);
    FirstMovesAlone(Done, Empty, Refused(0), Opened);
    RunGrows(states, steps, Fail(0), Duo(Done, Empty, Answered, Opened));
    states, steps := states + [Duo(Done, Empty, Answered, Opened)], steps + [Fail(0)];
  }

  lemma BothOpen() returns (states: seq<State>, steps: seq<Label>)
    ensures IsRun(NEVER, states, steps) && |steps| == 2 && states[2] == Duo(Fresh, Unset, Opened, Opened)
  {
    DuoSharedSteps(Idle);
    states, steps := [Duo(Fresh, Unset, Idle, Idle)], [];
    RunGrows(states, steps, Open(0, 7), Duo(Fresh, Unset, Opened, Idle));
    states, steps := states + [Duo(Fresh, Unset, Opened, Idle)], steps + [Open(0, 7)];
    RunGrows(states, steps, Open(1, 9), Duo(Fresh, Unset, Opened, Opened));
    states, steps := states + [Duo(Fresh, Unset, Opened, Opened)], steps + [Open(1, 9)];
  }

  lemma FirstBuilds(before: seq<State>, done: seq<Label>) returns (states: seq<State>, steps: seq<Label>)
    requires IsRun(NEVER, before, done) && |done| == 3 && before[3] == Duo(Fresh, Unset, Fetched(0), Opened)
    ensures IsRun(NEVER, states, steps) && |steps| == 6 && states[6] == Duo(Done, Empty, Refused(0), Opened)
  {
    DuoSharedSteps(Opened);
    RunGrows(before, done, Start(0), Duo(Running, Unset, Building(0), Opened));
    states, steps := before + [Duo(Running, Unset, Building(0), Opened)], done + [Start(0)];
    RunGrows(states, steps, Set(0), Duo(Running, Empty, Built(0, Some(0)), Opened));
    states, steps := states + [Duo(Running, Empty, Built(0, Some(0)), Opened)], steps + [Set(0)];
    RunGrows(states, steps, Finish(0), Duo(Done, Empty, Refused(0), Opened));
    states, steps := states + [Duo(Done, Empty, Refused(0), Opened)], steps + [Finish(0)];
  }

  lemma SecondRequest(before: seq<State>, done: seq<Label>) returns (states: seq<State>, steps: seq<Label>)
    requires IsRun(NEVER, before, done) && |done| == 7 && before[7] == Duo(Done, Empty, Answered, Opened)
    ensures IsRun(NEVER, states, steps) && |steps| == 11 && states[..8] == before && steps[..7] == done
    ensures steps[10] == Crash(1) && states[11].crashed
  {
    SecondMovesAlone(Answered);
    RunGrows(before, done, Fetch(1), Duo(Done, Empty, Answered, Fetched(0)));
    states, steps := before + [Duo(Done, Empty, Answered, Fetched(0))], done + [Fetch(1)];
    RunGrows(states, steps, Join(1), Duo(Done, Empty, Answered, Passed));
    states, steps := states + [Duo(Done, Empty, Answered, Passed)], steps + [Join(1)];
    RunGrows(states, steps, Read(1), Duo(Done, Empty, Answered, Holding(Empty)));
    states, steps := states + [Duo(Done, Empty, Answered, Holding(Empty))], steps + [Read(1)];
    var crashed := Duo(Done, Empty, Answered, Holding(Empty)).(crashed := true);
    RunGrows(states, steps, Crash(1), crashed);
    states, steps := states + [crashed], steps + [Crash(1)];
  }

  // ----- one build per update

  /** The position just after the last swap of the Once before position `j`. */
  function Since(steps: seq<Label>, j: nat): (k: nat)
    requires j <= |steps|
    ensures k <= j
    ensures forall i :: k <= i < j ==> !steps[i].Swap?
  {
    if j == 0 then 0 else if steps[j - 1].Swap? then j else Since(steps, j - 1)
  }

  predicate NoSet(steps: seq<Label>, i: nat, j: nat)
    requires j <= |steps|
  {
    forall k :: i <= k < j ==> !steps[k].Set?
  }

  /** The only Set in steps[i..j] is at p. */
  predicate OnlySet(steps: seq<Label>, i: nat, j: nat, p: nat)
    requires j <= |steps|
  {
    i <= p < j && steps[p].Set? && forall k :: i <= k < j && steps[k].Set? ==> k == p
  }

  /** What the state after j steps says about the builds since the last update. */
  ghost predicate BuildsSince(s: State, steps: seq<Label>, i: nat, j: nat)
    requires j <= |steps| && s.current < |s.onces|
  {
    match s.onces[s.current]
    case Fresh => NoSet(steps, i, j)
    case Running =>
      forall t :: 0 <= t < |s.threads| ==>
        && (s.threads[t].pc.Building? ==> NoSet(steps, i, j))
        && (s.threads[t].pc.Built? ==> exists p: nat :: OnlySet(steps, i, j, p) && steps[p].t == t)
    case Done =>
      exists p: nat, q: nat :: OnlySet(steps, i, j, p) && p < q < j && steps[q] == Finish(steps[p].t)
  }

  lemma {:induction false} RunHasBuildsSince(prepares: Compiler -> bool, states: seq<State>, steps: seq<Label>, j: nat)
    requires IsRun(prepares, states, steps) && j <= |steps|
    ensures states[j].current < |states[j].onces|
    ensures BuildsSince(states[j], steps, Since(steps, j), j)
  {
    if j > 0 {
      hide Next, Inv, BuildsSince;
      RunHasInv(prepares, states, steps, j - 1);
      RunHasBuildsSince(prepares, states, steps, j - 1);
      StepKeepsBuildsSince(prepares, states[j - 1], states[j], steps, j - 1);
    }
  }

  lemma StepKeepsBuildsSince(prepares: Compiler -> bool, s: State, s': State, steps: seq<Label>, j: nat)
    requires j < |steps| && Inv(prepares, s) && Next(prepares, s, steps[j], s')
    requires BuildsSince(s, steps, Since(steps, j), j)
    ensures s'.current < |s'.onces|
    ensures BuildsSince(s', steps, Since(steps, j + 1), j + 1)
  {
    if steps[j].Set? {
      SetIsTheOnlyOne(prepares, s, s', steps, j);
    } else if steps[j].Finish? {
      FinishFollowsSet(prepares, s, s', steps, j);
    } else if steps[j].Start? {
      StartHasNoSet(prepares, s, s', steps, j);
    } else if !steps[j].Swap? {
      OtherStepsBuildNothing(prepares, s, steps[j], s');
      SameBuildingKeepsBuildsSince(s, s', steps, j);
    }
  }

  /** The remaining steps leave the Once and the builders as they are. */
  predicate SameBuilding(s: State, s': State) {
    && s'.onces == s.onces && s'.current == s.current && |s'.threads| == |s.threads|
    && forall t :: 0 <= t < |s.threads| ==> (Constructing(s'.threads[t]) ==> s'.threads[t] == s.threads[t])
  }

  lemma OtherStepsBuildNothing(prepares: Compiler -> bool, s: State, step: Label, s': State)
    requires Next(prepares, s, step, s')
    requires !step.Set? && !step.Finish? && !step.Start? && !step.Swap?
    ensures SameBuilding(s, s')
  {
  }

  lemma SameBuildingKeepsBuildsSince(s: State, s': State, steps: seq<Label>, j: nat)
    requires j < |steps| && !steps[j].Set? && !steps[j].Swap?
    requires s.current < |s.onces| && SameBuilding(s, s') && BuildsSince(s, steps, Since(steps, j), j)
    ensures BuildsSince(s', steps, Since(steps, j + 1), j + 1)
  {
    var i := Since(steps, j);
    forall p: nat | OnlySet(steps, i, j, p) ensures OnlySet(steps, i, j + 1, p) {
    }
    if s.onces[s.current] == Running {
      forall t | 0 <= t < |s'.threads| && Constructing(s'.threads[t]) ensures s'.threads[t] == s.threads[t] {
      }
    }
  }

  lemma StartHasNoSet(prepares: Compiler -> bool, s: State, s': State, steps: seq<Label>, j: nat)
    requires j < |steps| && steps[j].Start? && Inv(prepares, s) && Next(prepares, s, steps[j], s')
    requires BuildsSince(s, steps, Since(steps, j), j)
    ensures s'.current < |s'.onces| && BuildsSince(s', steps, Since(steps, j + 1), j + 1)
  {
    assert ThreadOk(prepares, s, s.threads[steps[j].t]);
    forall t | 0 <= t < |s.threads| ensures !s.threads[t].pc.Built? {
      assert ThreadOk(prepares, s, s.threads[t]);
    }
  }

  lemma SetIsTheOnlyOne(prepares: Compiler -> bool, s: State, s': State, steps: seq<Label>, j: nat)
    requires j < |steps| && steps[j].Set? && Inv(prepares, s) && Next(prepares, s, steps[j], s')
    requires BuildsSince(s, steps, Since(steps, j), j)
    ensures s'.current < |s'.onces| && BuildsSince(s', steps, Since(steps, j + 1), j + 1)
  {
    var t := steps[j].t;
    assert ThreadOk(prepares, s, s.threads[t]);
    assert OnlySet(steps, Since(steps, j), j + 1, j);
    forall u | 0 <= u < |s.threads| && u != t ensures !Constructing(s.threads[u]) {
      assert Constructing(s.threads[t]);
    }
  }

  lemma FinishFollowsSet(prepares: Compiler -> bool, s: State, s': State, steps: seq<Label>, j: nat)
    requires j < |steps| && steps[j].Finish? && Inv(prepares, s) && Next(prepares, s, steps[j], s')
    requires BuildsSince(s, steps, Since(steps, j), j)
    ensures s'.current < |s'.onces| && BuildsSince(s', steps, Since(steps, j + 1), j + 1)
  {
    var t := steps[j].t;
    assert ThreadOk(prepares, s, s.threads[t]);
    var p: nat :| OnlySet(steps, Since(steps, j), j, p) && steps[p].t == t;
    assert OnlySet(steps, Since(steps, j), j + 1, p) && p < j < j + 1 && steps[j] == Finish(steps[p].t);
  }

  /** Between two builds of the query there is an update: at most one build for every policy. */
  lemma BuiltAtMostOncePerUpdate(prepares: Compiler -> bool, states: seq<State>, steps: seq<Label>, i: nat, j: nat)
    requires IsRun(prepares, states, steps)
    requires i < j < |steps| && steps[i].Set? && steps[j].Set?
    ensures exists k :: i < k < j && steps[k].Swap?
  {
    RunHasInv(prepares, states, steps, j);
    RunHasBuildsSince(prepares, states, steps, j);
    assert Next(prepares, states[j], steps[j], states[j + 1]);
    assert ThreadOk(prepares, states[j], states[j].threads[steps[j].t]);
    if Since(steps, j) <= i {
      assert false;
    }
    SinceIsAfterSwap(steps, j);
  }

  lemma {:induction false} SinceIsAfterSwap(steps: seq<Label>, j: nat)
    requires j <= |steps|
    ensures Since(steps, j) == 0 || steps[Since(steps, j) - 1].Swap?
  {
    if j > 0 && !steps[j - 1].Swap? {
      SinceIsAfterSwap(steps, j - 1);
    }
  }

  /** Every read comes after a build, and after that build's Once is done, with no update in between. */
  lemma ReadAfterRebuild(prepares: Compiler -> bool, states: seq<State>, steps: seq<Label>, j: nat)
    requires IsRun(prepares, states, steps) && j < |steps| && steps[j].Read?
    ensures exists p: nat, q: nat :: p < q < j && steps[p].Set? && steps[q] == Finish(steps[p].t) &&
                                     forall k :: p <= k < j ==> !steps[k].Swap?
  {
    RunHasInv(prepares, states, steps, j);
    RunHasBuildsSince(prepares, states, steps, j);
    assert Next(prepares, states[j], steps[j], states[j + 1]);
    assert ThreadOk(prepares, states[j], states[j].threads[steps[j].t]);
    var i := Since(steps, j);
    var p: nat, q: nat :| OnlySet(steps, i, j, p) && p < q < j && steps[q] == Finish(steps[p].t);
  }
}
