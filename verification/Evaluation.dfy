/**
 One evaluation (envoyauth/evaluation.go): which transaction it uses, what it leaves in the result,
 and how it can fail. Library calls have arbitrary outcomes, given as inputs.
 */
module Evaluation {
  import opened Outcomes
  import opened Values
  import opened Effects

  /** A read from the store; `NotFound` is the error that storage.IsNotFound recognises. */
  datatype Read<+T> = Found(value: T) | NotFound | Broken(fault: Fault)

  /** The outcomes of the library calls that one evaluation can make. */
  datatype EvalInputs = EvalInputs(
    begin: Option<Fault>,
    names: Read<seq<string>>,
    revision: string -> Read<string>,
    legacy: Read<string>,
    prepare: Option<Fault>,
    results: Result<seq<Value>, Fault>
  )

  const UNDEFINED := OtherFault("undefined decision")
  const MULTIPLE := OtherFault("multiple evaluation results")

  /** The fields of an evaluation result, as one value. */
  datatype Fields = Fields(
    revisions: map<string, string>,
    revision: string,
    txnId: Option<nat>,
    decision: Value,
    hasNdbCache: bool
  )

  const NO_FIELDS := Fields(map[], "", None, Null, false)

  class EvalResult {
    const decisionId: string
    var revision: string
    var revisions: map<string, string>
    var txnId: Option<nat>
    var decision: Value
    var txn: Option<nat>
    var hasNdbCache: bool

    constructor (decisionId: string)
      ensures this.decisionId == decisionId && Contents() == NO_FIELDS && txn == None
    {
      this.decisionId := decisionId;
      revision, revisions, txnId, decision, txn, hasNdbCache := "", map[], None, Null, None, false;
    }

    function Contents(): Fields
      reads this
    {
      Fields(revisions, revision, txnId, decision, hasNdbCache)
    }

    /** GetTxn; the closer is Close. */
    method GetTxn(server: Server, failure: Option<Fault>) returns (r: Result<nat, Fault>)
      requires server.Valid()
      modifies server
      ensures server.Valid()
      ensures failure.Some? ==> r == Err(failure.value) && server.journal == old(server.journal)
      ensures failure.None? ==> r == Ok(old(server.nextTxn)) && r.value in server.open
      ensures failure.None? ==> server.journal == old(server.journal) + [Opened(old(server.nextTxn))]
    {
      r := server.NewTransaction(failure);
    }

    /** The closer that GetTxn returns: abort, and forget the transaction. */
    method Close(server: Server, txn: nat)
      requires server.Valid() && txn in server.open
      modifies server, this
      ensures server.Valid() && server.journal == old(server.journal) + [Aborted(txn)]
      ensures this.txn == None && Contents() == old(Contents())
    {
      server.Abort(txn);
      this.txn := None;
    }
  }

  /** The revision read from the store; a missing one reads as empty. */
  function OrEmpty(r: Read<string>): Option<string> {
    match r
    case Found(value) => Some(value)
    case NotFound => Some("")
    case Broken(_) => None
  }

  function NamesOf(r: Read<seq<string>>): seq<string> {
    if r.Found? then r.value else []
  }

  /** The first failed read of getRevision, in the order it reads. */
  function RevisionFault(e: EvalInputs): Option<Fault> {
    match e.names
    case Broken(f) => Some(f)
    case _ =>
      match FirstBroken(e.revision, NamesOf(e.names))
      case Some(f) => Some(f)
      case None => if e.legacy.Broken? then Some(e.legacy.fault) else None
  }

  function FirstBroken(revision: string -> Read<string>, names: seq<string>): (f: Option<Fault>)
    ensures f.None? <==> forall i :: 0 <= i < |names| ==> !revision(names[i]).Broken?
  {
    if names == [] then None
    else if revision(names[0]).Broken? then Some(revision(names[0]).fault)
    else FirstBroken(revision, names[1..])
  }

  /** The revision of every named bundle. */
  function RevisionsOf(e: EvalInputs): map<string, string>
    requires RevisionFault(e).None?
  {
    var names := NamesOf(e.names);
    map name | name in names && OrEmpty(e.revision(name)).Some? :: OrEmpty(e.revision(name)).value
  }

  /** The first thing that goes wrong in an evaluation that has a transaction. */
  function EvalFault(e: EvalInputs): Option<Fault> {
    if RevisionFault(e).Some? then RevisionFault(e)
    else if e.prepare.Some? then e.prepare
    else
      match e.results
      case Err(f) => Some(f)
      case Ok(rs) => if |rs| == 0 then Some(UNDEFINED) else if |rs| > 1 then Some(MULTIPLE) else None
  }

  /** What an evaluation under transaction `txn` leaves in a result that held `before`. */
  function EvalFields(e: EvalInputs, before: Fields, txn: nat, ndbOn: bool): Fields {
    if RevisionFault(e).Some? then before
    else
      var read := before.(revisions := RevisionsOf(e), revision := OrEmpty(e.legacy).value, txnId := Some(txn));
      if EvalFault(e).Some? then read else read.(decision := e.results.value[0], hasNdbCache := ndbOn)
  }

  /** A failed read changes nothing; the decision and the cache come only with a success, and replace older ones. */
  lemma EvalFieldsExactly(e: EvalInputs, before: Fields, txn: nat, ndbOn: bool)
    ensures var names, after := if e.names.Found? then e.names.value else [], EvalFields(e, before, txn, ndbOn);
            var read := && !e.names.Broken? && !e.legacy.Broken?
                        && forall name :: name in names ==> !e.revision(name).Broken?;
            && (!read ==> after == before)
            && (read ==>
                && after.txnId == Some(txn) && (forall name :: name in after.revisions <==> name in names)
                && (forall name :: name in names ==>
                      after.revisions[name] == if e.revision(name).Found? then e.revision(name).value else "")
                && after.revision == if e.legacy.Found? then e.legacy.value else "")
            && (if read && e.prepare.None? && e.results.Ok? && |e.results.value| == 1
                then after.decision == e.results.value[0] && after.hasNdbCache == ndbOn
                else after.decision == before.decision && after.hasNdbCache == before.hasNdbCache)
  {
    var names := if e.names.Found? then e.names.value else [];
    assert forall name :: name in names <==> exists i :: 0 <= i < |names| && names[i] == name;
  }

  /** The revisions of the names read so far, none of whose reads failed. */
  ghost predicate ReadSoFar(revision: string -> Read<string>, names: seq<string>, revisions: map<string, string>) {
    && (forall name :: name in revisions <==> name in names)
    && (forall name :: name in names ==> !revision(name).Broken?)
    && (forall name :: name in revisions ==> OrEmpty(revision(name)) == Some(revisions[name]))
  }

  lemma ReadsAreRevisions(e: EvalInputs, revisions: map<string, string>)
    requires ReadSoFar(e.revision, NamesOf(e.names), revisions) && RevisionFault(e).None?
    ensures revisions == RevisionsOf(e)
  {
  }

  /** getRevision. */
  method GetRevision(e: EvalInputs, result: EvalResult) returns (err: Option<Fault>)
    modifies result
    ensures err == RevisionFault(e) && result.txn == old(result.txn)
    ensures err.Some? ==> result.Contents() == old(result.Contents())
    ensures err.None? ==>
      result.Contents() == old(result.Contents()).(revisions := RevisionsOf(e), revision := OrEmpty(e.legacy).value)
  {
    var revisions: map<string, string> := map[];
    if e.names.Broken? {
      return Some(e.names.fault);
    }
    var names := NamesOf(e.names);
    for i := 0 to |names|
      invariant FirstBroken(e.revision, names) == FirstBroken(e.revision, names[i..])
      invariant ReadSoFar(e.revision, names[..i], revisions)
    {
      var r := e.revision(names[i]);
      if r.Broken? {
        return Some(r.fault);
      }
      assert names[..i + 1] == names[..i] + [names[i]];
      revisions := revisions[names[i] := OrEmpty(r).value];
    }
    assert names[..|names|] == names;
    if e.legacy.Broken? {
      return Some(e.legacy.fault);
    }
    ReadsAreRevisions(e, revisions);
    result.revisions := revisions;
    result.revision := OrEmpty(e.legacy).value;
    err := None;
  }

  /** The part of Eval that runs under the result's transaction. */
  method EvalInTxn(e: EvalInputs, result: EvalResult, ndbOn: bool) returns (err: Option<Fault>)
    requires result.txn.Some?
    modifies result
    ensures err == EvalFault(e) && result.txn == old(result.txn)
    ensures result.Contents() == EvalFields(e, old(result.Contents()), old(result.txn.value), ndbOn)
  {
    err := GetRevision(e, result);
    if err.Some? {
      return;
    }
    result.txnId := Some(result.txn.value);
    err := e.prepare;
    if err.Some? {
      return;
    }
    if e.results.Err? {
      return Some(e.results.error);
    }
    var rs := e.results.value;
    if |rs| == 0 {
      return Some(UNDEFINED);
    }
    if |rs| > 1 {
      return Some(MULTIPLE);
    }
    result.hasNdbCache := ndbOn;
    result.decision := rs[0];
    err := None;
  }

  /** The store transactions of an evaluation, given the caller's transaction and the next fresh one. */
  function EvalEffects(e: EvalInputs, caller: Option<nat>, next: nat): seq<Entry> {
    if caller.Some? || e.begin.Some? then [] else [Opened(next), Aborted(next)]
  }

  /** The error and the fields of an evaluation. */
  function EvalOutcome(e: EvalInputs, before: Fields, caller: Option<nat>, next: nat, ndbOn: bool)
    : (Option<Fault>, Fields)
  {
    if caller.None? && e.begin.Some? then (e.begin, before)
    else (EvalFault(e), EvalFields(e, before, if caller.Some? then caller.value else next, ndbOn))
  }

  /** Eval without a transaction: it opens its own, and aborts it whatever happens. */
  method EvalInOwnTxn(server: Server, e: EvalInputs, result: EvalResult, ndbOn: bool) returns (err: Option<Fault>)
    requires server.Valid() && result.txn == None
    modifies server, result
    ensures server.Valid() && result.txn == None
    ensures server.journal == old(server.journal) + EvalEffects(e, None, old(server.nextTxn))
    ensures (err, result.Contents()) == EvalOutcome(e, old(result.Contents()), None, old(server.nextTxn), ndbOn)
  {
    hide TxnsMatch, MetricsMatch, EventsOf, EvalFault, EvalFields;
    var txn := result.GetTxn(server, e.begin);
    if txn.Err? {
      return Some(txn.error);
    }
    result.txn := Some(txn.value);
    err := EvalInTxn(e, result, ndbOn);
    JournalGrows(old(server.journal), Opened(txn.value), Aborted(txn.value));
    result.Close(server, txn.value);
  }

  /** Eval: a transaction that the caller put in the result is used and left open. */
  method Eval(server: Server, e: EvalInputs, result: EvalResult, ndbOn: bool) returns (err: Option<Fault>)
    requires server.Valid()
    modifies server, result
    ensures server.Valid() && result.txn == old(result.txn)
    ensures server.journal == old(server.journal) + EvalEffects(e, old(result.txn), old(server.nextTxn))
    ensures old(result.txn).Some? ==> server.open == old(server.open)
    ensures (err, result.Contents()) ==
            EvalOutcome(e, old(result.Contents()), old(result.txn), old(server.nextTxn), ndbOn)
  {
    hide TxnsMatch, MetricsMatch, EventsOf, EvalFault, EvalFields;
    if result.txn == None {
      err := EvalInOwnTxn(server, e, result, ndbOn);
    } else {
      err := EvalInTxn(e, result, ndbOn);
    }
  }
}
