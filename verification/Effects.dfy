/**
 What a check does to the world around it: the store's transactions, the decision log and the
 performance metrics. Every effect is also recorded in a ghost journal, in order.
 */
module Effects {
  import opened Outcomes
  import opened Values

  datatype BundleInfo = BundleInfo(revision: string)

  /** An error as the decision log records it. */
  datatype LoggedError = AsIs(fault: Fault) | Canceled | Plain(message: string)

  datatype EventOutcome = Decided(decision: Value) | Failed(error: LoggedError)

  datatype Event = Event(
    decisionId: string,
    query: string,
    path: string,
    traceId: string,
    spanId: string,
    input: Option<Value>,
    ndbCache: Option<Value>,
    revision: string,
    bundles: map<string, BundleInfo>,
    txn: Option<nat>,
    outcome: EventOutcome
  )

  /** `Logged` is one call of the server's log method, with the event it passed to the log plugin, if any. */
  datatype Entry =
    | Opened(txn: nat)
    | Aborted(txn: nat)
    | Logged(event: Option<Event>, failed: bool)
    | Errored(reason: string)
    | Observed

  function Count(journal: seq<Entry>, e: Entry): nat {
    multiset(journal)[e]
  }

  /** The events of the journal, in order. */
  function EventsOf(journal: seq<Entry>): seq<Event> {
    if journal == [] then []
    else
      var last := journal[|journal| - 1];
      EventsOf(journal[..|journal| - 1]) + if last.Logged? && last.event.Some? then [last.event.value] else []
  }

  lemma CountSnoc(journal: seq<Entry>, e: Entry, x: Entry)
    ensures Count(journal + [e], x) == Count(journal, x) + if x == e then 1 else 0
    ensures x in journal <==> Count(journal, x) > 0
  {
  }

  lemma JournalGrows(journal: seq<Entry>, a: Entry, b: Entry)
    ensures journal + [a] + [b] == journal + [a, b]
  {
  }

  lemma EventsSnoc(journal: seq<Entry>, e: Entry)
    ensures EventsOf(journal + [e]) == EventsOf(journal) + if e.Logged? && e.event.Some? then [e.event.value] else []
  {
    assert (journal + [e])[..|journal|] == journal;
  }

  /** The open transactions are those opened and not yet aborted, and none is opened or aborted twice. */
  ghost predicate TxnsMatch(journal: seq<Entry>, open: set<nat>, nextTxn: nat) {
    forall t: nat ::
      && Count(journal, Aborted(t)) <= Count(journal, Opened(t)) <= 1
      && (t in open <==> Count(journal, Opened(t)) > Count(journal, Aborted(t)))
      && (t >= nextTxn ==> Count(journal, Opened(t)) == 0)
  }

  ghost predicate MetricsMatch(journal: seq<Entry>, errorCounter: map<string, nat>, durations: nat) {
    && (forall r :: Counter(errorCounter, r) == Count(journal, Errored(r)))
    && durations == Count(journal, Observed)
  }

  function Counter(errorCounter: map<string, nat>, reason: string): nat {
    if reason in errorCounter then errorCounter[reason] else 0
  }

  lemma TxnsUnmoved(journal: seq<Entry>, e: Entry, open: set<nat>, nextTxn: nat)
    requires TxnsMatch(journal, open, nextTxn) && !e.Opened? && !e.Aborted?
    ensures TxnsMatch(journal + [e], open, nextTxn)
  {
    forall t: nat ensures Count(journal + [e], Opened(t)) == Count(journal, Opened(t))
                       && Count(journal + [e], Aborted(t)) == Count(journal, Aborted(t))
    {
      CountSnoc(journal, e, Opened(t));
      CountSnoc(journal, e, Aborted(t));
    }
  }

  lemma TxnMoved(journal: seq<Entry>, e: Entry, open: set<nat>, nextTxn: nat)
    requires TxnsMatch(journal, open, nextTxn)
    ensures e == Opened(nextTxn) ==> TxnsMatch(journal + [e], open + {nextTxn}, nextTxn + 1)
    ensures e.Aborted? && e.txn in open ==> TxnsMatch(journal + [e], open - {e.txn}, nextTxn)
  {
    forall t: nat
      ensures Count(journal + [e], Opened(t)) == Count(journal, Opened(t)) + if e == Opened(t) then 1 else 0
      ensures Count(journal + [e], Aborted(t)) == Count(journal, Aborted(t)) + if e == Aborted(t) then 1 else 0
    {
      CountSnoc(journal, e, Opened(t));
      CountSnoc(journal, e, Aborted(t));
    }
  }

  lemma ErrorCounted(journal: seq<Entry>, reason: string, errorCounter: map<string, nat>, durations: nat)
    requires MetricsMatch(journal, errorCounter, durations)
    ensures MetricsMatch(journal + [Errored(reason)],
                         errorCounter[reason := Counter(errorCounter, reason) + 1], durations)
    ensures MetricsMatch(journal + [Observed], errorCounter, durations + 1)
  {
    forall r
      ensures Count(journal + [Errored(reason)], Errored(r)) ==
              Count(journal, Errored(r)) + if r == reason then 1 else 0
      ensures Count(journal + [Observed], Errored(r)) == Count(journal, Errored(r))
    {
      CountSnoc(journal, Errored(reason), Errored(r));
      CountSnoc(journal, Observed, Errored(r));
    }
    CountSnoc(journal, Errored(reason), Observed);
    CountSnoc(journal, Observed, Observed);
  }

  lemma MetricsUnmoved(journal: seq<Entry>, e: Entry, errorCounter: map<string, nat>, durations: nat)
    requires MetricsMatch(journal, errorCounter, durations) && !e.Errored? && !e.Observed?
    ensures MetricsMatch(journal + [e], errorCounter, durations)
  {
    forall r ensures Count(journal + [e], Errored(r)) == Count(journal, Errored(r)) {
      CountSnoc(journal, e, Errored(r));
    }
    CountSnoc(journal, e, Observed);
  }

  /** The server's side of the store, of the metrics and of the log plugin. */
  class Server {
    var nextTxn: nat
    var open: set<nat>
    var errorCounter: map<string, nat>
    var durations: nat
    var events: seq<Event>
    ghost var journal: seq<Entry>

    /** The state is what the journal says. */
    ghost predicate Valid()
      reads this
    {
      && TxnsMatch(journal, open, nextTxn)
      && MetricsMatch(journal, errorCounter, durations)
      && events == EventsOf(journal)
    }

    constructor ()
      ensures Valid() && journal == []
    {
      nextTxn, open, errorCounter, durations, events := 0, {}, map[], 0, [];
      journal := [];
    }

    /** The success of NewTransaction. */
    method Begin()
      requires Valid()
      modifies this
      ensures Valid() && journal == old(journal) + [Opened(old(nextTxn))]
      ensures old(nextTxn) in open && nextTxn == old(nextTxn) + 1
    {
      var e := Opened(nextTxn);
      EventsSnoc(journal, e);
      MetricsUnmoved(journal, e, errorCounter, durations);
      TxnMoved(journal, e, open, nextTxn);
      journal := journal + [e];
      open := open + {nextTxn};
      nextTxn := nextTxn + 1;
    }

    /** store.NewTransaction for reading. */
    method NewTransaction(failure: Option<Fault>) returns (r: Result<nat, Fault>)
      requires Valid()
      modifies this
      ensures Valid()
      ensures failure.Some? ==> r == Err(failure.value) && journal == old(journal) && nextTxn == old(nextTxn)
      ensures failure.None? ==> r == Ok(old(nextTxn)) && journal == old(journal) + [Opened(old(nextTxn))]
      ensures failure.None? ==> old(nextTxn) in open && nextTxn == old(nextTxn) + 1
    {
      if failure.Some? {
        return Err(failure.value);
      }
      r := Ok(nextTxn);
      Begin();
    }

    /** store.Abort; aborting a transaction that is not open is an error of the caller. */
    method Abort(txn: nat)
      requires Valid() && txn in open
      modifies this
      ensures Valid() && journal == old(journal) + [Aborted(txn)]
      ensures open == old(open) - {txn} && nextTxn == old(nextTxn)
    {
      var e := Aborted(txn);
      EventsSnoc(journal, e);
      MetricsUnmoved(journal, e, errorCounter, durations);
      TxnMoved(journal, e, open, nextTxn);
      journal := journal + [Aborted(txn)];
      open := open - {txn};
    }

    method CountError(reason: string)
      requires Valid()
      modifies this
      ensures Valid() && journal == old(journal) + [Errored(reason)]
      ensures open == old(open) && nextTxn == old(nextTxn)
    {
      var e := Errored(reason);
      EventsSnoc(journal, e);
      TxnsUnmoved(journal, e, open, nextTxn);
      ErrorCounted(journal, reason, errorCounter, durations);
      errorCounter := errorCounter[reason := Counter(errorCounter, reason) + 1];
      journal := journal + [Errored(reason)];
    }

    method ObserveDuration()
      requires Valid()
      modifies this
      ensures Valid() && journal == old(journal) + [Observed]
      ensures open == old(open) && nextTxn == old(nextTxn)
    {
      EventsSnoc(journal, Observed);
      TxnsUnmoved(journal, Observed, open, nextTxn);
      ErrorCounted(journal, "", errorCounter, durations);
      durations := durations + 1;
      journal := journal + [Observed];
    }

    /** One call of log: the plugin may or may not have been given an event, and the call may have failed. */
    method RecordLog(event: Option<Event>, failed: bool)
      requires Valid()
      modifies this
      ensures Valid() && journal == old(journal) + [Logged(event, failed)]
      ensures open == old(open) && nextTxn == old(nextTxn)
    {
      var e := Logged(event, failed);
      EventsSnoc(journal, e);
      TxnsUnmoved(journal, e, open, nextTxn);
      MetricsUnmoved(journal, e, errorCounter, durations);
      events := events + if event.Some? then [event.value] else [];
      journal := journal + [Logged(event, failed)];
    }
  }
}
