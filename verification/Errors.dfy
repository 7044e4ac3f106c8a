/**
 Matching of coded errors (internal/errors.go) under Go's errors.Is and errors.As. An error is a
 finite chain: each node either is an `*Error` or some other error without an Is or As method of
 its own, and unwraps to at most one further error. A node's `id` stands for its identity, so two
 chains are the same Go value exactly when they are equal here; `comparable` says whether the Go
 type of the node supports `==`, which a slice type such as ast.Errors does not.
 */
module Errors {
  datatype GoError =
    | Nil
    | Plain(id: nat, comparable: bool, inner: GoError)
    | Coded(id: nat, code: string, inner: GoError)
  {
    predicate Comparable() {
      Coded? || (Plain? && comparable)
    }
  }

  /** errors.As for a target of type **Error: the first coded node, or Nil. */
  function FirstCoded(err: GoError): (e: GoError)
    ensures e.Nil? || e.Coded?
  {
    match err
    case Nil => Nil
    case Plain(_, _, inner) => FirstCoded(inner)
    case Coded(_, _, _) => err
  }

  /** errors.Is. */
  predicate Is(err: GoError, target: GoError)
    decreases err, 2
  {
    if err.Nil? || target.Nil? then err == target else Walk(err, target)
  }

  /** The loop of errors.Is along the chain of `err`. */
  predicate Walk(err: GoError, target: GoError)
    requires !err.Nil? && !target.Nil?
    decreases err, 1
  {
    || (target.Comparable() && err == target)
    || (err.Coded? && CodedIs(err, target))
    || (!err.inner.Nil? && Walk(err.inner, target))
  }

  /** Error.Is of a coded node. */
  predicate CodedIs(err: GoError, target: GoError)
    requires err.Coded?
    decreases err, 0
  {
    var t := FirstCoded(target);
    t.Coded? && CodeMatches(err.code, t.code) && Is(err.inner, t.inner)
  }

  /** An empty code in the target matches every code; an empty code in the error only itself. */
  predicate CodeMatches(code: string, target: string) {
    target == "" || code == target
  }

  /** `suffix` is met on the way down the chain of `err`. */
  predicate Reaches(err: GoError, suffix: GoError) {
    err == suffix || (!err.Nil? && Reaches(err.inner, suffix))
  }

  /**
   What a match means: the chain holds the very target, or a coded node such that the target's first
   coded node has its code or none, and what the two wrap matches.
   */
  ghost predicate MatchedBy(err: GoError, target: GoError) {
    || (target.Comparable() && Reaches(err, target))
    || (exists n: GoError :: n.Coded? && Reaches(err, n) && CarriesCodeOf(n, FirstCoded(target)))
  }

  ghost predicate CarriesCodeOf(n: GoError, t: GoError)
    requires n.Coded?
  {
    t.Coded? && (t.code == "" || n.code == t.code) && Is(n.inner, t.inner)
  }

  lemma {:induction false} WalkMeaning(err: GoError, target: GoError)
    requires !err.Nil? && !target.Nil?
    ensures Walk(err, target) <==> MatchedBy(err, target)
  {
    if !err.inner.Nil? {
      WalkMeaning(err.inner, target);
    }
    assert Reaches(err, err);
    if Walk(err, target) && !(target.Comparable() && Reaches(err, target)) {
      if !(err.Coded? && CodedIs(err, target)) {
        var n: GoError :| n.Coded? && Reaches(err.inner, n) && CodedIs(n, target);
        assert Reaches(err, n);
      }
    }
    if target.Comparable() && Reaches(err, target) && err != target {
      assert Reaches(err.inner, target);
    }
    forall n: GoError | n.Coded? && Reaches(err, n) && CodedIs(n, target) ensures Walk(err, target) {
      if n != err {
        assert Reaches(err.inner, n);
      }
    }
  }

  /** Wrapping an error never loses a match. */
  lemma {:induction false} WrappingKeepsMatches(err: GoError, suffix: GoError, target: GoError)
    requires !target.Nil? && Reaches(err, suffix) && Is(suffix, target)
    ensures Is(err, target)
  {
    if err != suffix {
      WrappingKeepsMatches(err.inner, suffix, target);
    }
  }

  lemma {:induction false} FirstCodedIsReached(err: GoError)
    ensures Reaches(err, FirstCoded(err))
  {
    if err.Plain? {
      FirstCodedIsReached(err.inner);
    }
  }

  /** A suffix lies at or above the first coded node, and then shares it, or wholly below it. */
  lemma {:induction false} SuffixAndFirstCoded(err: GoError, suffix: GoError)
    requires Reaches(err, suffix) && FirstCoded(err).Coded?
    ensures FirstCoded(suffix) == FirstCoded(err) || Reaches(FirstCoded(err).inner, suffix)
  {
    if err != suffix && err.Plain? {
      SuffixAndFirstCoded(err.inner, suffix);
    }
  }

  /** Transitivity, over all chains. */
  lemma {:induction false} IsTransitive(a: GoError, b: GoError, c: GoError)
    requires Is(a, b) && Is(b, c)
    ensures Is(a, c)
    decreases a, 2
  {
    if !a.Nil? && !b.Nil? && !c.Nil? {
      WalkMeaning(a, b);
      if b.Comparable() && Reaches(a, b) {
        WrappingKeepsMatches(a, b, c);
      } else {
        var n: GoError :| n.Coded? && Reaches(a, n) && CarriesCodeOf(n, FirstCoded(b));
        ReachedInnerIsSmaller(a, n);
        CodedMatchTransitive(n, b, c);
        WrappingKeepsMatches(a, n, c);
      }
    }
  }

  /** A match of the node n against b continues to whatever b matches. */
  lemma {:induction false} CodedMatchTransitive(n: GoError, b: GoError, c: GoError)
    requires n.Coded? && CarriesCodeOf(n, FirstCoded(b)) && !b.Nil? && !c.Nil? && Is(b, c)
    ensures Is(n, c)
    decreases n, 1
  {
    var m := FirstCoded(b);
    WalkMeaning(b, c);
    if c.Comparable() && Reaches(b, c) {
      SuffixAndFirstCoded(b, c);
      if FirstCoded(c) != m {
        SuffixIsMatched(m.inner, c);
        InnerMatchLifts(n, m, c);
      }
    } else {
      var k: GoError :| k.Coded? && Reaches(b, k) && CarriesCodeOf(k, FirstCoded(c));
      SuffixAndFirstCoded(b, k);
      if k == m {
        IsTransitive(n.inner, m.inner, FirstCoded(c).inner);
      } else {
        WrappingKeepsMatches(m.inner, k, c);
        InnerMatchLifts(n, m, c);
      }
    }
  }

  /** If m's tail matches c, then so does the node n that m's tail was matched from. */
  lemma {:induction false} InnerMatchLifts(n: GoError, m: GoError, c: GoError)
    requires n.Coded? && m.Coded? && !c.Nil? && Is(n.inner, m.inner) && Is(m.inner, c)
    ensures Is(n, c)
    decreases n, 0
  {
    IsTransitive(n.inner, m.inner, c);
  }

  lemma {:induction false} SuffixIsMatched(err: GoError, suffix: GoError)
    requires suffix.Comparable() && Reaches(err, suffix)
    ensures Is(err, suffix)
  {
    if err != suffix {
      SuffixIsMatched(err.inner, suffix);
    }
  }

  lemma {:induction false} ReachedInnerIsSmaller(err: GoError, n: GoError)
    requires !n.Nil? && Reaches(err, n)
    ensures err == n || n < err
  {
    if err != n {
      ReachedInnerIsSmaller(err.inner, n);
    }
  }

  /**
   Where the chain is cut after every coded node, the first node of some piece is comparable, or
   the chain ends right after a coded node.
   */
  predicate HasComparableHead(err: GoError)
    decreases err, 1
  {
    err.Nil? || err.Comparable() || CodedTailHasComparableHead(err)
  }

  predicate CodedTailHasComparableHead(err: GoError)
    decreases err, 0
  {
    match err
    case Nil => false
    case Plain(_, _, inner) => CodedTailHasComparableHead(inner)
    case Coded(_, _, inner) => HasComparableHead(inner)
  }

  /** Reflexivity holds exactly on the chains that have a comparable head. */
  lemma {:induction false} IsReflexiveExactly(err: GoError)
    ensures Is(err, err) <==> HasComparableHead(err)
  {
    if err.Plain? && !err.comparable {
      var m := FirstCoded(err);
      FirstCodedIsReached(err);
      WalkMeaning(err, err);
      TailOfFirstCoded(err);
      if m.Coded? {
        ReachedInnerIsSmaller(err, m);
        IsReflexiveExactly(m.inner);
        if Is(err, err) {
          var n: GoError :| n.Coded? && Reaches(err, n) && CarriesCodeOf(n, m);
          SuffixAndFirstCoded(err, n);
          if n != m {
            ReachesInner(m.inner, n);
            if !m.inner.Nil? {
              WrappingKeepsMatches(m.inner, n.inner, m.inner);
            }
          }
        }
      }
    }
  }

  lemma {:induction false} TailOfFirstCoded(err: GoError)
    ensures CodedTailHasComparableHead(err) <==>
            FirstCoded(err).Coded? && HasComparableHead(FirstCoded(err).inner)
  {
    if err.Plain? {
      TailOfFirstCoded(err.inner);
    }
  }

  lemma {:induction false} ReachesInner(err: GoError, n: GoError)
    requires !n.Nil? && Reaches(err, n)
    ensures Reaches(err, n.inner)
  {
    if err != n {
      ReachesInner(err.inner, n);
    } else {
      assert Reaches(n.inner, n.inner);
    }
  }

  /** Every node comparable: matching is then reflexive. */
  predicate AllComparable(err: GoError) {
    err.Nil? || (err.Comparable() && AllComparable(err.inner))
  }

  lemma ComparableChainsAreReflexive(err: GoError)
    requires AllComparable(err)
    ensures Is(err, err)
  {
  }

  // ----- chains of coded errors alone

  predicate AllCoded(err: GoError) {
    err.Nil? || (err.Coded? && AllCoded(err.inner))
  }

  function Codes(err: GoError): seq<string>
    requires AllCoded(err)
  {
    if err.Nil? then [] else [err.code] + Codes(err.inner)
  }

  /** `at` picks, in order, a code of `codes` for each wanted one, the last for the last; "" takes any code. */
  ghost predicate Picks(at: seq<nat>, codes: seq<string>, wanted: seq<string>) {
    && |at| == |wanted| && (if at == [] then codes == [] else at[|at| - 1] == |codes| - 1)
    && (forall i :: 0 <= i < |at| ==> at[i] < |codes| && (wanted[i] == "" || codes[at[i]] == wanted[i]))
    && (forall i, j :: 0 <= i < j < |at| ==> at[i] < at[j])
  }

  /** A chain of coded errors matches another exactly when the other's codes can be picked from its own. */
  lemma CodedChainsMatchExactly(err: GoError, target: GoError)
    requires AllCoded(err) && AllCoded(target)
    ensures Is(err, target) <==> exists at: seq<nat> :: Picks(at, Codes(err), Codes(target))
  {
    if Is(err, target) {
      var at := PicksOfMatch(err, target);
      assert exists at: seq<nat> :: Picks(at, Codes(err), Codes(target));
    } else {
      forall at: seq<nat> ensures !Picks(at, Codes(err), Codes(target)) {
        if Picks(at, Codes(err), Codes(target)) {
          MatchOfPicks(err, target, at);
        }
      }
    }
  }

  /** Two single errors match exactly when their codes agree or the target's is empty. */
  lemma SingleErrorsMatchExactly(id: nat, code: string, targetId: nat, targetCode: string)
    ensures Is(Coded(id, code, Nil), Coded(targetId, targetCode, Nil)) <==> targetCode == "" || code == targetCode
  {
    var err, target := Coded(id, code, Nil), Coded(targetId, targetCode, Nil);
    assert CodedIs(err, target) == CarriesCodeOf(err, FirstCoded(target));
    assert FirstCoded(target) == target && Is(Nil, Nil);
    assert Is(err, target) == Walk(err, target) == (err == target || CodedIs(err, target));
  }

  function Shifted(at: seq<nat>): seq<nat> {
    seq(|at|, i requires 0 <= i < |at| => at[i] + 1)
  }

  lemma PicksOneFurther(at: seq<nat>, codes: seq<string>, wanted: seq<string>, code: string)
    requires Picks(at, codes, wanted) && wanted != []
    ensures Picks(Shifted(at), [code] + codes, wanted)
  {
    assert forall i :: 0 <= i < |at| ==> ([code] + codes)[at[i] + 1] == codes[at[i]];
  }

  lemma PicksOneMore(at: seq<nat>, codes: seq<string>, wanted: seq<string>, code: string, target: string)
    requires Picks(at, codes, wanted) && (target == "" || code == target)
    ensures Picks([0] + Shifted(at), [code] + codes, [target] + wanted)
  {
    var all, longer, targets := [0] + Shifted(at), [code] + codes, [target] + wanted;
    forall i | 0 <= i < |all| ensures all[i] < |longer| && (targets[i] == "" || longer[all[i]] == targets[i]) {
      if i > 0 {
        assert all[i] == at[i - 1] + 1 && targets[i] == wanted[i - 1] && longer[at[i - 1] + 1] == codes[at[i - 1]];
      }
    }
    forall i, j | 0 <= i < j < |all| ensures all[i] < all[j] {
      assert all[j] == at[j - 1] + 1 && (i > 0 ==> all[i] == at[i - 1] + 1);
    }
  }

  lemma PicksItself(codes: seq<string>)
    ensures Picks(seq(|codes|, i => i), codes, codes)
  {
  }

  lemma {:induction false} PicksOfMatch(err: GoError, target: GoError) returns (at: seq<nat>)
    requires AllCoded(err) && AllCoded(target) && Is(err, target)
    ensures Picks(at, Codes(err), Codes(target))
  {
    hide Picks;
    if err.Nil? || err == target {
      PicksItself(Codes(err));
      at := seq(|Codes(err)|, i => i);
    } else if CodedIs(err, target) {
      var rest := PicksOfMatch(err.inner, target.inner);
      PicksOneMore(rest, Codes(err.inner), Codes(target.inner), err.code, target.code);
      at := [0] + Shifted(rest);
    } else {
      var rest := PicksOfMatch(err.inner, target);
      PicksOneFurther(rest, Codes(err.inner), Codes(target), err.code);
      at := Shifted(rest);
    }
  }

  /** Picks that leave out the first code are picks from the rest. */
  lemma PicksFromRest(at: seq<nat>, codes: seq<string>, wanted: seq<string>) returns (back: seq<nat>)
    requires Picks(at, codes, wanted) && at != [] && at[0] > 0
    ensures Picks(back, codes[1..], wanted)
  {
    back := seq(|at|, i requires 0 <= i < |at| => if at[i] > 0 then at[i] - 1 else 0);
    assert forall i :: 0 <= i < |at| ==> back[i] == at[i] - 1;
  }

  /** Picks that take the first code leave picks from the rest for the rest. */
  lemma PicksAfterFirst(at: seq<nat>, codes: seq<string>, wanted: seq<string>) returns (back: seq<nat>)
    requires Picks(at, codes, wanted) && at != [] && at[0] == 0
    ensures codes != [] && (wanted[0] == "" || codes[0] == wanted[0]) && Picks(back, codes[1..], wanted[1..])
  {
    back := seq(|at| - 1, i requires 0 <= i < |at| - 1 => if at[i + 1] > 0 then at[i + 1] - 1 else 0);
    assert forall i :: 0 <= i < |back| ==> at[i + 1] > 0 && back[i] == at[i + 1] - 1;
  }

  lemma {:induction false} MatchOfPicks(err: GoError, target: GoError, at: seq<nat>)
    requires AllCoded(err) && AllCoded(target) && Picks(at, Codes(err), Codes(target))
    ensures Is(err, target)
  {
    if err.Coded? {
      assert Codes(err)[1..] == Codes(err.inner);
      if at[0] > 0 {
        var back := PicksFromRest(at, Codes(err), Codes(target));
        MatchOfPicks(err.inner, target, back);
      } else {
        var back := PicksAfterFirst(at, Codes(err), Codes(target));
        assert Codes(target)[1..] == Codes(target.inner);
        MatchOfPicks(err.inner, target.inner, back);
      }
    }
  }

  /** Two failures of reflexivity and of symmetry, on concrete chains. */
  lemma MatchingCounterexamples()
    ensures var list := Plain(0, false, Nil); !Is(list, list)
    ensures var wildcard, coded := Coded(0, "", Nil), Coded(1, "start_check_error", Nil);
            Is(coded, wildcard) && !Is(wildcard, coded)
  {
    assert FirstCoded(Plain(0, false, Nil)) == Nil;
  }
}
