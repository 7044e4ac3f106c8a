/**
 Interleavings of sequences of effects: each effect of the run is tagged with the part it belongs to,
 and each part keeps the order of its own effects. Nothing else is assumed of the schedule.
 */
module Interleaving {
  /** The effects of part i. */
  function Project<E>(run: seq<(nat, E)>, i: nat): seq<E> {
    if run == [] then []
    else
      var last := run[|run| - 1];
      Project(run[..|run| - 1], i) + if last.0 == i then [last.1] else []
  }

  /** The effects of the run, without their tags. */
  function Untagged<E>(run: seq<(nat, E)>): seq<E> {
    seq(|run|, k requires 0 <= k < |run| => run[k].1)
  }

  ghost predicate Interleaves<E>(run: seq<(nat, E)>, parts: seq<seq<E>>) {
    && (forall k :: 0 <= k < |run| ==> run[k].0 < |parts|)
    && (forall i :: 0 <= i < |parts| ==> Project(run, i) == parts[i])
  }

  function One(b: bool): nat {
    if b then 1 else 0
  }

  /** How many of the effects satisfy p. */
  function Number<E>(effects: seq<E>, p: E -> bool): nat {
    if effects == [] then 0
    else Number(effects[..|effects| - 1], p) + One(p(effects[|effects| - 1]))
  }

  lemma {:induction false} NumberOfConcat<E>(a: seq<E>, b: seq<E>, p: E -> bool)
    ensures Number(a + b, p) == Number(a, p) + Number(b, p)
  {
    if b == [] {
      assert a + b == a;
    } else {
      assert (a + b)[..|a + b| - 1] == a + b[..|b| - 1];
      NumberOfConcat(a, b[..|b| - 1], p);
    }
  }

  lemma NumberOfSingle<E>(e: E, p: E -> bool)
    ensures Number([e], p) == One(p(e))
  {
    assert [e][..0] == [];
  }

  function Sum(numbers: seq<nat>): nat {
    if numbers == [] then 0 else Sum(numbers[..|numbers| - 1]) + numbers[|numbers| - 1]
  }

  /** The numbers of all parts, added up. */
  function SumOfParts<E>(parts: seq<seq<E>>, p: E -> bool): nat {
    if parts == [] then 0 else SumOfParts(parts[..|parts| - 1], p) + Number(parts[|parts| - 1], p)
  }

  /** The numbers of the projections of a run on its first n parts, added up. */
  function SumOfProjections<E>(run: seq<(nat, E)>, n: nat, p: E -> bool): nat {
    if n == 0 then 0 else SumOfProjections(run, n - 1, p) + Number(Project(run, n - 1), p)
  }

  lemma {:induction false} SumOfNothing<E>(n: nat, p: E -> bool)
    ensures SumOfProjections<E>([], n, p) == 0
  {
    if n > 0 {
      SumOfNothing(n - 1, p);
    }
  }

  lemma ProjectSnoc<E>(run: seq<(nat, E)>, x: (nat, E), i: nat)
    ensures Project(run + [x], i) == Project(run, i) + if x.0 == i then [x.1] else []
  {
    assert (run + [x])[..|run|] == run;
  }

  lemma {:induction false} SumSnoc<E>(run: seq<(nat, E)>, x: (nat, E), n: nat, p: E -> bool)
    ensures SumOfProjections(run + [x], n, p) == SumOfProjections(run, n, p) + if x.0 < n then One(p(x.1)) else 0
  {
    if n > 0 {
      SumSnoc(run, x, n - 1, p);
      ProjectSnoc(run, x, n - 1);
      NumberOfConcat(Project(run, n - 1), if x.0 == n - 1 then [x.1] else [], p);
      NumberOfSingle(x.1, p);
    }
  }

  lemma {:induction false} NumberOfRun<E>(run: seq<(nat, E)>, n: nat, p: E -> bool)
    requires forall k :: 0 <= k < |run| ==> run[k].0 < n
    ensures Number(Untagged(run), p) == SumOfProjections(run, n, p)
  {
    if run == [] {
      SumOfNothing(n, p);
    } else {
      var m := |run| - 1;
      NumberOfRun(run[..m], n, p);
      assert run == run[..m] + [run[m]];
      SumSnoc(run[..m], run[m], n, p);
      assert Untagged(run)[..m] == Untagged(run[..m]);
    }
  }

  lemma {:induction false} ProjectionsAreParts<E>(run: seq<(nat, E)>, parts: seq<seq<E>>, n: nat, p: E -> bool)
    requires Interleaves(run, parts) && n <= |parts|
    ensures SumOfProjections(run, n, p) == SumOfParts(parts[..n], p)
  {
    if n > 0 {
      ProjectionsAreParts(run, parts, n - 1, p);
      assert parts[..n][..n - 1] == parts[..n - 1];
    }
  }

  /** However the parts interleave, the run has as many effects of a kind as the parts have together. */
  lemma NumberOfInterleaving<E>(run: seq<(nat, E)>, parts: seq<seq<E>>, p: E -> bool)
    requires Interleaves(run, parts)
    ensures Number(Untagged(run), p) == SumOfParts(parts, p)
  {
    NumberOfRun(run, |parts|, p);
    ProjectionsAreParts(run, parts, |parts|, p);
    assert parts[..|parts|] == parts;
  }

  /** Part i has as many effects of kinds p and q together as of kind r, and `extra` more. */
  predicate PartBalances<E>(part: seq<E>, p: E -> bool, q: E -> bool, r: E -> bool, extra: nat) {
    Number(part, p) + Number(part, q) == Number(part, r) + extra
  }

  lemma {:induction false} SumsBalance<E>(parts: seq<seq<E>>, p: E -> bool, q: E -> bool, r: E -> bool, extra: seq<nat>)
    requires |extra| == |parts|
    requires forall i :: 0 <= i < |parts| ==> PartBalances(parts[i], p, q, r, extra[i])
    ensures SumOfParts(parts, p) + SumOfParts(parts, q) == SumOfParts(parts, r) + Sum(extra)
  {
    if parts != [] {
      var n := |parts| - 1;
      SumsBalance(parts[..n], p, q, r, extra[..n]);
      assert PartBalances(parts[n], p, q, r, extra[n]);
    }
  }

  /** A law that balances in every part balances in every interleaving of the parts. */
  lemma InterleavingBalances<E>(run: seq<(nat, E)>, parts: seq<seq<E>>, p: E -> bool, q: E -> bool, r: E -> bool,
                                extra: seq<nat>)
    requires Interleaves(run, parts) && |extra| == |parts|
    requires forall i :: 0 <= i < |parts| ==> PartBalances(parts[i], p, q, r, extra[i])
    ensures Number(Untagged(run), p) + Number(Untagged(run), q) == Number(Untagged(run), r) + Sum(extra)
  {
    NumberOfInterleaving(run, parts, p);
    NumberOfInterleaving(run, parts, q);
    NumberOfInterleaving(run, parts, r);
    SumsBalance(parts, p, q, r, extra);
  }

  /** One part alone is a run. */
  lemma {:induction false} SingleRun<E>(part: seq<E>) returns (run: seq<(nat, E)>)
    ensures Interleaves(run, [part]) && Untagged(run) == part
  {
    if part == [] {
      run := [];
    } else {
      var n := |part| - 1;
      var before := SingleRun(part[..n]);
      assert Project(before, 0) == [part[..n]][0];
      run := before + [(0, part[n])];
      ProjectSnoc(before, (0, part[n]), 0);
      assert part == part[..n] + [part[n]];
    }
  }

  /** At every moment a part has had a prefix of its effects. */
  lemma {:induction false} ProjectOfPrefix<E>(run: seq<(nat, E)>, k: nat, i: nat)
    requires k <= |run|
    ensures Project(run[..k], i) <= Project(run, i)
    decreases |run|
  {
    if k < |run| {
      var m := |run| - 1;
      assert run[..m][..k] == run[..k];
      ProjectOfPrefix(run[..m], k, i);
    } else {
      assert run[..k] == run;
    }
  }
}
