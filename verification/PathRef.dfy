/** The policy path of the configuration as a reference below `data` (internal/internal.go). */
module PathRef {
  import opened Outcomes
  import opened Text

  /** One element of a reference; `Root` is the default root document `data`. */
  datatype Term = Root | Str(text: string) | Num(value: int)

  function TermOf(segment: string): Term {
    match ParseInt(segment)
    case Some(i) => Num(i)
    case None => Str(segment)
  }

  /** The terms of the non-empty segments, in order. */
  function Terms(segments: seq<string>): seq<Term> {
    if segments == [] then []
    else (if segments[0] == "" then [] else [TermOf(segments[0])]) + Terms(segments[1..])
  }

  function RefOf(path: string): seq<Term> {
    Terms(Split(path, '/'))
  }

  lemma {:induction false} TermsOfConcat(a: seq<string>, b: seq<string>)
    ensures Terms(a + b) == Terms(a) + Terms(b)
  {
    if a == [] {
      assert a + b == b;
    } else {
      assert (a + b)[1..] == a[1..] + b;
      TermsOfConcat(a[1..], b);
    }
  }

  method StringPathToRef(s: string) returns (r: seq<Term>)
    ensures r == RefOf(s)
  {
    r := [];
    if |s| == 0 {
      return;
    }
    var p := Split(s, '/');
    for k := 0 to |p|
      invariant r == Terms(p[..k])
    {
      var x := p[k];
      assert p[..k + 1] == p[..k] + [x];
      TermsOfConcat(p[..k], [x]);
      if x == "" {
        continue;
      }
      var i := ParseInt(x);
      if i.None? {
        r := r + [Str(x)];
      } else {
        r := r + [Num(i.value)];
      }
    }
    assert p[..|p|] == p;
  }

  method StringPathToDataRef(s: string) returns (r: seq<Term>)
    ensures r == [Root] + RefOf(s)
  {
    var result := [Root];
    var tail := StringPathToRef(s);
    r := result + tail;
  }

  /** Joining two paths with a slash appends their references, whatever slashes the paths hold. */
  lemma RefOfConcat(a: string, b: string)
    ensures RefOf(a + "/" + b) == RefOf(a) + RefOf(b)
  {
    SplitOfConcat(a, b, '/');
    TermsOfConcat(Split(a, '/'), Split(b, '/'));
  }

  /** Leading, trailing and doubled slashes never matter. */
  lemma SlashesNeverMatter(a: string, b: string)
    ensures RefOf("/" + a) == RefOf(a) == RefOf(a + "/")
    ensures RefOf(a + "//" + b) == RefOf(a + "/" + b)
  {
    RefOfConcat("", a);
    assert "" + "/" + a == "/" + a;
    RefOfConcat(a, "");
    assert a + "/" + "" == a + "/";
    RefOfConcat(a + "/", b);
    assert a + "/" + "/" + b == a + "//" + b;
    RefOfConcat(a, b);
  }

  /** A path of one segment. */
  lemma RefOfSegment(x: string)
    requires '/' !in x
    ensures RefOf(x) == if x == "" then [] else [TermOf(x)]
  {
    SplitWhole(x, '/');
    assert Terms([x]) == (if x == "" then [] else [TermOf(x)]) + Terms([x][1..]);
  }

  /** The concatenation law and the one-segment paths leave room for no other function. */
  lemma {:induction false} RefOfIsTheOnlySolution(f: string -> seq<Term>, path: string)
    requires forall a, b :: f(a + "/" + b) == f(a) + f(b)
    requires forall x :: '/' !in x ==> f(x) == if x == "" then [] else [TermOf(x)]
    ensures f(path) == RefOf(path)
  {
    JoinOfSplit(path, '/');
    SplitPartsHaveNoSeparator(path, '/');
    SolutionOnJoin(f, Split(path, '/'));
  }

  lemma {:induction false} SolutionOnJoin(f: string -> seq<Term>, parts: seq<string>)
    requires |parts| > 0 && forall i :: 0 <= i < |parts| ==> '/' !in parts[i]
    requires forall a, b :: f(a + "/" + b) == f(a) + f(b)
    requires forall x :: '/' !in x ==> f(x) == if x == "" then [] else [TermOf(x)]
    ensures f(Join(parts, '/')) == Terms(parts)
  {
    if |parts| > 1 {
      SolutionOnJoin(f, parts[1..]);
      assert Join(parts, '/') == parts[0] + "/" + Join(parts[1..], '/');
    }
  }

  /** The terms that a path can denote: text that does not read as an integer, and integers in range. */
  predicate Printable(t: Term) {
    match t
    case Root => false
    case Str(x) => x != "" && '/' !in x && ParseInt(x) == None
    case Num(i) => MIN_INT64 <= i <= MAX_INT64
  }

  predicate AllPrintable(r: seq<Term>) {
    forall i :: 0 <= i < |r| ==> Printable(r[i])
  }

  function PrintTerm(t: Term): string {
    match t
    case Root => "data"
    case Str(x) => x
    case Num(i) => PrintInt(i)
  }

  /** The terms with a slash between them. */
  function PrintRef(r: seq<Term>): string {
    if r == [] then ""
    else if |r| == 1 then PrintTerm(r[0])
    else PrintTerm(r[0]) + "/" + PrintRef(r[1..])
  }

  lemma {:induction false} TermsArePrintable(segments: seq<string>)
    requires forall i :: 0 <= i < |segments| ==> '/' !in segments[i]
    ensures AllPrintable(Terms(segments))
  {
    if segments != [] {
      TermsArePrintable(segments[1..]);
    }
  }

  lemma PrintedTermReadsBack(t: Term)
    requires Printable(t)
    ensures RefOf(PrintTerm(t)) == [t]
  {
    if t.Num? {
      ParseOfPrint(t.value);
      PrintIntShape(t.value);
    }
    RefOfSegment(PrintTerm(t));
  }

  lemma {:induction false} PrintedRefReadsBack(r: seq<Term>)
    requires AllPrintable(r)
    ensures RefOf(PrintRef(r)) == r
  {
    if r == [] {
      RefOfSegment("");
    } else {
      PrintedTermReadsBack(r[0]);
      if |r| > 1 {
        PrintedRefReadsBack(r[1..]);
        RefOfConcat(PrintTerm(r[0]), PrintRef(r[1..]));
        assert r == [r[0]] + r[1..];
      }
    }
  }

  /** Printing and reparsing is the identity on exactly the references that some path denotes. */
  lemma ReparseExactly(r: seq<Term>)
    ensures RefOf(PrintRef(r)) == r <==> AllPrintable(r)
    ensures AllPrintable(r) <==> exists path :: RefOf(path) == r
  {
    if AllPrintable(r) {
      PrintedRefReadsBack(r);
    }
    forall path | RefOf(path) == r ensures AllPrintable(r) {
      RefOfIsPrintable(path);
    }
  }

  lemma RefOfIsPrintable(path: string)
    ensures AllPrintable(RefOf(path))
  {
    SplitPartsHaveNoSeparator(path, '/');
    TermsArePrintable(Split(path, '/'));
  }

  /** Parse, print, parse: the second reference is the first. */
  lemma PathRoundTrip(path: string)
    ensures RefOf(PrintRef(RefOf(path))) == RefOf(path)
  {
    RefOfIsPrintable(path);
    PrintedRefReadsBack(RefOf(path));
  }
}
