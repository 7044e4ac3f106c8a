/**
 What of the flattened headers depends on Go's map iteration order, and what does not.
 */
module HeaderOrder {
  import opened Values
  import opened Headers

  // ----- how often each string is sent

  /** The sum of a number over the fields of an object. */
  ghost function SumOver(obj: map<string, Value>, f: (string, Value) -> nat): nat
    decreases obj.Keys
  {
    if obj == map[] then 0
    else
      var k :| k in obj;
      assert k in obj.Keys && k !in (obj - {k}).Keys;
      f(k, obj[k]) + SumOver(obj - {k}, f)
  }

  function SumAlong(obj: map<string, Value>, order: seq<string>, f: (string, Value) -> nat): nat
    requires forall k :: k in order ==> k in obj
  {
    if order == [] then 0 else f(order[0], obj[order[0]]) + SumAlong(obj, order[1..], f)
  }

  /** The sum over the objects of a decision. */
  ghost function SumOverItems(items: seq<Value>, f: (string, Value) -> nat): nat {
    if items == [] then 0
    else (if items[0].Object? then SumOver(items[0].fields, f) else 0) + SumOverItems(items[1..], f)
  }

  ghost function SumOverHeaders(v: Value, f: (string, Value) -> nat): nat {
    SumOverItems(if v.Array? then v.items else [v], f)
  }

  /** How often a header value lists a string. */
  function Occurrences(v: Value, text: string): nat {
    match v
    case Str(t) => if t == text then 1 else 0
    case Strings(list) => multiset(list)[text]
    case Array(items) => multiset(items)[Str(text)]
    case _ => 0
  }

  function OccurrencesUnder(canon: string -> string, name: string, text: string): (string, Value) -> nat {
    (k: string, x: Value) => if canon(k) == name then Occurrences(x, text) else 0
  }

  /** How many strings a header value lists. */
  function Size(v: Value): nat {
    match v
    case Str(_) => 1
    case Strings(list) => |list|
    case Array(items) => |items|
    case _ => 0
  }

  const SIZES: (string, Value) -> nat := (k: string, x: Value) => Size(x)

  lemma {:induction false} ListedOccurrences(items: seq<Value>, texts: seq<string>, text: string)
    requires Lists(Array(items), texts)
    ensures multiset(items)[Str(text)] == multiset(texts)[text]
  {
    if items != [] {
      assert items == [items[0]] + items[1..] && texts == [texts[0]] + texts[1..];
      ListedOccurrences(items[1..], texts[1..], text);
    }
  }

  /** What one header value adds. */
  lemma EntriesOfValue(name: string, v: Value, key: string, text: string)
    requires StringsOf(v).Some?
    ensures multiset(PairsOf(name, StringsOf(v).value))[(key, text)] == if name == key then Occurrences(v, text) else 0
    ensures |StringsOf(v).value| == Size(v)
  {
    var texts := StringsOf(v).value;
    StringsOfIsListed(v);
    assert Lists(v, texts);
    CountByKey(PairsOf(name, texts), key, text);
    ValuesForPairsOf(name, texts, key);
    if v.Array? {
      ListedOccurrences(v.items, texts, text);
    }
  }

  /** Leaving out a key that is not in the order changes nothing. */
  lemma {:induction false} SumIgnoresOthers(obj: map<string, Value>, k: string, order: seq<string>,
                                            f: (string, Value) -> nat)
    requires forall x :: x in order ==> x in obj && x != k
    ensures SumAlong(obj, order, f) == SumAlong(obj - {k}, order, f)
  {
    if order != [] {
      assert order[0] in order && forall x :: x in order[1..] ==> x in order;
      SumIgnoresOthers(obj, k, order[1..], f);
    }
  }

  lemma {:induction false} SumSplit(obj: map<string, Value>, a: seq<string>, k: string, b: seq<string>,
                                    f: (string, Value) -> nat)
    requires k in obj && forall x :: x in a + b ==> x in obj
    ensures forall x :: x in a + [k] + b ==> x in obj
    ensures SumAlong(obj, a + [k] + b, f) == f(k, obj[k]) + SumAlong(obj, a + b, f)
  {
    assert forall x :: x in a || x in b ==> x in a + b;
    var whole := a + [k] + b;
    if a == [] {
      assert whole[1..] == b == a + b;
    } else {
      assert whole[1..] == a[1..] + [k] + b && (a + b)[1..] == a[1..] + b;
      SumSplit(obj, a[1..], k, b, f);
    }
  }

  /** The sum along any enumeration of the keys is the sum over the object. */
  lemma {:induction false} SumInAnyOrder(obj: map<string, Value>, order: seq<string>, f: (string, Value) -> nat)
    requires Enumerates(order, obj.Keys)
    ensures SumAlong(obj, order, f) == SumOver(obj, f)
    decreases |order|
  {
    if order == [] {
      assert forall k :: k in obj ==> k in order;
    } else {
      assert order[0] in obj;
      var k :| k in obj && SumOver(obj, f) == f(k, obj[k]) + SumOver(obj - {k}, f);
      var a, b := SplitOrder(order, obj.Keys, k);
      SumSplit(obj, a, k, b, f);
      assert (obj - {k}).Keys == obj.Keys - {k};
      SumIgnoresOthers(obj, k, a + b, f);
      SumInAnyOrder(obj - {k}, a + b, f);
    }
  }

  /** Where a key stands in an order. */
  lemma SplitOrder(order: seq<string>, keys: set<string>, k: string) returns (a: seq<string>, b: seq<string>)
    requires Enumerates(order, keys) && k in keys
    ensures order == a + [k] + b && Enumerates(a + b, keys - {k})
  {
    var j :| 0 <= j < |order| && order[j] == k;
    a, b := order[..j], order[j + 1..];
    assert forall i :: 0 <= i < |a + b| ==> (a + b)[i] == order[if i < j then i else i + 1];
    forall x ensures x in a + b <==> x in keys - {k} {
      if x in keys - {k} {
        var i :| 0 <= i < |order| && order[i] == x;
        assert (a + b)[if i < j then i else i - 1] == x;
      }
    }
  }

  lemma {:induction false} EnumerationSize(order: seq<string>, keys: set<string>)
    requires Enumerates(order, keys)
    ensures |order| == |keys|
  {
    if order == [] {
      assert forall k :: k in keys ==> k in order;
      assert keys == {};
    } else {
      assert order[0] in order && forall x :: x in order <==> x == order[0] || x in order[1..];
      EnumerationSize(order[1..], keys - {order[0]});
    }
  }

  lemma TakenSplit(canon: string -> string, obj: map<string, Value>, a: seq<string>, k: string, b: seq<string>)
    requires ObjectOk(obj) && k in obj && forall x :: x in a + b ==> x in obj
    ensures forall x :: (x in a + [k] + b ==> x in obj) && (x in a ==> x in obj) && (x in b ==> x in obj)
    ensures Taken(canon, obj, a + [k] + b) ==
            Taken(canon, obj, a) + PairsOf(canon(k), StringsOf(obj[k]).value) + Taken(canon, obj, b)
    ensures Taken(canon, obj, a + b) == Taken(canon, obj, a) + Taken(canon, obj, b)
  {
    assert forall x :: x in a || x in b ==> x in a + b;
    assert a + [k] + b == a + ([k] + b);
    TakenConcat(canon, obj, a, [k] + b);
    TakenConcat(canon, obj, a, b);
    assert ([k] + b)[1..] == b;
  }

  lemma {:induction false} TakenSums(canon: string -> string, obj: map<string, Value>, order: seq<string>,
                                     name: string, text: string)
    requires ObjectOk(obj) && forall k :: k in order ==> k in obj
    ensures multiset(Taken(canon, obj, order))[(name, text)] ==
            SumAlong(obj, order, OccurrencesUnder(canon, name, text))
    ensures |Taken(canon, obj, order)| == SumAlong(obj, order, SIZES)
  {
    if order != [] {
      EntriesOfValue(canon(order[0]), obj[order[0]], name, text);
      TakenSums(canon, obj, order[1..], name, text);
    }
  }

  lemma {:induction false} TakenAllSums(canon: string -> string, items: seq<Value>, objs: seq<map<string, Value>>,
                                        orders: seq<seq<string>>, name: string, text: string)
    requires ObjectsOk(objs) && OrdersOk(objs, orders)
    requires |items| == |objs| && forall i :: 0 <= i < |items| ==> items[i] == Object(objs[i])
    ensures multiset(TakenAll(canon, objs, orders))[(name, text)] ==
            SumOverItems(items, OccurrencesUnder(canon, name, text))
    ensures |TakenAll(canon, objs, orders)| == SumOverItems(items, SIZES)
  {
    if objs != [] {
      assert Enumerates(orders[0], objs[0].Keys);
      TakenSums(canon, objs[0], orders[0], name, text);
      SumInAnyOrder(objs[0], orders[0], OccurrencesUnder(canon, name, text));
      SumInAnyOrder(objs[0], orders[0], SIZES);
      TakenAllSums(canon, items[1..], objs[1..], orders[1..], name, text);
    }
  }

  /** A list of entries is, as a multiset, what it lists under each key. */
  lemma {:induction false} CountByKey(pairs: seq<Pair>, key: string, value: string)
    ensures multiset(pairs)[(key, value)] == multiset(ValuesFor(pairs, key))[value]
  {
    if pairs != [] {
      assert pairs == [pairs[0]] + pairs[1..];
      CountByKey(pairs[1..], key, value);
    }
  }

  lemma OutputValues(canon: string -> string, objs: seq<map<string, Value>>, orders: seq<seq<string>>,
                     h: Header, order: seq<string>, out: seq<Pair>, key: string)
    requires ObjectsOk(objs) && OrdersOk(objs, orders) && IsOutput(canon, objs, orders, h, order, out)
    ensures ValuesFor(out, key) == ValuesFor(TakenAll(canon, objs, orders), key)
  {
    EmittedValues(h, order, key);
    assert Get(h, key) == ValuesFor(TakenAll(canon, objs, orders), key);
  }

  lemma SameValuesSameEntries(a: seq<Pair>, b: seq<Pair>)
    requires forall key :: ValuesFor(a, key) == ValuesFor(b, key)
    ensures multiset(a) == multiset(b)
  {
    forall p: Pair ensures multiset(a)[p] == multiset(b)[p] {
      CountByKey(a, p.0, p.1);
      CountByKey(b, p.0, p.1);
    }
  }

  /**
   Whatever the iteration orders, the list has each string under each name as often as the fields with
   that canonical name list it, and as many entries as all the fields list strings.
   */
  lemma FlatteningSendsEachString(canon: string -> string, v: Value, out: seq<Pair>, name: string, text: string)
    requires IsFlattening(canon, v, out)
    ensures multiset(out)[(name, text)] == SumOverHeaders(v, OccurrencesUnder(canon, name, text))
    ensures |out| == SumOverHeaders(v, SIZES)
  {
    var objs := ObjectsOf(v).value;
    var orders, order, h :| OrdersOk(objs, orders) && IsOutput(canon, objs, orders, h, order, out);
    var taken := TakenAll(canon, objs, orders);
    forall key ensures ValuesFor(out, key) == ValuesFor(taken, key) {
      OutputValues(canon, objs, orders, h, order, out, key);
    }
    SameValuesSameEntries(out, taken);
    assert |multiset(out)| == |out| && |multiset(taken)| == |taken|;
    TakenAllSums(canon, if v.Array? then v.items else [v], objs, orders, name, text);
  }

  // ----- the order of the values under one key

  /** What a key of an object contributes under one canonical name. */
  function Share(canon: string -> string, obj: map<string, Value>, k: string, key: string): seq<string>
    requires ObjectOk(obj) && k in obj
  {
    if canon(k) == key then StringsOf(obj[k]).value else []
  }

  /** Any two keys of the object with one canonical form have lists that can be swapped. */
  ghost predicate OrderFree(canon: string -> string, obj: map<string, Value>)
    requires ObjectOk(obj)
  {
    forall k1, k2 :: k1 in obj && k2 in obj && canon(k1) == canon(k2) ==> Swappable(obj, k1, k2)
  }

  ghost predicate Swappable(obj: map<string, Value>, k1: string, k2: string)
    requires ObjectOk(obj) && k1 in obj && k2 in obj
  {
    var v1, v2 := StringsOf(obj[k1]).value, StringsOf(obj[k2]).value;
    v1 + v2 == v2 + v1
  }

  lemma SwapPastTwo<T>(v: seq<T>, w: seq<T>, s: seq<T>)
    requires v + w == w + v && v + s == s + v
    ensures v + (w + s) == (w + s) + v
  {
    assert v + (w + s) == (v + w) + s;
    assert (w + v) + s == w + (v + s);
    assert w + (s + v) == (w + s) + v;
  }

  lemma SharesSwap(canon: string -> string, obj: map<string, Value>, k1: string, k2: string, key: string)
    requires ObjectOk(obj) && OrderFree(canon, obj) && k1 in obj && k2 in obj
    ensures Share(canon, obj, k1, key) + Share(canon, obj, k2, key) ==
            Share(canon, obj, k2, key) + Share(canon, obj, k1, key)
  {
    if canon(k1) == canon(k2) {
      assert Swappable(obj, k1, k2);
    }
  }

  lemma {:induction false} ShareCommutes(canon: string -> string, obj: map<string, Value>, a: seq<string>,
                                         k: string, key: string)
    requires ObjectOk(obj) && OrderFree(canon, obj) && k in obj && forall x :: x in a ==> x in obj
    ensures var v, s := Share(canon, obj, k, key), ValuesFor(Taken(canon, obj, a), key); v + s == s + v
  {
    if a == [] {
      assert Share(canon, obj, k, key) + [] == Share(canon, obj, k, key);
    } else {
      SharesSwap(canon, obj, k, a[0], key);
      ShareCommutes(canon, obj, a[1..], k, key);
      TakenFirst(canon, obj, a, key);
      SwapPastTwo(Share(canon, obj, k, key), Share(canon, obj, a[0], key), ValuesFor(Taken(canon, obj, a[1..]), key));
    }
  }

  lemma TakenFirst(canon: string -> string, obj: map<string, Value>, a: seq<string>, key: string)
    requires a != [] && ObjectOk(obj) && forall x :: x in a ==> x in obj
    ensures ValuesFor(Taken(canon, obj, a), key) ==
            Share(canon, obj, a[0], key) + ValuesFor(Taken(canon, obj, a[1..]), key)
  {
    ValuesForConcat(PairsOf(canon(a[0]), StringsOf(obj[a[0]]).value), Taken(canon, obj, a[1..]), key);
    ValuesForPairsOf(canon(a[0]), StringsOf(obj[a[0]]).value, key);
  }

  lemma {:induction false} OrdersAgree(canon: string -> string, obj: map<string, Value>, keys: set<string>,
                                       o1: seq<string>, o2: seq<string>, key: string)
    requires ObjectOk(obj) && OrderFree(canon, obj) && keys <= obj.Keys
    requires Enumerates(o1, keys) && Enumerates(o2, keys)
    ensures ValuesFor(Taken(canon, obj, o1), key) == ValuesFor(Taken(canon, obj, o2), key)
    decreases |o1|
  {
    EnumerationSize(o1, keys);
    EnumerationSize(o2, keys);
    if o1 != [] {
      var k := o1[0];
      var a, b := SplitOrder(o2, keys, k);
      assert Enumerates(o1[1..], keys - {k}) by {
        assert forall x :: x in o1 <==> x == k || x in o1[1..];
      }
      OrdersAgree(canon, obj, keys - {k}, o1[1..], a + b, key);
      TakenFirst(canon, obj, o1, key);
      MoveToFront(canon, obj, a, k, b, key);
    }
  }

  lemma MoveToFront(canon: string -> string, obj: map<string, Value>, a: seq<string>, k: string, b: seq<string>,
                    key: string)
    requires ObjectOk(obj) && OrderFree(canon, obj) && k in obj && forall x :: x in a + b ==> x in obj
    ensures forall x :: x in a + [k] + b ==> x in obj
    ensures ValuesFor(Taken(canon, obj, a + [k] + b), key) ==
            Share(canon, obj, k, key) + ValuesFor(Taken(canon, obj, a + b), key)
  {
    TakenSplit(canon, obj, a, k, b);
    ShareCommutes(canon, obj, a, k, key);
    ValuesForPairsOf(canon(k), StringsOf(obj[k]).value, key);
    ValuesInMiddle(Taken(canon, obj, a), PairsOf(canon(k), StringsOf(obj[k]).value), Taken(canon, obj, b), key);
  }

  lemma ValuesInMiddle(a: seq<Pair>, m: seq<Pair>, b: seq<Pair>, key: string)
    requires ValuesFor(m, key) + ValuesFor(a, key) == ValuesFor(a, key) + ValuesFor(m, key)
    ensures ValuesFor(a + m + b, key) == ValuesFor(m, key) + ValuesFor(a + b, key)
  {
    ValuesForConcat(a + m, b, key);
    ValuesForConcat(a, m, key);
    ValuesForConcat(a, b, key);
    assert ValuesFor(m, key) + (ValuesFor(a, key) + ValuesFor(b, key)) ==
           (ValuesFor(m, key) + ValuesFor(a, key)) + ValuesFor(b, key);
  }

  ghost predicate AllOrderFree(canon: string -> string, objs: seq<map<string, Value>>)
    requires ObjectsOk(objs)
  {
    forall i :: 0 <= i < |objs| ==> OrderFree(canon, objs[i])
  }

  lemma {:induction false} AllOrdersAgree(canon: string -> string, objs: seq<map<string, Value>>,
                                          o1: seq<seq<string>>, o2: seq<seq<string>>, key: string)
    requires ObjectsOk(objs) && OrdersOk(objs, o1) && OrdersOk(objs, o2) && AllOrderFree(canon, objs)
    ensures ValuesFor(TakenAll(canon, objs, o1), key) == ValuesFor(TakenAll(canon, objs, o2), key)
  {
    if objs != [] {
      assert OrderFree(canon, objs[0]);
      OrdersAgree(canon, objs[0], objs[0].Keys, o1[0], o2[0], key);
      AllOrdersAgree(canon, objs[1..], o1[1..], o2[1..], key);
      ValuesForConcat(Taken(canon, objs[0], o1[0]), TakenAll(canon, objs[1..], o1[1..]), key);
      ValuesForConcat(Taken(canon, objs[0], o2[0]), TakenAll(canon, objs[1..], o2[1..]), key);
    }
  }

  // ----- and the converse: two lists that cannot be swapped make the order visible

  /** Some order of a finite set of keys. */
  ghost function SomeOrder(keys: set<string>): (order: seq<string>)
    ensures Enumerates(order, keys)
  {
    if keys == {} then []
    else
      var k :| k in keys;
      var rest := SomeOrder(keys - {k});
      assert forall x :: x in [k] + rest <==> x == k || x in rest;
      [k] + rest
  }

  ghost function SomeOrders(objs: seq<map<string, Value>>): (orders: seq<seq<string>>)
    ensures OrdersOk(objs, orders)
  {
    seq(|objs|, i requires 0 <= i < |objs| => SomeOrder(objs[i].Keys))
  }

  /** An order with two given keys first. */
  lemma FirstTwo(keys: set<string>, k1: string, k2: string, rest: seq<string>)
    requires k1 in keys && k2 in keys && k1 != k2 && Enumerates(rest, keys - {k1, k2})
    ensures Enumerates([k1] + ([k2] + rest), keys)
  {
    assert forall x :: x in [k1] + ([k2] + rest) <==> x == k1 || x == k2 || x in rest;
  }

  /** What an order that starts with two keys of one canonical form adds under that form. */
  lemma FirstTwoValues(canon: string -> string, obj: map<string, Value>, k1: string, k2: string, rest: seq<string>)
    requires ObjectOk(obj) && k1 in obj && k2 in obj && canon(k1) == canon(k2)
    requires forall x :: x in rest ==> x in obj
    ensures forall x :: x in [k1] + ([k2] + rest) ==> x in obj
    ensures ValuesFor(Taken(canon, obj, [k1] + ([k2] + rest)), canon(k1)) ==
            StringsOf(obj[k1]).value + (StringsOf(obj[k2]).value + ValuesFor(Taken(canon, obj, rest), canon(k1)))
  {
    var tail := [k2] + rest;
    assert tail[1..] == rest && ([k1] + tail)[1..] == tail;
    TakenFirst(canon, obj, tail, canon(k1));
    TakenFirst(canon, obj, [k1] + tail, canon(k1));
  }

  lemma {:induction false} OneObjectDiffers(canon: string -> string, objs: seq<map<string, Value>>, i: nat,
                                            o1: seq<seq<string>>, o2: seq<seq<string>>, key: string)
    requires ObjectsOk(objs) && i < |objs| && OrdersOk(objs, o1) && OrdersOk(objs, o2)
    requires forall j :: 0 <= j < |objs| && j != i ==> o1[j] == o2[j]
    requires ValuesFor(TakenAll(canon, objs, o1), key) == ValuesFor(TakenAll(canon, objs, o2), key)
    ensures ValuesFor(Taken(canon, objs[i], o1[i]), key) == ValuesFor(Taken(canon, objs[i], o2[i]), key)
  {
    var t1, t2 := Taken(canon, objs[0], o1[0]), Taken(canon, objs[0], o2[0]);
    var r1, r2 := TakenAll(canon, objs[1..], o1[1..]), TakenAll(canon, objs[1..], o2[1..]);
    ValuesForConcat(t1, r1, key);
    ValuesForConcat(t2, r2, key);
    if i == 0 {
      assert o1[1..] == o2[1..];
      SameSuffix(ValuesFor(t1, key), ValuesFor(t2, key), ValuesFor(r1, key));
    } else {
      SamePrefix(ValuesFor(t1, key), ValuesFor(r1, key), ValuesFor(r2, key));
      OneObjectDiffers(canon, objs[1..], i - 1, o1[1..], o2[1..], key);
    }
  }

  lemma SameSuffix<T>(a: seq<T>, b: seq<T>, s: seq<T>)
    requires a + s == b + s
    ensures a == b
  {
    assert |a| == |b|;
    assert a == (a + s)[..|a|] && b == (b + s)[..|b|];
  }

  lemma SamePrefix<T>(p: seq<T>, a: seq<T>, b: seq<T>)
    requires p + a == p + b
    ensures a == b
  {
    assert a == (p + a)[|p|..] && b == (p + b)[|p|..];
  }

  ghost predicate SameValues(canon: string -> string, objs: seq<map<string, Value>>,
                             o1: seq<seq<string>>, o2: seq<seq<string>>, key: string)
    requires ObjectsOk(objs) && OrdersOk(objs, o1) && OrdersOk(objs, o2)
  {
    ValuesFor(TakenAll(canon, objs, o1), key) == ValuesFor(TakenAll(canon, objs, o2), key)
  }

  /** If one object's two orders give different values then so do the decision's, the others in the same order. */
  lemma DifferInOneObject(canon: string -> string, objs: seq<map<string, Value>>, i: nat,
                          a: seq<string>, b: seq<string>, key: string)
    returns (o1: seq<seq<string>>, o2: seq<seq<string>>)
    requires ObjectsOk(objs) && i < |objs| && Enumerates(a, objs[i].Keys) && Enumerates(b, objs[i].Keys)
    requires ValuesFor(Taken(canon, objs[i], a), key) != ValuesFor(Taken(canon, objs[i], b), key)
    ensures OrdersOk(objs, o1) && OrdersOk(objs, o2) && !SameValues(canon, objs, o1, o2, key)
  {
    var orders := SomeOrders(objs);
    o1, o2 := orders[i := a], orders[i := b];
    if SameValues(canon, objs, o1, o2, key) {
      OneObjectDiffers(canon, objs, i, o1, o2, key);
    }
  }

  lemma NotSwappable<T>(v1: seq<T>, v2: seq<T>, s: seq<T>)
    requires v1 + v2 != v2 + v1
    ensures v1 + (v2 + s) != v2 + (v1 + s)
  {
    assert v1 + (v2 + s) == (v1 + v2) + s && v2 + (v1 + s) == (v2 + v1) + s;
    if (v1 + v2) + s == (v2 + v1) + s {
      SameSuffix(v1 + v2, v2 + v1, s);
    }
  }

  lemma OrdersThatDiffer(canon: string -> string, objs: seq<map<string, Value>>, i: nat, k1: string, k2: string)
    returns (o1: seq<seq<string>>, o2: seq<seq<string>>)
    requires ObjectsOk(objs) && i < |objs|
    requires k1 in objs[i] && k2 in objs[i] && canon(k1) == canon(k2) && !Swappable(objs[i], k1, k2)
    ensures OrdersOk(objs, o1) && OrdersOk(objs, o2) && !SameValues(canon, objs, o1, o2, canon(k1))
  {
    var obj := objs[i];
    var rest := SomeOrder(obj.Keys - {k1, k2});
    assert {k1, k2} == {k2, k1};
    FirstTwo(obj.Keys, k1, k2, rest);
    FirstTwo(obj.Keys, k2, k1, rest);
    FirstTwoValues(canon, obj, k1, k2, rest);
    FirstTwoValues(canon, obj, k2, k1, rest);
    NotSwappable(StringsOf(obj[k1]).value, StringsOf(obj[k2]).value, ValuesFor(Taken(canon, obj, rest), canon(k1)));
    o1, o2 := DifferInOneObject(canon, objs, i, [k1] + ([k2] + rest), [k2] + ([k1] + rest), canon(k1));
  }

  /** Some header that holds the given entries, and the list it may be sent as. */
  lemma {:induction false} SomeHeader(pairs: seq<Pair>) returns (h: Header)
    ensures Holds(h, pairs)
  {
    if pairs == [] {
      h := map[];
    } else {
      var n := |pairs| - 1;
      var before := SomeHeader(pairs[..n]);
      HoldsOneMore(before, pairs[..n], pairs[n].0, pairs[n].1);
      assert pairs == pairs[..n] + [(pairs[n].0, pairs[n].1)];
      h := before[pairs[n].0 := Get(before, pairs[n].0) + [pairs[n].1]];
    }
  }

  lemma SomeFlattening(canon: string -> string, v: Value, orders: seq<seq<string>>) returns (out: seq<Pair>)
    requires HeadersOk(v) && OrdersOk(ObjectsOf(v).value, orders)
    ensures IsFlattening(canon, v, out)
    ensures forall key :: ValuesFor(out, key) == ValuesFor(TakenAll(canon, ObjectsOf(v).value, orders), key)
  {
    var objs := ObjectsOf(v).value;
    var h := SomeHeader(TakenAll(canon, objs, orders));
    var order := SomeOrder(h.Keys);
    out := Emitted(h, order);
    assert IsOutput(canon, objs, orders, h, order, out);
    forall key ensures ValuesFor(out, key) == ValuesFor(TakenAll(canon, objs, orders), key) {
      OutputValues(canon, objs, orders, h, order, out, key);
    }
  }

  ghost predicate SameLists(a: seq<Pair>, b: seq<Pair>) {
    forall key :: ValuesFor(a, key) == ValuesFor(b, key)
  }

  ghost predicate ValueOrderFixed(canon: string -> string, v: Value) {
    forall a, b :: IsFlattening(canon, v, a) && IsFlattening(canon, v, b) ==> SameLists(a, b)
  }

  /** Every well-formed header value has a result, and all its results have the same entries. */
  lemma FlatteningExists(canon: string -> string, v: Value) returns (out: seq<Pair>)
    requires HeadersOk(v)
    ensures IsFlattening(canon, v, out)
    ensures forall other :: IsFlattening(canon, v, other) ==> multiset(other) == multiset(out)
  {
    out := SomeFlattening(canon, v, SomeOrders(ObjectsOf(v).value));
    forall other | IsFlattening(canon, v, other) ensures multiset(other) == multiset(out) {
      forall p: Pair ensures multiset(other)[p] == multiset(out)[p] {
        FlatteningSendsEachString(canon, v, out, p.0, p.1);
        FlatteningSendsEachString(canon, v, other, p.0, p.1);
      }
    }
  }

  /** The values under each name keep one order in all results exactly when the objects are order-free. */
  lemma ValueOrderFixedExactly(canon: string -> string, v: Value)
    requires HeadersOk(v)
    ensures ValueOrderFixed(canon, v) <==> AllOrderFree(canon, ObjectsOf(v).value)
  {
    if AllOrderFree(canon, ObjectsOf(v).value) {
      forall a, b | IsFlattening(canon, v, a) && IsFlattening(canon, v, b) ensures SameLists(a, b) {
        FlatteningsAgree(canon, v, a, b);
      }
    } else {
      var a, b := FlatteningsThatDiffer(canon, v);
    }
  }

  lemma FlatteningsThatDiffer(canon: string -> string, v: Value) returns (a: seq<Pair>, b: seq<Pair>)
    requires HeadersOk(v) && !AllOrderFree(canon, ObjectsOf(v).value)
    ensures IsFlattening(canon, v, a) && IsFlattening(canon, v, b) && !SameLists(a, b)
  {
    var objs := ObjectsOf(v).value;
    var i :| 0 <= i < |objs| && !OrderFree(canon, objs[i]);
    var k1, k2 :| k1 in objs[i] && k2 in objs[i] && canon(k1) == canon(k2) && !Swappable(objs[i], k1, k2);
    var o1, o2 := OrdersThatDiffer(canon, objs, i, k1, k2);
    a := SomeFlattening(canon, v, o1);
    b := SomeFlattening(canon, v, o2);
    assert ValuesFor(a, canon(k1)) != ValuesFor(b, canon(k1));
  }

  lemma FlatteningsAgree(canon: string -> string, v: Value, a: seq<Pair>, b: seq<Pair>)
    requires IsFlattening(canon, v, a) && IsFlattening(canon, v, b) && AllOrderFree(canon, ObjectsOf(v).value)
    ensures SameLists(a, b)
  {
    var objs := ObjectsOf(v).value;
    var orders1, order1, h1 :| OrdersOk(objs, orders1) && IsOutput(canon, objs, orders1, h1, order1, a);
    var orders2, order2, h2 :| OrdersOk(objs, orders2) && IsOutput(canon, objs, orders2, h2, order2, b);
    forall key ensures ValuesFor(a, key) == ValuesFor(b, key) {
      OutputValues(canon, objs, orders1, h1, order1, a, key);
      OutputValues(canon, objs, orders2, h2, order2, b, key);
      AllOrdersAgree(canon, objs, orders1, orders2, key);
    }
  }

  // ----- list order, when no object has two keys with one canonical form

  /** At most one key of the object has this canonical form. */
  ghost predicate OneKeyFor(canon: string -> string, obj: map<string, Value>, name: string) {
    forall k1, k2 :: k1 in obj && k2 in obj && canon(k1) == name && canon(k2) == name ==> k1 == k2
  }

  /** What an object lists under a name: the strings of the field with that canonical form, if there is one. */
  ghost predicate ListsUnder(canon: string -> string, obj: map<string, Value>, name: string, texts: seq<string>) {
    && (forall k :: k in obj && canon(k) == name ==> Lists(obj[k], texts))
    && ((forall k :: k in obj ==> canon(k) != name) ==> texts == [])
  }

  function Concatenated(lists: seq<seq<string>>): seq<string> {
    if lists == [] then [] else lists[0] + Concatenated(lists[1..])
  }

  lemma {:induction false} TakenIsShare(canon: string -> string, obj: map<string, Value>, order: seq<string>,
                                        key: string)
    requires ObjectOk(obj) && OneKeyFor(canon, obj, key) && forall x :: x in order ==> x in obj
    requires forall i, j :: 0 <= i < j < |order| ==> order[i] != order[j]
    ensures forall k :: k in order && canon(k) == key ==>
              ValuesFor(Taken(canon, obj, order), key) == StringsOf(obj[k]).value
    ensures (forall k :: k in order ==> canon(k) != key) ==> ValuesFor(Taken(canon, obj, order), key) == []
  {
    if order != [] {
      assert order[0] in order && forall x :: x in order <==> x == order[0] || x in order[1..];
      assert order[0] !in order[1..];
      TakenFirst(canon, obj, order, key);
      TakenIsShare(canon, obj, order[1..], key);
    }
  }

  lemma TakenIsListed(canon: string -> string, obj: map<string, Value>, order: seq<string>, key: string)
    requires ObjectOk(obj) && OneKeyFor(canon, obj, key) && Enumerates(order, obj.Keys)
    ensures ListsUnder(canon, obj, key, ValuesFor(Taken(canon, obj, order), key))
  {
    TakenIsShare(canon, obj, order, key);
    forall k | k in obj && canon(k) == key ensures Lists(obj[k], ValuesFor(Taken(canon, obj, order), key)) {
      assert k in order;
      StringsOfIsListed(obj[k]);
    }
    assert forall k :: k in order ==> k in obj;
  }

  lemma {:induction false} TakenAllIsListed(canon: string -> string, objs: seq<map<string, Value>>,
                                            orders: seq<seq<string>>, key: string)
    returns (lists: seq<seq<string>>)
    requires ObjectsOk(objs) && OrdersOk(objs, orders)
    requires forall i :: 0 <= i < |objs| ==> OneKeyFor(canon, objs[i], key)
    ensures |lists| == |objs| && forall i :: 0 <= i < |objs| ==> ListsUnder(canon, objs[i], key, lists[i])
    ensures ValuesFor(TakenAll(canon, objs, orders), key) == Concatenated(lists)
  {
    if objs == [] {
      lists := [];
    } else {
      assert OneKeyFor(canon, objs[0], key) && Enumerates(orders[0], objs[0].Keys);
      TakenIsListed(canon, objs[0], orders[0], key);
      var rest := TakenAllIsListed(canon, objs[1..], orders[1..], key);
      ValuesForConcat(Taken(canon, objs[0], orders[0]), TakenAll(canon, objs[1..], orders[1..]), key);
      lists := [ValuesFor(Taken(canon, objs[0], orders[0]), key)] + rest;
    }
  }

  /** Under a name that no object has two keys for, the values are in list order, for all iteration orders. */
  lemma ValuesFollowListOrder(canon: string -> string, v: Value, objs: seq<map<string, Value>>, out: seq<Pair>,
                              key: string)
    returns (lists: seq<seq<string>>)
    requires IsFlattening(canon, v, out) && AreObjects(v, objs)
    requires forall i :: 0 <= i < |objs| ==> OneKeyFor(canon, objs[i], key)
    ensures |lists| == |objs| && forall i :: 0 <= i < |objs| ==> ListsUnder(canon, objs[i], key, lists[i])
    ensures ValuesFor(out, key) == Concatenated(lists)
  {
    ObjectsOfIsObjects(v);
    var orders, order, h :| OrdersOk(objs, orders) && IsOutput(canon, objs, orders, h, order, out);
    OutputValues(canon, objs, orders, h, order, out, key);
    lists := TakenAllIsListed(canon, objs, orders, key);
  }

  /** In one object, a field whose canonical name no other has reaches Envoy string by string. */
  lemma FieldArrives(canon: string -> string, obj: map<string, Value>, k: string, out: seq<Pair>)
    requires IsFlattening(canon, Object(obj), out) && k in obj
    requires forall other :: other in obj && canon(other) == canon(k) ==> other == k
    ensures match obj[k]
            case Str(text) => ValuesFor(out, canon(k)) == [text]
            case Strings(list) => ValuesFor(out, canon(k)) == list
            case Array(items) =>
              var values := ValuesFor(out, canon(k));
              |values| == |items| && forall i :: 0 <= i < |items| ==> items[i] == Str(values[i])
            case _ => false
  {
    var lists := ValuesFollowListOrder(canon, Object(obj), [obj], out, canon(k));
    assert lists == [lists[0]] && Concatenated(lists) == lists[0] + Concatenated(lists[1..]);
    assert Lists(obj[k], lists[0]);
  }

  ghost predicate DistinctNames(canon: string -> string, obj: map<string, Value>) {
    forall k1, k2 :: k1 in obj && k2 in obj && canon(k1) == canon(k2) ==> k1 == k2
  }

  ghost predicate AllDistinctNames(canon: string -> string, objs: seq<map<string, Value>>) {
    forall i :: 0 <= i < |objs| ==> DistinctNames(canon, objs[i])
  }

  lemma DistinctNamesAreOrderFree(canon: string -> string, objs: seq<map<string, Value>>)
    requires ObjectsOk(objs) && AllDistinctNames(canon, objs)
    ensures AllOrderFree(canon, objs)
  {
    forall i | 0 <= i < |objs| ensures OrderFree(canon, objs[i]) {
      assert DistinctNames(canon, objs[i]);
    }
  }

  /** A well-formed decision whose two spellings of one name make the value order depend on the iteration order. */
  lemma TwoSpellingsAreUnordered(canon: string -> string) returns (v: Value)
    requires canon("x-a") == canon("X-A")
    ensures v == Object(map["x-a" := Str("1"), "X-A" := Str("2")])
    ensures HeadersOk(v) && !ValueOrderFixed(canon, v)
  {
    var obj := map["x-a" := Str("1"), "X-A" := Str("2")];
    v := Object(obj);
    assert "x-a"[0] != "X-A"[0];
    assert ObjectsOf(v).value == [obj] && ObjectOk(obj);
    var v1, v2 := StringsOf(obj["x-a"]).value, StringsOf(obj["X-A"]).value;
    assert (v1 + v2)[0] == "1" && (v2 + v1)[0] == "2" && "1"[0] != "2"[0];
    assert !Swappable(obj, "x-a", "X-A");
    assert !OrderFree(canon, [obj][0]);
    ValueOrderFixedExactly(canon, v);
  }
}
