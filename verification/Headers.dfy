/**
 Flattening of the headers in a policy decision (envoyauth/response.go). Go iterates over maps in
 an arbitrary order, so every loop over a map here picks its keys nondeterministically and reports
 the order it happened to use in a ghost result. The canonical form of a header name is any
 function of the name.
 */
module Headers {
  import opened Outcomes
  import opened Values

  /** http.Header. */
  type Header = map<string, seq<string>>

  type Pair = (string, string)

  function Get(h: Header, key: string): seq<string> {
    if key in h then h[key] else []
  }

  /** Every key has a value, as in a header that was filled by Add alone. */
  predicate NoEmptyEntry(h: Header) {
    forall k :: k in h ==> h[k] != []
  }

  /** The strings one header value stands for; None if it has the wrong type. */
  function StringsOf(v: Value): Option<seq<string>> {
    match v
    case Str(s) => Some([s])
    case Strings(ss) => Some(ss)
    case Array(items) =>
      if forall i | 0 <= i < |items| :: items[i].Str?
      then Some(seq(|items|, i requires 0 <= i < |items| && items[i].Str? => items[i].text)) else None
    case _ => None
  }

  /** The same by the shape of the value: one string, a list of strings, or a list of values that are strings. */
  predicate Lists(v: Value, texts: seq<string>) {
    match v
    case Str(text) => texts == [text]
    case Strings(list) => texts == list
    case Array(items) => |texts| == |items| && forall i | 0 <= i < |items| :: items[i] == Str(texts[i])
    case _ => false
  }

  predicate HasStrings(v: Value) {
    v.Str? || v.Strings? || (v.Array? && forall i | 0 <= i < |v.items| :: v.items[i].Str?)
  }

  lemma StringsOfIsListed(v: Value)
    ensures StringsOf(v).Some? <==> HasStrings(v)
    ensures forall texts :: StringsOf(v) == Some(texts) <==> Lists(v, texts)
  {
    if HasStrings(v) {
      assert Lists(v, StringsOf(v).value);
      forall texts | Lists(v, texts) ensures texts == StringsOf(v).value {
      }
    }
  }

  predicate ObjectOk(obj: map<string, Value>) {
    forall k | k in obj :: StringsOf(obj[k]).Some?
  }

  /** The header objects of a decision: one object, or a list of objects. */
  function ObjectsOf(v: Value): Option<seq<map<string, Value>>> {
    match v
    case Object(fields) => Some([fields])
    case Array(items) =>
      if forall i | 0 <= i < |items| :: items[i].Object?
      then Some(seq(|items|, i requires 0 <= i < |items| && items[i].Object? => items[i].fields)) else None
    case _ => None
  }

  /** One object, or a list of objects. */
  predicate AreObjects(v: Value, objs: seq<map<string, Value>>) {
    match v
    case Object(fields) => objs == [fields]
    case Array(items) => |objs| == |items| && forall i | 0 <= i < |items| :: items[i] == Object(objs[i])
    case _ => false
  }

  predicate ObjectsOk(objs: seq<map<string, Value>>) {
    forall i | 0 <= i < |objs| :: ObjectOk(objs[i])
  }

  predicate HeadersOk(v: Value) {
    ObjectsOf(v).Some? && ObjectsOk(ObjectsOf(v).value)
  }

  predicate HasHeaders(v: Value) {
    v.Object? && forall k | k in v.fields :: HasStrings(v.fields[k])
  }

  lemma ObjectsOfIsObjects(v: Value)
    ensures forall objs :: ObjectsOf(v) == Some(objs) <==> AreObjects(v, objs)
  {
    if v.Array? && forall i | 0 <= i < |v.items| :: v.items[i].Object? {
      assert AreObjects(v, ObjectsOf(v).value);
      forall objs | AreObjects(v, objs) ensures objs == ObjectsOf(v).value {
      }
    }
  }

  lemma ObjectOkExactly(fields: map<string, Value>)
    ensures ObjectOk(fields) <==> HasHeaders(Object(fields))
  {
    forall k | k in fields ensures StringsOf(fields[k]).Some? <==> HasStrings(fields[k]) {
      StringsOfIsListed(fields[k]);
    }
  }

  /** Headers are well-formed when they are one object, or a list of objects, whose fields have strings. */
  lemma HeadersOkExactly(v: Value)
    ensures HeadersOk(v) <==> HasHeaders(v) || (v.Array? && forall i | 0 <= i < |v.items| :: HasHeaders(v.items[i]))
  {
    hide ObjectOk, HasStrings;
    match v
    case Object(fields) =>
      ObjectOkExactly(fields);
      assert ObjectsOf(v).value[0] == fields;
    case Array(items) =>
      forall i | 0 <= i < |items| && items[i].Object? ensures ObjectOk(items[i].fields) <==> HasHeaders(items[i]) {
        ObjectOkExactly(items[i].fields);
      }
      if ObjectsOf(v).Some? {
        assert forall i :: 0 <= i < |items| ==> items[i].Object? && ObjectsOf(v).value[i] == items[i].fields;
      }
    case _ =>
  }

  ghost predicate Enumerates(order: seq<string>, keys: set<string>) {
    && (forall i, j :: 0 <= i < j < |order| ==> order[i] != order[j])
    && (forall k :: k in order <==> k in keys)
  }

  function PairsOf(key: string, values: seq<string>): seq<Pair> {
    seq(|values|, i requires 0 <= i < |values| => (key, values[i]))
  }

  /** The values listed under one key, in order. */
  function ValuesFor(pairs: seq<Pair>, key: string): seq<string> {
    if pairs == [] then []
    else (if pairs[0].0 == key then [pairs[0].1] else []) + ValuesFor(pairs[1..], key)
  }

  /** The entries added for an object whose keys are met in the given order. */
  function Taken(canon: string -> string, obj: map<string, Value>, order: seq<string>): seq<Pair>
    requires ObjectOk(obj) && forall k :: k in order ==> k in obj
  {
    if order == [] then []
    else PairsOf(canon(order[0]), StringsOf(obj[order[0]]).value) + Taken(canon, obj, order[1..])
  }

  /** One key order for each object. */
  ghost predicate OrdersOk(objs: seq<map<string, Value>>, orders: seq<seq<string>>) {
    |orders| == |objs| && forall i :: 0 <= i < |objs| ==> Enumerates(orders[i], objs[i].Keys)
  }

  ghost function TakenAll(canon: string -> string, objs: seq<map<string, Value>>, orders: seq<seq<string>>): seq<Pair>
    requires ObjectsOk(objs) && OrdersOk(objs, orders)
  {
    if objs == [] then []
    else Taken(canon, objs[0], orders[0]) + TakenAll(canon, objs[1..], orders[1..])
  }

  /** The list sent to Envoy for a header whose keys are met in the given order. */
  function Emitted(h: Header, order: seq<string>): seq<Pair>
    requires forall k :: k in order ==> k in h
  {
    if order == [] then [] else PairsOf(order[0], h[order[0]]) + Emitted(h, order[1..])
  }

  /** The header holds, under each key, the values of the entries, and nothing else. */
  ghost predicate Holds(h: Header, pairs: seq<Pair>) {
    NoEmptyEntry(h) && forall key :: Get(h, key) == ValuesFor(pairs, key)
  }

  /** `out` is a possible result for the header value `v`, under some choice of iteration orders. */
  ghost predicate IsFlattening(canon: string -> string, v: Value, out: seq<Pair>) {
    HeadersOk(v) && exists orders, order, h ::
      OrdersOk(ObjectsOf(v).value, orders) && IsOutput(canon, ObjectsOf(v).value, orders, h, order, out)
  }

  ghost predicate IsOutput(canon: string -> string, objs: seq<map<string, Value>>, orders: seq<seq<string>>,
                           h: Header, order: seq<string>, out: seq<Pair>)
    requires ObjectsOk(objs) && OrdersOk(objs, orders)
  {
    Holds(h, TakenAll(canon, objs, orders)) && Enumerates(order, h.Keys) && out == Emitted(h, order)
  }

  // ----- sequences of entries

  lemma {:induction false} ValuesForConcat(a: seq<Pair>, b: seq<Pair>, key: string)
    ensures ValuesFor(a + b, key) == ValuesFor(a, key) + ValuesFor(b, key)
  {
    if a == [] {
      assert a + b == b;
    } else {
      assert (a + b)[1..] == a[1..] + b && (a + b)[0] == a[0];
      ValuesForConcat(a[1..], b, key);
      var first := if a[0].0 == key then [a[0].1] else [];
      assert first + (ValuesFor(a[1..], key) + ValuesFor(b, key)) ==
             (first + ValuesFor(a[1..], key)) + ValuesFor(b, key);
    }
  }

  lemma {:induction false} ValuesForPairsOf(k: string, values: seq<string>, key: string)
    ensures ValuesFor(PairsOf(k, values), key) == if k == key then values else []
  {
    if values != [] {
      assert PairsOf(k, values)[1..] == PairsOf(k, values[1..]);
      ValuesForPairsOf(k, values[1..], key);
    }
  }

  lemma {:induction false} TakenConcat(canon: string -> string, obj: map<string, Value>, a: seq<string>, b: seq<string>)
    requires ObjectOk(obj) && forall k :: k in a + b ==> k in obj
    ensures forall k :: (k in a ==> k in obj) && (k in b ==> k in obj)
    ensures Taken(canon, obj, a + b) == Taken(canon, obj, a) + Taken(canon, obj, b)
  {
    assert forall k :: k in a || k in b ==> k in a + b;
    if a == [] {
      assert a + b == b;
    } else {
      assert (a + b)[1..] == a[1..] + b;
      TakenConcat(canon, obj, a[1..], b);
    }
  }

  lemma OrdersOfConcat(a: seq<map<string, Value>>, b: seq<map<string, Value>>, oa: seq<seq<string>>,
                       ob: seq<seq<string>>)
    requires ObjectsOk(a) && OrdersOk(a, oa) && ObjectsOk(b) && OrdersOk(b, ob)
    ensures ObjectsOk(a + b) && OrdersOk(a + b, oa + ob)
  {
  }

  lemma {:induction false} TakenAllConcat(canon: string -> string, a: seq<map<string, Value>>,
                                          b: seq<map<string, Value>>,
                                          oa: seq<seq<string>>, ob: seq<seq<string>>)
    requires ObjectsOk(a) && OrdersOk(a, oa) && ObjectsOk(b) && OrdersOk(b, ob)
    ensures ObjectsOk(a + b) && OrdersOk(a + b, oa + ob)
    ensures TakenAll(canon, a + b, oa + ob) == TakenAll(canon, a, oa) + TakenAll(canon, b, ob)
  {
    hide ObjectOk;
    OrdersOfConcat(a, b, oa, ob);
    if a == [] {
      assert a + b == b && oa + ob == ob;
    } else {
      assert (a + b)[1..] == a[1..] + b && (oa + ob)[1..] == oa[1..] + ob;
      assert (a + b)[0] == a[0] && (oa + ob)[0] == oa[0];
      TakenAllConcat(canon, a[1..], b, oa[1..], ob);
      assert Enumerates(oa[0], a[0].Keys);
      var first := Taken(canon, a[0], oa[0]);
      assert first + (TakenAll(canon, a[1..], oa[1..]) + TakenAll(canon, b, ob)) ==
             (first + TakenAll(canon, a[1..], oa[1..])) + TakenAll(canon, b, ob);
    }
  }

  lemma {:induction false} EmittedConcat(h: Header, a: seq<string>, b: seq<string>)
    requires forall k :: k in a + b ==> k in h
    ensures forall k :: (k in a ==> k in h) && (k in b ==> k in h)
    ensures Emitted(h, a + b) == Emitted(h, a) + Emitted(h, b)
  {
    assert forall k :: k in a || k in b ==> k in a + b;
    if a == [] {
      assert a + b == b;
    } else {
      assert (a + b)[1..] == a[1..] + b;
      EmittedConcat(h, a[1..], b);
    }
  }

  /** The emitted list has, under each name, that name's values. */
  lemma {:induction false} EmittedValues(h: Header, order: seq<string>, key: string)
    requires forall i, j :: 0 <= i < j < |order| ==> order[i] != order[j]
    requires forall k :: k in order ==> k in h
    ensures ValuesFor(Emitted(h, order), key) == if key in order then h[key] else []
  {
    if order != [] {
      assert order[0] !in order[1..] && forall k :: k in order <==> k == order[0] || k in order[1..];
      EmittedValues(h, order[1..], key);
      ValuesForConcat(PairsOf(order[0], h[order[0]]), Emitted(h, order[1..]), key);
      ValuesForPairsOf(order[0], h[order[0]], key);
    }
  }

  lemma HoldsOneMore(h: Header, pairs: seq<Pair>, key: string, value: string)
    requires Holds(h, pairs)
    ensures Holds(h[key := Get(h, key) + [value]], pairs + [(key, value)])
  {
    var after := h[key := Get(h, key) + [value]];
    forall k ensures Get(after, k) == ValuesFor(pairs + [(key, value)], k) {
      ValuesForConcat(pairs, [(key, value)], k);
      assert Get(h, k) == ValuesFor(pairs, k);
    }
  }

  lemma PairsOfSnoc(key: string, values: seq<string>, value: string)
    ensures PairsOf(key, values + [value]) == PairsOf(key, values) + [(key, value)]
  {
  }

  lemma TakenSnoc(canon: string -> string, obj: map<string, Value>, order: seq<string>, key: string)
    requires ObjectOk(obj) && key in obj && forall k :: k in order ==> k in obj
    ensures forall k :: k in order + [key] ==> k in obj
    ensures Taken(canon, obj, order + [key]) ==
            Taken(canon, obj, order) + PairsOf(canon(key), StringsOf(obj[key]).value)
  {
    TakenConcat(canon, obj, order, [key]);
    assert Taken(canon, obj, [key]) == PairsOf(canon(key), StringsOf(obj[key]).value) + Taken(canon, obj, [key][1..]);
  }

  // ----- the code

  /** http.Header as Add changes it. */
  class HeaderMap {
    var entries: Header
    const canon: string -> string

    constructor (canon: string -> string)
      ensures entries == map[] && this.canon == canon
    {
      entries := map[];
      this.canon := canon;
    }

    method Add(key: string, value: string)
      modifies this
      ensures entries == old(entries)[canon(key) := Get(old(entries), canon(key)) + [value]]
    {
      entries := entries[canon(key) := Get(entries, canon(key)) + [value]];
    }

    /** Adds one value after another under one key. */
    method AddEach(key: string, values: seq<string>, ghost before: seq<Pair>)
      requires Holds(entries, before)
      modifies this
      ensures Holds(entries, before + PairsOf(canon(key), values))
    {
      assert before + PairsOf(canon(key), values[..0]) == before;
      for i := 0 to |values|
        invariant Holds(entries, before + PairsOf(canon(key), values[..i]))
      {
        ghost var done := before + PairsOf(canon(key), values[..i]);
        HoldsOneMore(entries, done, canon(key), values[i]);
        Add(key, values[i]);
        PairsOfSnoc(canon(key), values[..i], values[i]);
        assert values[..i + 1] == values[..i] + [values[i]];
        assert done + [(canon(key), values[i])] == before + PairsOf(canon(key), values[..i + 1]);
      }
      assert values[..|values|] == values;
    }

    /** Adds the items of one list under one key, up to the first that is not a string. */
    method AddStrings(key: string, items: seq<Value>, ghost before: seq<Pair>) returns (ok: bool)
      requires Holds(entries, before)
      modifies this
      ensures ok <==> StringsOf(Array(items)).Some?
      ensures ok ==> Holds(entries, before + PairsOf(canon(key), StringsOf(Array(items)).value))
    {
      ghost var texts: seq<string> := [];
      assert before + PairsOf(canon(key), texts) == before;
      for i := 0 to |items|
        invariant |texts| == i && forall j :: 0 <= j < i ==> items[j].Str? && items[j].text == texts[j]
        invariant Holds(entries, before + PairsOf(canon(key), texts))
      {
        if !items[i].Str? {
          return false;
        }
        ghost var next := before + PairsOf(canon(key), texts);
        AddEach(key, [items[i].text], next);
        assert next + PairsOf(canon(key), [items[i].text]) == before + PairsOf(canon(key), texts + [items[i].text]);
        texts := texts + [items[i].text];
      }
      assert texts == StringsOf(Array(items)).value;
      ok := true;
    }

    /** The switch on the type of one header value. */
    method AddValue(key: string, value: Value, ghost before: seq<Pair>) returns (ok: bool)
      requires Holds(entries, before)
      modifies this
      ensures ok <==> StringsOf(value).Some?
      ensures ok ==> Holds(entries, before + PairsOf(canon(key), StringsOf(value).value))
    {
      match value {
        case Str(text) =>
          AddEach(key, [text], before);
          ok := true;
        case Strings(texts) =>
          AddEach(key, texts, before);
          ok := true;
        case Array(items) =>
          ok := AddStrings(key, items, before);
        case _ =>
          ok := false;
      }
    }

    /** takeResponseHeaders: adds every string of one object, or fails on a value of the wrong type. */
    method TakeResponseHeaders(headers: map<string, Value>, ghost before: seq<Pair>)
      returns (ok: bool, ghost order: seq<string>)
      requires Holds(entries, before)
      modifies this
      ensures ok <==> ObjectOk(headers)
      ensures ok ==> Enumerates(order, headers.Keys) && Holds(entries, before + Taken(canon, headers, order))
    {
      order := [];
      ghost var taken: seq<Pair> := [];
      var rest := headers.Keys;
      assert before + taken == before;
      while rest != {}
        invariant rest <= headers.Keys && Enumerates(order, headers.Keys - rest)
        invariant forall k :: k in order ==> StringsOf(headers[k]).Some?
        invariant Holds(entries, before + taken)
        invariant ObjectOk(headers) ==> taken == Taken(canon, headers, order)
        decreases rest
      {
        var key :| key in rest;
        ok := AddValue(key, headers[key], before + taken);
        if !ok {
          return false, order;
        }
        ghost var added := PairsOf(canon(key), StringsOf(headers[key]).value);
        assert before + taken + added == before + (taken + added);
        if ObjectOk(headers) {
          TakenSnoc(canon, headers, order, key);
        }
        rest, taken, order := rest - {key}, taken + added, order + [key];
      }
      ok := true;
    }

    /** transformToHTTPHeaderFormat, into an empty header. */
    method Transform(input: Value) returns (ok: bool, ghost orders: seq<seq<string>>)
      requires entries == map[]
      modifies this
      ensures ok <==> HeadersOk(input)
      ensures ok ==> OrdersOk(ObjectsOf(input).value, orders)
      ensures ok ==> Holds(entries, TakenAll(canon, ObjectsOf(input).value, orders))
    {
      orders := [];
      match input {
        case Array(items) =>
          ghost var objs: seq<map<string, Value>> := [];
          for i := 0 to |items|
            invariant |objs| == i && forall j :: 0 <= j < i ==> items[j].Object? && items[j].fields == objs[j]
            invariant ObjectsOk(objs) && OrdersOk(objs, orders) && Holds(entries, TakenAll(canon, objs, orders))
          {
            if !items[i].Object? {
              return false, orders;
            }
            ghost var order;
            ok, order := TakeResponseHeaders(items[i].fields, TakenAll(canon, objs, orders));
            if !ok {
              assert ObjectsOf(input).Some? ==> ObjectsOf(input).value[i] == items[i].fields;
              return false, orders;
            }
            TakenAllConcat(canon, objs, [items[i].fields], orders, [order]);
            assert TakenAll(canon, [items[i].fields], [order]) == Taken(canon, items[i].fields, order);
            objs, orders := objs + [items[i].fields], orders + [order];
          }
          assert ObjectsOf(input).value == objs;
          ok := true;
        case Object(fields) =>
          ghost var order;
          ok, order := TakeResponseHeaders(fields, []);
          orders := [order];
          assert ObjectsOf(input).value[0] == fields;
          if ok {
            assert TakenAll(canon, [fields], [order]) == [] + Taken(canon, fields, order);
          }
        case _ =>
          ok := false;
      }
    }
  }

  /** transformHTTPHeaderToEnvoyHeaderValueOption. */
  method ToHeaderValueOptions(headers: Header) returns (out: seq<Pair>, ghost order: seq<string>)
    ensures Enumerates(order, headers.Keys) && out == Emitted(headers, order)
    ensures forall key :: ValuesFor(out, key) == Get(headers, key)
  {
    out, order := [], [];
    var rest := headers.Keys;
    while rest != {}
      invariant rest <= headers.Keys && Enumerates(order, headers.Keys - rest) && out == Emitted(headers, order)
      decreases rest
    {
      var key :| key in rest;
      rest := rest - {key};
      ghost var done := out;
      var values := headers[key];
      for i := 0 to |values|
        invariant out == done + PairsOf(key, values[..i])
      {
        out := out + [(key, values[i])];
      }
      assert values[..|values|] == values;
      EmittedConcat(headers, order, [key]);
      assert Emitted(headers, [key]) == PairsOf(key, values) + Emitted(headers, [key][1..]);
      order := order + [key];
    }
    forall key ensures ValuesFor(out, key) == Get(headers, key) {
      EmittedValues(headers, order, key);
    }
  }

  /** The header list for one field of the decision: nothing to send if the field is absent. */
  method HeaderValueOptions(canon: string -> string, field: Option<Value>) returns (out: Option<seq<Pair>>)
    ensures field.None? ==> out == Some([])
    ensures field.Some? ==> (out.Some? <==> HeadersOk(field.value))
    ensures field.Some? && out.Some? ==> IsFlattening(canon, field.value, out.value)
  {
    if field.None? {
      return Some([]);
    }
    var target := new HeaderMap(canon);
    var ok, orders := target.Transform(field.value);
    if !ok {
      return None;
    }
    var list, order := ToHeaderValueOptions(target.entries);
    assert IsOutput(canon, ObjectsOf(field.value).value, orders, target.entries, order, list);
    out := Some(list);
  }
}
