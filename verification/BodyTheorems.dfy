/**
 What body parsing delivers, told by the text of the content-type header and the bytes alone: which
 decoder the data comes from, and when there is none. The payload is the text body, or the raw bytes
 if that is empty.
 */
module BodyTheorems {
  import opened Outcomes
  import opened Text
  import opened Values
  import opened Request

  // ----- the media type that the content-type header mentions first

  predicate IsJson(headers: map<string, string>) {
    "content-type" in headers && Contains(headers["content-type"], "application/json")
  }

  predicate IsGrpc(headers: map<string, string>) {
    && "content-type" in headers && Contains(headers["content-type"], "application/grpc")
    && !IsJson(headers)
  }

  predicate IsForm(headers: map<string, string>) {
    && "content-type" in headers && Contains(headers["content-type"], "application/x-www-form-urlencoded")
    && !IsJson(headers) && !IsGrpc(headers)
  }

  predicate IsMultipart(headers: map<string, string>) {
    && "content-type" in headers && Contains(headers["content-type"], "multipart/form-data")
    && !IsJson(headers) && !IsGrpc(headers) && !IsForm(headers)
  }

  /** The declared length is absent, or an integer no larger than the payload's. */
  predicate LengthFits(headers: map<string, string>, payload: Bytes) {
    "content-length" in headers ==>
      && ParseInt(headers["content-length"]).Some?
      && ParseInt(headers["content-length"]).value <= |payload|
  }

  // ----- when no decoder is asked

  /** Without one of the four types, or without bytes to decode, there is no data and no error. */
  lemma NothingToDecode(d: Decoders, headers: map<string, string>, body: Bytes, rawBody: Bytes, path: seq<string>,
                        protoSet: bool)
    requires if IsJson(headers) || IsForm(headers) || IsMultipart(headers) then body == [] && rawBody == []
             else IsGrpc(headers) ==> rawBody == [] || !protoSet
    ensures BodyOf(d, headers, body, rawBody, path, protoSet) == Body(None, false, false)
  {
  }

  /** A declared length that is no 64-bit integer is an error, and one above the payload's is truncation. */
  lemma LengthComesFirst(d: Decoders, headers: map<string, string>, body: Bytes, rawBody: Bytes, path: seq<string>,
                         protoSet: bool)
    requires IsJson(headers) || IsForm(headers) || IsMultipart(headers)
    requires var payload := if body != [] then body else rawBody; payload != [] && !LengthFits(headers, payload)
    ensures BodyOf(d, headers, body, rawBody, path, protoSet) ==
            if ParseInt(headers["content-length"]).None? then Body(None, false, true) else Body(None, true, false)
  {
  }

  // ----- which decoder the data comes from

  /** JSON: an error exactly when the JSON decoder fails; otherwise its value, and no data for null. */
  lemma JsonDelivers(d: Decoders, headers: map<string, string>, body: Bytes, rawBody: Bytes, path: seq<string>,
                     protoSet: bool)
    requires IsJson(headers)
    requires var payload := if body != [] then body else rawBody; payload != [] && LengthFits(headers, payload)
    ensures var r := BodyOf(d, headers, body, rawBody, path, protoSet);
            var value := d.json(if body != [] then body else rawBody);
            && r.Body? && !r.truncated && (r.failed <==> value.None?)
            && (r.data.Some? <==> value.Some? && value.value != Null)
            && (r.data.Some? ==> r.data.value == JsonBody(value.value))
  {
  }

  /** Form: an error exactly when the form decoder fails; otherwise its fields. */
  lemma FormDelivers(d: Decoders, headers: map<string, string>, body: Bytes, rawBody: Bytes, path: seq<string>,
                     protoSet: bool)
    requires IsForm(headers)
    requires var payload := if body != [] then body else rawBody; payload != [] && LengthFits(headers, payload)
    ensures var r := BodyOf(d, headers, body, rawBody, path, protoSet);
            var fields := d.form(if body != [] then body else rawBody);
            && r.Body? && !r.truncated && (r.failed <==> fields.None?)
            && (fields.Some? ==> r.data == Some(FormBody(fields.value)))
  {
  }

  /** A part can be used: it has no name, or its content reads and, under a JSON type, decodes. */
  predicate PartUsable(d: Decoders, p: Part) {
    p.name != "" ==>
      && p.content.Some?
      && (Contains(p.contentType, "application/json") ==> d.json(p.content.value).Some?)
  }

  /** The value of a usable part: its decoded JSON, or its bytes as they are. */
  predicate IsValueOf(d: Decoders, p: Part, value: FieldValue) {
    p.content.Some? &&
    if Contains(p.contentType, "application/json") then value.Json? && d.json(p.content.value) == Some(value.value)
    else value == Raw(p.content.value)
  }

  /** The list has, in order, the value of each part of that name; `at` tells which part each value is from. */
  ghost predicate ListsParts(d: Decoders, parts: seq<Part>, name: string, values: seq<FieldValue>, at: seq<nat>) {
    && |at| == |values|
    && (forall i, j :: 0 <= i < j < |at| ==> at[i] < at[j])
    && (forall i :: 0 <= i < |at| ==>
          at[i] < |parts| && parts[at[i]].name == name && IsValueOf(d, parts[at[i]], values[i]))
    && (forall k: nat :: k < |parts| && parts[k].name == name ==> k in at)
  }

  /** The names are those of the named parts, and each has the values of its parts in order. */
  ghost predicate CollectsParts(d: Decoders, parts: seq<Part>, values: map<string, seq<FieldValue>>) {
    && (forall name :: name in values <==> name != "" && exists i :: 0 <= i < |parts| && parts[i].name == name)
    && (forall name :: name in values ==> exists at :: ListsParts(d, parts, name, values[name], at))
  }

  lemma ValueOfPart(d: Decoders, p: Part)
    requires p.name != "" && PartOk(d, p)
    ensures IsValueOf(d, p, PartValue(d, p).value)
  {
    hide Contains;
  }

  lemma ListsOneMore(d: Decoders, parts: seq<Part>, p: Part, name: string, values: seq<FieldValue>, at: seq<nat>)
    requires ListsParts(d, parts, name, values, at)
    ensures p.name != name ==> ListsParts(d, parts + [p], name, values, at)
    ensures p.name == name ==> forall value :: IsValueOf(d, p, value) ==>
              ListsParts(d, parts + [p], name, values + [value], at + [|parts|])
  {
    hide IsValueOf;
    var all := parts + [p];
    forall k: nat | k < |all| && all[k].name == name ensures k in at + [|parts|] {
      assert k < |parts| ==> all[k] == parts[k] && k in at;
    }
  }

  lemma {:induction false} PartValuesAreListed(d: Decoders, parts: seq<Part>, name: string) returns (at: seq<nat>)
    requires name != "" && forall i :: 0 <= i < |parts| ==> PartOk(d, parts[i])
    ensures ListsParts(d, parts, name, PartValues(d, parts, name), at)
  {
    if parts == [] {
      at := [];
    } else {
      hide IsValueOf, ListsParts, PartOk;
      var n := |parts| - 1;
      at := PartValuesAreListed(d, parts[..n], name);
      ListsOneMore(d, parts[..n], parts[n], name, PartValues(d, parts[..n], name), at);
      assert parts == parts[..n] + [parts[n]] && PartOk(d, parts[n]);
      if parts[n].name == name {
        ValueOfPart(d, parts[n]);
        at := at + [n];
      }
    }
  }

  lemma GroupedCollects(d: Decoders, parts: seq<Part>)
    requires forall i :: 0 <= i < |parts| ==> PartOk(d, parts[i])
    ensures CollectsParts(d, parts, Grouped(d, parts))
  {
    GroupsIsGrouped(d, parts, Grouped(d, parts));
    forall name | name in Grouped(d, parts)
      ensures exists at :: ListsParts(d, parts, name, Grouped(d, parts)[name], at)
    {
      var at := PartValuesAreListed(d, parts, name);
    }
  }

  lemma UsableIsOk(d: Decoders, p: Part)
    ensures PartUsable(d, p) <==> PartOk(d, p)
  {
  }

  lemma MultipartIsDecoded(d: Decoders, headers: map<string, string>, body: Bytes, rawBody: Bytes, path: seq<string>,
                           protoSet: bool)
    requires IsMultipart(headers)
    requires var payload := if body != [] then body else rawBody; payload != [] && LengthFits(headers, payload)
    ensures BodyOf(d, headers, body, rawBody, path, protoSet) ==
            DecodePayload(d, MultipartKind, headers["content-type"], if body != [] then body else rawBody)
  {
  }

  /**
   Multipart: an error if the media type does not parse, nothing without a boundary; otherwise an error
   exactly when the stream breaks off or a part cannot be used, and the values of the parts by name.
   */
  lemma MultipartDelivers(d: Decoders, headers: map<string, string>, body: Bytes, rawBody: Bytes, path: seq<string>,
                          protoSet: bool)
    requires IsMultipart(headers)
    requires var payload := if body != [] then body else rawBody; payload != [] && LengthFits(headers, payload)
    ensures var r := BodyOf(d, headers, body, rawBody, path, protoSet);
            match d.mediaTypeParams(headers["content-type"])
            case None => r == Body(None, false, true)
            case Some(params) =>
              if "boundary" !in params then r == Body(None, false, false)
              else
                var stream := d.multipart(if body != [] then body else rawBody, params["boundary"]);
                && r.Body? && !r.truncated
                && (r.failed <==>
                    !stream.wellEnded || exists i :: 0 <= i < |stream.parts| && !PartUsable(d, stream.parts[i]))
                && (!r.failed ==> r.data.Some? && r.data.value.MultipartBody? &&
                                  CollectsParts(d, stream.parts, r.data.value.values))
  {
    MultipartIsDecoded(d, headers, body, rawBody, path, protoSet);
    hide CollectsParts, LengthFits, BodyOf, IsMultipart, PartUsable, PartOk;
    forall p ensures PartUsable(d, p) <==> PartOk(d, p) {
      UsableIsOk(d, p);
    }
    match d.mediaTypeParams(headers["content-type"])
    case None =>
    case Some(params) =>
      if "boundary" in params {
        var stream := d.multipart(if body != [] then body else rawBody, params["boundary"]);
        if stream.wellEnded && forall i :: 0 <= i < |stream.parts| ==> PartOk(d, stream.parts[i]) {
          GroupedCollects(d, stream.parts);
        }
      }
  }

  /** gRPC: the five-byte head, then the 32-bit slice bound, then the method, then the decoder of messages. */
  lemma GrpcDelivers(d: Decoders, headers: map<string, string>, body: Bytes, rawBody: Bytes, path: seq<string>)
    requires IsGrpc(headers) && rawBody != []
    ensures var r := BodyOf(d, headers, body, rawBody, path, true);
            if |path| != 2 || |rawBody| < 5 then r == Body(None, false, true)
            else if rawBody[0] != 0 then r == Body(None, false, false)
            else if BigEndian(rawBody[1..5]) > |rawBody| - 5 then r == Body(None, true, false)
            else if BigEndian(rawBody[1..5]) >= TWO_TO_32 - 5 then r == Panic
            else if !d.knowsMethod(path[0], path[1]) then r == Body(None, false, false)
            else
              match d.message(path[0], path[1], rawBody[5..5 + BigEndian(rawBody[1..5])])
              case None => r == Body(None, false, true)
              case Some(value) => r == Body(if value == Null then None else Some(JsonBody(value)), false, false)
  {
  }

  /** One sequence of bytes comes before another of the same length at the first byte that differs. */
  predicate Precedes(a: Bytes, b: Bytes)
    requires |a| == |b|
  {
    a != [] && (a[0] < b[0] || (a[0] == b[0] && Precedes(a[1..], b[1..])))
  }

  /** Lengths are ordered like their bytes: the most significant one comes first. */
  lemma BigEndianIsInByteOrder(a: Bytes, b: Bytes)
    requires |a| == 4 && |b| == 4
    ensures BigEndian(a) < BigEndian(b) <==> Precedes(a, b)
  {
    assert Precedes(a, b) <==>
           || a[0] < b[0]
           || (a[0] == b[0] && a[1] < b[1])
           || (a[0] == b[0] && a[1] == b[1] && a[2] < b[2])
           || (a[0] == b[0] && a[1] == b[1] && a[2] == b[2] && a[3] < b[3]) by {
      PrecedesTail(a, b, 3);
      PrecedesTail(a, b, 2);
      PrecedesTail(a, b, 1);
      PrecedesTail(a, b, 0);
    }
  }

  lemma PrecedesTail(a: Bytes, b: Bytes, k: nat)
    requires |a| == |b| && k < |a|
    ensures Precedes(a[k..], b[k..]) <==>
            a[k] < b[k] || (a[k] == b[k] && Precedes(a[k + 1..], b[k + 1..]))
    ensures k + 1 == |a| ==> !Precedes(a[k + 1..], b[k + 1..])
    ensures k == 0 ==> a[k..] == a && b[k..] == b
  {
    assert a[k..][1..] == a[k + 1..] && b[k..][1..] == b[k + 1..];
  }

  // ----- no other decoder matters

  /** The decoders agree on what the type of the body can ask of them. */
  ghost predicate AgreeFor(d1: Decoders, d2: Decoders, headers: map<string, string>) {
    && (IsJson(headers) || IsMultipart(headers) ==> forall b :: d1.json(b) == d2.json(b))
    && (IsForm(headers) ==> forall b :: d1.form(b) == d2.form(b))
    && (IsMultipart(headers) ==> forall t :: d1.mediaTypeParams(t) == d2.mediaTypeParams(t))
    && (IsMultipart(headers) ==> forall b, t :: d1.multipart(b, t) == d2.multipart(b, t))
    && (IsGrpc(headers) ==> forall s, m :: d1.knowsMethod(s, m) == d2.knowsMethod(s, m))
    && (IsGrpc(headers) ==> forall s, m, b :: d1.message(s, m, b) == d2.message(s, m, b))
  }

  lemma SamePartValue(d1: Decoders, d2: Decoders, p: Part)
    requires forall b :: d1.json(b) == d2.json(b)
    ensures PartValue(d1, p) == PartValue(d2, p)
  {
  }

  lemma {:induction false} GroupedNeedsOnlyJson(d1: Decoders, d2: Decoders, parts: seq<Part>)
    requires forall b :: d1.json(b) == d2.json(b)
    requires forall i :: 0 <= i < |parts| ==> PartOk(d1, parts[i])
    ensures forall i :: 0 <= i < |parts| ==> PartOk(d2, parts[i])
    ensures Grouped(d1, parts) == Grouped(d2, parts)
  {
    if parts != [] {
      var n := |parts| - 1;
      GroupedNeedsOnlyJson(d1, d2, parts[..n]);
      assert PartOk(d1, parts[n]);
      SamePartValue(d1, d2, parts[n]);
    }
  }

  /** The outcome depends on no decoder but those of the body's own type. */
  lemma OnlyItsDecodersMatter(d1: Decoders, d2: Decoders, headers: map<string, string>, body: Bytes, rawBody: Bytes,
                              path: seq<string>, protoSet: bool)
    requires AgreeFor(d1, d2, headers)
    ensures BodyOf(d1, headers, body, rawBody, path, protoSet) == BodyOf(d2, headers, body, rawBody, path, protoSet)
  {
    hide Contains, PartValue, ReadFrame, DeclaredExceeds;
    if IsMultipart(headers) && d1.mediaTypeParams(headers["content-type"]).Some? {
      var params := d1.mediaTypeParams(headers["content-type"]).value;
      if "boundary" in params {
        var parts := d1.multipart(if body != [] then body else rawBody, params["boundary"]).parts;
        forall i | 0 <= i < |parts| ensures PartOk(d1, parts[i]) <==> PartOk(d2, parts[i]) {
          assert PartValue(d1, parts[i]) == PartValue(d2, parts[i]) by {
            SamePartValue(d1, d2, parts[i]);
          }
        }
        if forall i :: 0 <= i < |parts| ==> PartOk(d1, parts[i]) {
          GroupedNeedsOnlyJson(d1, d2, parts);
        }
      }
    }
  }
}
