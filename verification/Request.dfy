/**
 Decoding of the request body (envoyauth/request.go). The decoders of other libraries are arbitrary
 functions; strings that carry a body are byte sequences, and header names and values are text.
 */
module Request {
  import opened Outcomes
  import opened Text
  import opened Values

  newtype byte = x: int | 0 <= x < 256

  type Bytes = seq<byte>

  const TWO_TO_32: int := 0x1_0000_0000

  /** One part of a multipart body; `content` is None when reading it fails. */
  datatype Part = Part(name: string, contentType: string, content: Option<Bytes>)

  /** What the multipart reader yields: parts, and then the end of the input or an error. */
  datatype PartStream = PartStream(parts: seq<Part>, wellEnded: bool)

  /** The libraries: each decoder gives a value, or None for its error. */
  datatype Decoders = Decoders(
    json: Bytes -> Option<Value>,
    form: Bytes -> Option<map<string, seq<string>>>,
    mediaTypeParams: string -> Option<map<string, string>>,
    multipart: (Bytes, string) -> PartStream,
    knowsMethod: (string, string) -> bool,
    message: (string, string, Bytes) -> Option<Value>
  )

  datatype FieldValue = Raw(bytes: Bytes) | Json(value: Value)

  datatype Parsed = JsonBody(value: Value) | FormBody(fields: map<string, seq<string>>)
                  | MultipartBody(values: map<string, seq<FieldValue>>)

  /** The three results of getParsedBody, and the run-time panic of an out-of-range slice. */
  datatype Body = Body(data: Option<Parsed>, truncated: bool, failed: bool) | Panic

  const NOTHING := Body(None, false, false)
  const TRUNCATED := Body(None, true, false)
  const FAILED := Body(None, false, true)

  // ----- gRPC framing

  function BigEndian(b: Bytes): nat
    requires |b| == 4
  {
    b[0] as int * 0x100_0000 + b[1] as int * 0x1_0000 + b[2] as int * 0x100 + b[3] as int
  }

  function ToBigEndian(n: nat): Bytes
    requires n < TWO_TO_32
  {
    [(n / 0x100_0000) as byte, (n / 0x1_0000 % 0x100) as byte, (n / 0x100 % 0x100) as byte, (n % 0x100) as byte]
  }

  /** A Length-Prefixed-Message with the compressed flag clear. */
  function Frame(message: Bytes): Bytes
    requires |message| < TWO_TO_32
  {
    [0] + ToBigEndian(|message|) + message
  }

  datatype Framing = Short | Compressed | Partial | OutOfRange | Message(message: Bytes)

  /** What the framing of a gRPC payload comes to, with the slice bound computed in 32 bits. */
  function ReadFrame(payload: Bytes): Framing {
    if |payload| < 5 then Short
    else if payload[0] != 0 then Compressed
    else
      var size := BigEndian(payload[1..5]);
      if size > |payload| - 5 then Partial
      else if size + 5 >= TWO_TO_32 then OutOfRange
      else Message(payload[5..5 + size])
  }

  datatype Grpc = GrpcError | GrpcUnknown | GrpcTruncated | GrpcPanic | GrpcData(value: Value)

  function GrpcOutcome(d: Decoders, payload: Bytes, service: string, call: string): Grpc {
    match ReadFrame(payload)
    case Short => GrpcError
    case Compressed => GrpcUnknown
    case Partial => GrpcTruncated
    case OutOfRange => GrpcPanic
    case Message(m) =>
      if !d.knowsMethod(service, call) then GrpcUnknown
      else
        match d.message(service, call, m)
        case Some(v) => GrpcData(v)
        case None => GrpcError
  }

  /** getGRPCBody. */
  method GetGrpcBody(d: Decoders, input: Bytes, path: seq<string>) returns (r: Grpc)
    requires |path| == 2
    ensures r == GrpcOutcome(d, input, path[0], path[1])
  {
    var payload := input;
    if |payload| < 5 {
      return GrpcError;
    }
    if payload[0] != 0 {
      return GrpcUnknown;
    }
    var size := BigEndian(payload[1..5]);
    if size > |payload| - 5 {
      return GrpcTruncated;
    }
    var high := (size + 5) % TWO_TO_32;
    if high < 5 || high > |payload| {
      return GrpcPanic;
    }
    payload := payload[5..high];
    if !d.knowsMethod(path[0], path[1]) {
      return GrpcUnknown;
    }
    var message := d.message(path[0], path[1], payload);
    if message.None? {
      return GrpcError;
    }
    r := GrpcData(message.value);
  }

  lemma BigEndianRoundTrip(n: nat)
    requires n < TWO_TO_32
    ensures BigEndian(ToBigEndian(n)) == n
  {
    var n1 := n / 0x100;
    var n2 := n1 / 0x100;
    assert n / 0x1_0000 == n2 && n / 0x100_0000 == n2 / 0x100;
    assert n == n1 * 0x100 + n % 0x100 && n1 == n2 * 0x100 + n1 % 0x100 && n2 == n2 / 0x100 * 0x100 + n2 % 0x100;
  }

  /** A frame hands over its message, whatever follows it. */
  lemma FrameRoundTrip(message: Bytes, rest: Bytes)
    requires |message| + 5 < TWO_TO_32
    ensures ReadFrame(Frame(message) + rest) == Message(message)
  {
    var payload := Frame(message) + rest;
    assert payload[1..5] == ToBigEndian(|message|);
    BigEndianRoundTrip(|message|);
    assert payload[5..5 + |message|] == message;
  }

  /** A message is handed over only when the payload starts with its frame. */
  lemma MessageMeansFrame(payload: Bytes, message: Bytes)
    requires ReadFrame(payload) == Message(message)
    ensures |message| + 5 < TWO_TO_32 && Frame(message) <= payload
  {
    var size := BigEndian(payload[1..5]);
    ToBigEndianOfBigEndian(payload[1..5]);
    assert payload == payload[..1] + payload[1..5] + payload[5..];
  }

  lemma ToBigEndianOfBigEndian(b: Bytes)
    requires |b| == 4
    ensures BigEndian(b) < TWO_TO_32 && ToBigEndian(BigEndian(b)) == b
  {
    var n := BigEndian(b);
    var low := b[1] as int * 0x1_0000 + b[2] as int * 0x100 + b[3] as int;
    assert n / 0x100_0000 == b[0] as int;
    assert n / 0x1_0000 == b[0] as int * 0x100 + b[1] as int;
    assert n / 0x100 == (b[0] as int * 0x100 + b[1] as int) * 0x100 + b[2] as int;
  }

  /** A frame cut short anywhere after its five-byte head is truncated, and before that an error. */
  lemma CutFrame(message: Bytes, n: nat)
    requires |message| + 5 < TWO_TO_32 && n < |Frame(message)|
    ensures ReadFrame(Frame(message)[..n]) == if n < 5 then Short else Partial
  {
    var payload := Frame(message)[..n];
    if n >= 5 {
      assert payload[1..5] == Frame(message)[1..5];
      assert payload[1..5] == ToBigEndian(|message|);
      BigEndianRoundTrip(|message|);
    }
  }

  /** The 32-bit slice bound leaves the buffer only for a complete message within five bytes of 2^32. */
  lemma SliceBoundExactly(payload: Bytes)
    ensures ReadFrame(payload) == OutOfRange <==>
            |payload| >= 5 && payload[0] == 0 &&
            TWO_TO_32 - 5 <= BigEndian(payload[1..5]) <= |payload| - 5
    ensures |payload| < TWO_TO_32 ==> ReadFrame(payload) != OutOfRange
  {
  }

  // ----- multipart

  /** The value a named part contributes, or None if reading or decoding it fails. */
  function PartValue(d: Decoders, p: Part): Option<FieldValue> {
    match p.content
    case None => None
    case Some(bytes) =>
      if Contains(p.contentType, "application/json") then
        match d.json(bytes)
        case Some(v) => Some(Json(v))
        case None => None
      else Some(Raw(bytes))
  }

  predicate PartOk(d: Decoders, p: Part) {
    p.name == "" || PartValue(d, p).Some?
  }

  /** The values of the parts with this name, in order. */
  function PartValues(d: Decoders, parts: seq<Part>, name: string): seq<FieldValue>
    requires forall i :: 0 <= i < |parts| ==> PartOk(d, parts[i])
  {
    if parts == [] || name == "" then []
    else
      var p := parts[|parts| - 1];
      assert PartOk(d, p);
      PartValues(d, parts[..|parts| - 1], name) + if p.name == name then [PartValue(d, p).value] else []
  }

  /** The grouping holds, for each name that some part has, that name's values, and nothing else. */
  ghost predicate Groups(d: Decoders, parts: seq<Part>, values: map<string, seq<FieldValue>>)
    requires forall i :: 0 <= i < |parts| ==> PartOk(d, parts[i])
  {
    && (forall name :: name in values <==> name != "" && exists i :: 0 <= i < |parts| && parts[i].name == name)
    && (forall name :: name in values ==> values[name] == PartValues(d, parts, name))
  }

  lemma {:induction false} NoValuesForAbsentName(d: Decoders, parts: seq<Part>, name: string)
    requires forall i :: 0 <= i < |parts| ==> PartOk(d, parts[i]) && parts[i].name != name
    ensures PartValues(d, parts, name) == []
  {
    if parts != [] {
      NoValuesForAbsentName(d, parts[..|parts| - 1], name);
    }
  }

  lemma PartValuesSnoc(d: Decoders, parts: seq<Part>, p: Part, name: string)
    requires forall i :: 0 <= i < |parts| ==> PartOk(d, parts[i])
    requires PartOk(d, p) && name != ""
    ensures forall i :: 0 <= i < |parts + [p]| ==> PartOk(d, (parts + [p])[i])
    ensures PartValues(d, parts + [p], name) ==
            PartValues(d, parts, name) + if p.name == name then [PartValue(d, p).value] else []
  {
    assert (parts + [p])[..|parts|] == parts;
  }

  /** What one more part does to the grouping. */
  function WithPart(d: Decoders, values: map<string, seq<FieldValue>>, p: Part): map<string, seq<FieldValue>>
    requires PartOk(d, p)
  {
    if p.name == "" then values
    else values[p.name := (if p.name in values then values[p.name] else []) + [PartValue(d, p).value]]
  }

  lemma GroupsSnoc(d: Decoders, parts: seq<Part>, p: Part, values: map<string, seq<FieldValue>>)
    requires forall i :: 0 <= i < |parts| ==> PartOk(d, parts[i])
    requires PartOk(d, p) && Groups(d, parts, values)
    ensures forall i :: 0 <= i < |parts + [p]| ==> PartOk(d, (parts + [p])[i])
    ensures Groups(d, parts + [p], WithPart(d, values, p))
  {
    var after := WithPart(d, values, p);
    forall name
      ensures name in after <==>
              name != "" && exists i :: 0 <= i < |parts + [p]| && (parts + [p])[i].name == name
    {
      if name in values {
        var i :| 0 <= i < |parts| && parts[i].name == name;
        assert (parts + [p])[i].name == name;
      }
      assert (parts + [p])[|parts|] == p;
    }
    forall name | name in after ensures after[name] == PartValues(d, parts + [p], name) {
      PartValuesSnoc(d, parts, p, name);
      if name !in values {
        NoValuesForAbsentName(d, parts, name);
      }
    }
  }

  /** The loop over the parts: None for an error. */
  method GroupParts(d: Decoders, stream: PartStream) returns (r: Option<map<string, seq<FieldValue>>>)
    ensures r.Some? <==> stream.wellEnded && forall i :: 0 <= i < |stream.parts| ==> PartOk(d, stream.parts[i])
    ensures r.Some? ==> Groups(d, stream.parts, r.value)
  {
    var values: map<string, seq<FieldValue>> := map[];
    var i := 0;
    while i < |stream.parts|
      invariant 0 <= i <= |stream.parts|
      invariant forall j :: 0 <= j < i ==> PartOk(d, stream.parts[j])
      invariant Groups(d, stream.parts[..i], values)
    {
      var p := stream.parts[i];
      ghost var done, was := stream.parts[..i], values;
      i := i + 1;
      assert stream.parts[..i] == done + [p];
      if p.name == "" {
        GroupsSnoc(d, done, p, was);
        continue;
      }
      if p.content.None? {
        return None;
      }
      var value: FieldValue;
      if Contains(p.contentType, "application/json") {
        var json := d.json(p.content.value);
        if json.None? {
          return None;
        }
        value := Json(json.value);
      } else {
        value := Raw(p.content.value);
      }
      values := values[p.name := (if p.name in values then values[p.name] else []) + [value]];
      GroupsSnoc(d, done, p, was);
    }
    assert stream.parts[..i] == stream.parts;
    if !stream.wellEnded {
      return None;
    }
    r := Some(values);
  }

  /** The grouping of a sequence of parts, part by part. */
  function Grouped(d: Decoders, parts: seq<Part>): map<string, seq<FieldValue>>
    requires forall i :: 0 <= i < |parts| ==> PartOk(d, parts[i])
  {
    if parts == [] then map[]
    else
      assert PartOk(d, parts[|parts| - 1]);
      WithPart(d, Grouped(d, parts[..|parts| - 1]), parts[|parts| - 1])
  }

  /** There is one grouping: the conditions of Groups fix the map. */
  lemma {:induction false} GroupsIsGrouped(d: Decoders, parts: seq<Part>, values: map<string, seq<FieldValue>>)
    requires forall i :: 0 <= i < |parts| ==> PartOk(d, parts[i])
    ensures Groups(d, parts, values) <==> values == Grouped(d, parts)
  {
    if parts != [] {
      var n := |parts| - 1;
      assert parts == parts[..n] + [parts[n]];
      GroupsIsGrouped(d, parts[..n], Grouped(d, parts[..n]));
      GroupsSnoc(d, parts[..n], parts[n], Grouped(d, parts[..n]));
    }
    assert Groups(d, parts, Grouped(d, parts));
    if Groups(d, parts, values) {
      assert values.Keys == Grouped(d, parts).Keys;
      assert forall name :: name in values ==> values[name] == Grouped(d, parts)[name];
    }
  }

  function NamedParts(parts: seq<Part>): nat {
    if parts == [] then 0
    else NamedParts(parts[..|parts| - 1]) + if parts[|parts| - 1].name == "" then 0 else 1
  }

  /** The number of values in all lists of the map. */
  ghost function TotalValues(values: map<string, seq<FieldValue>>): nat
    decreases values.Keys
  {
    if values == map[] then 0
    else
      var k :| k in values;
      assert k in values.Keys && k !in (values - {k}).Keys;
      |values[k]| + TotalValues(values - {k})
  }

  lemma {:induction false} TotalWithout(values: map<string, seq<FieldValue>>, name: string)
    requires name in values
    ensures TotalValues(values) == |values[name]| + TotalValues(values - {name})
    decreases values.Keys
  {
    var k :| k in values && TotalValues(values) == |values[k]| + TotalValues(values - {k});
    if k != name {
      assert k in values.Keys && k !in (values - {k}).Keys;
      TotalWithout(values - {k}, name);
      TotalWithout(values - {name}, k);
      assert values - {k} - {name} == values - {name} - {k};
    }
  }

  /** Nothing is lost: the lists together hold as many values as there are named parts. */
  lemma {:induction false} GroupingIsLossless(d: Decoders, parts: seq<Part>)
    requires forall i :: 0 <= i < |parts| ==> PartOk(d, parts[i])
    ensures TotalValues(Grouped(d, parts)) == NamedParts(parts)
  {
    if parts != [] {
      var n := |parts| - 1;
      var p, before := parts[n], Grouped(d, parts[..n]);
      GroupingIsLossless(d, parts[..n]);
      assert PartOk(d, p);
      if p.name != "" {
        var after := WithPart(d, before, p);
        TotalWithout(after, p.name);
        assert after - {p.name} == before - {p.name};
        if p.name in before {
          TotalWithout(before, p.name);
        } else {
          assert before - {p.name} == before;
        }
      }
    }
  }

  // ----- the whole body

  datatype Kind = JsonKind | GrpcKind | FormKind | MultipartKind | OtherKind

  /** The first of the known media types that the content-type header mentions. */
  function KindOf(headers: map<string, string>): Kind {
    if "content-type" !in headers then OtherKind
    else
      var t := headers["content-type"];
      if Contains(t, "application/json") then JsonKind
      else if Contains(t, "application/grpc") then GrpcKind
      else if Contains(t, "application/x-www-form-urlencoded") then FormKind
      else if Contains(t, "multipart/form-data") then MultipartKind
      else OtherKind
  }

  /** The body to decode: the text body if there is one, otherwise the raw bytes. */
  function EffectivePayload(body: Bytes, rawBody: Bytes): Bytes {
    if body != [] then body else rawBody
  }

  /** Whether the declared length exceeds the given one; None for a length that is not a 64-bit integer. */
  function DeclaredExceeds(headers: map<string, string>, length: nat): Option<bool> {
    if "content-length" !in headers then Some(false)
    else
      match ParseInt(headers["content-length"])
      case None => None
      case Some(declared) => Some(declared > length)
  }

  /** A decoded value as data: JSON null leaves the data nil. */
  function DataOf(v: Value): Body {
    Body(if v.Null? then None else Some(JsonBody(v)), false, false)
  }

  function DecodePayload(d: Decoders, kind: Kind, contentType: string, payload: Bytes): Body {
    match kind
    case JsonKind => if d.json(payload).Some? then DataOf(d.json(payload).value) else FAILED
    case FormKind =>
      if d.form(payload).Some? then Body(Some(FormBody(d.form(payload).value)), false, false) else FAILED
    case MultipartKind =>
      (match d.mediaTypeParams(contentType)
       case None => FAILED
       case Some(params) =>
         if "boundary" !in params then NOTHING
         else
           var stream := d.multipart(payload, params["boundary"]);
           if stream.wellEnded && forall i | 0 <= i < |stream.parts| :: PartOk(d, stream.parts[i])
           then Body(Some(MultipartBody(Grouped(d, stream.parts))), false, false)
           else FAILED)
    case _ => NOTHING
  }

  function GrpcBody(d: Decoders, rawBody: Bytes, path: seq<string>, protoSet: bool): Body {
    if !protoSet || rawBody == [] then NOTHING
    else if |path| != 2 then FAILED
    else
      match GrpcOutcome(d, rawBody, path[0], path[1])
      case GrpcError => FAILED
      case GrpcUnknown => NOTHING
      case GrpcTruncated => TRUNCATED
      case GrpcPanic => Panic
      case GrpcData(v) => DataOf(v)
  }

  /** What body parsing comes to. */
  function BodyOf(d: Decoders, headers: map<string, string>, body: Bytes, rawBody: Bytes,
                  path: seq<string>, protoSet: bool): Body
  {
    match KindOf(headers)
    case OtherKind => NOTHING
    case GrpcKind => GrpcBody(d, rawBody, path, protoSet)
    case kind =>
      var payload := EffectivePayload(body, rawBody);
      if payload == [] then NOTHING
      else
        match DeclaredExceeds(headers, |payload|)
        case None => FAILED
        case Some(true) => TRUNCATED
        case Some(false) => DecodePayload(d, kind, headers["content-type"], payload)
  }

  /** checkIfHTTPBodyTruncated; None for its error. */
  method CheckIfTruncated(contentLength: string, bodyLength: nat) returns (r: Option<bool>)
    ensures r == DeclaredExceeds(map["content-length" := contentLength], bodyLength)
  {
    var cl := ParseInt(contentLength);
    if cl.None? {
      return None;
    }
    if cl.value != -1 && cl.value > bodyLength {
      return Some(true);
    }
    r := Some(false);
  }

  /** getParsedBody. */
  method GetParsedBody(d: Decoders, headers: map<string, string>, body: Bytes, rawBody: Bytes,
                       path: seq<string>, protoSet: bool) returns (r: Body)
    ensures r == BodyOf(d, headers, body, rawBody, path, protoSet)
  {
    hide Contains, ParseInt, GrpcOutcome, PartOk, Grouped, Groups;
    var data: Option<Parsed> := None;
    if "content-type" in headers {
      var val := headers["content-type"];
      if Contains(val, "application/json") {
        var payload := body;
        if payload == [] {
          if |rawBody| == 0 {
            return NOTHING;
          }
          payload := rawBody;
        }
        if "content-length" in headers {
          var truncated := CheckIfTruncated(headers["content-length"], |payload|);
          if truncated.None? {
            return FAILED;
          }
          if truncated.value {
            return TRUNCATED;
          }
        }
        var v := d.json(payload);
        if v.None? {
          return FAILED;
        }
        return DataOf(v.value);
      } else if Contains(val, "application/grpc") {
        if !protoSet {
          return NOTHING;
        }
        if |rawBody| == 0 {
          return NOTHING;
        }
        if |path| != 2 {
          return FAILED;
        }
        var outcome := GetGrpcBody(d, rawBody, path);
        match outcome {
          case GrpcError => return FAILED;
          case GrpcTruncated => return TRUNCATED;
          case GrpcUnknown => return NOTHING;
          case GrpcPanic => return Panic;
          case GrpcData(v) => return DataOf(v);
        }
      } else if Contains(val, "application/x-www-form-urlencoded") {
        var payload;
        if body != [] {
          payload := body;
        } else if |rawBody| > 0 {
          payload := rawBody;
        } else {
          return NOTHING;
        }
        if "content-length" in headers {
          var truncated := CheckIfTruncated(headers["content-length"], |payload|);
          if truncated.None? {
            return FAILED;
          }
          if truncated.value {
            return TRUNCATED;
          }
        }
        var parsed := d.form(payload);
        if parsed.None? {
          return FAILED;
        }
        data := Some(FormBody(parsed.value));
      } else if Contains(val, "multipart/form-data") {
        var payload;
        if body != [] {
          payload := body;
        } else if |rawBody| > 0 {
          payload := rawBody;
        } else {
          return NOTHING;
        }
        if "content-length" in headers {
          var truncated := CheckIfTruncated(headers["content-length"], |payload|);
          if truncated.None? {
            return FAILED;
          }
          if truncated.value {
            return TRUNCATED;
          }
        }
        var params := d.mediaTypeParams(val);
        if params.None? {
          return FAILED;
        }
        if "boundary" !in params.value {
          return NOTHING;
        }
        var stream := d.multipart(payload, params.value["boundary"]);
        var values := GroupParts(d, stream);
        if values.None? {
          return FAILED;
        }
        GroupsIsGrouped(d, stream.parts, values.value);
        data := Some(MultipartBody(values.value));
      }
    }
    r := Body(data, false, false);
  }

  // ----- what holds of every request

  /** Data never comes together with truncation or an error, nor truncation with an error. */
  lemma OutcomesExclude(d: Decoders, headers: map<string, string>, body: Bytes, rawBody: Bytes,
                        path: seq<string>, protoSet: bool)
    ensures var r := BodyOf(d, headers, body, rawBody, path, protoSet);
            r.Body? ==> !(r.data.Some? && r.truncated) && !(r.data.Some? && r.failed) && !(r.truncated && r.failed)
    ensures BodyOf(d, headers, body, rawBody, path, protoSet).Panic? ==> |rawBody| >= TWO_TO_32
  {
    SliceBoundExactly(rawBody);
  }

  /** JSON, form and multipart look only at the effective payload; gRPC looks only at the raw bytes. */
  lemma OnlyThePayloadMatters(d: Decoders, headers: map<string, string>, body1: Bytes, raw1: Bytes,
                              body2: Bytes, raw2: Bytes, path: seq<string>, protoSet: bool)
    requires if KindOf(headers).GrpcKind? then raw1 == raw2
             else EffectivePayload(body1, raw1) == EffectivePayload(body2, raw2)
    ensures BodyOf(d, headers, body1, raw1, path, protoSet) == BodyOf(d, headers, body2, raw2, path, protoSet)
  {
  }

  /** A declared length above the payload's is truncation, whatever the decoders would say. */
  lemma DeclaredLengthTruncates(d: Decoders, headers: map<string, string>, body: Bytes, rawBody: Bytes,
                                path: seq<string>, protoSet: bool)
    requires KindOf(headers) in {JsonKind, FormKind, MultipartKind} && EffectivePayload(body, rawBody) != []
    requires "content-length" in headers && ParseInt(headers["content-length"]).Some?
    ensures ParseInt(headers["content-length"]).value > |EffectivePayload(body, rawBody)| <==>
            forall other :: BodyOf(other, headers, body, rawBody, path, protoSet) == TRUNCATED
  {
    if forall other :: BodyOf(other, headers, body, rawBody, path, protoSet) == TRUNCATED {
      assert BodyOf(d, headers, body, rawBody, path, protoSet) == TRUNCATED;
    }
  }

  /** A framed message of a known method is decoded from exactly its bytes, whatever follows the frame. */
  lemma GrpcBodyRoundTrip(d: Decoders, headers: map<string, string>, body: Bytes, message: Bytes, rest: Bytes,
                          path: seq<string>)
    requires KindOf(headers).GrpcKind? && |path| == 2 && d.knowsMethod(path[0], path[1])
    requires |message| + 5 < TWO_TO_32
    ensures BodyOf(d, headers, body, Frame(message) + rest, path, true) ==
            match d.message(path[0], path[1], message) case Some(v) => DataOf(v) case None => FAILED
  {
    FrameRoundTrip(message, rest);
  }

  // ----- the path

  /** The segments of the path, without its leading slashes. */
  function ParsedPath(path: string): seq<string> {
    Split(TrimLeft(path, '/'), '/')
  }

  /** The segments spell the path without its leading slashes, and no other slash-free segments do. */
  lemma ParsedPathExactly(path: string, segments: seq<string>)
    requires |segments| > 0
    ensures ParsedPath(path) == segments <==>
            (forall i :: 0 <= i < |segments| ==> '/' !in segments[i]) && Join(segments, '/') == TrimLeft(path, '/')
    ensures ParsedPath(path)[0] == "" <==> TrimLeft(path, '/') == ""
  {
    var trimmed := TrimLeft(path, '/');
    SplitPartsHaveNoSeparator(trimmed, '/');
    JoinOfSplit(trimmed, '/');
    TrimLeftMeaning(path, '/');
    if (forall i :: 0 <= i < |segments| ==> '/' !in segments[i]) && Join(segments, '/') == trimmed {
      SplitOfJoin(segments, '/');
    }
  }
}
