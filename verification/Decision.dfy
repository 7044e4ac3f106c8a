/** What a check reads out of a policy decision (envoyauth/response.go). */
module Decision {
  import opened Outcomes
  import opened Text
  import opened Values
  import Headers

  /**
   Library behaviour: canonical header names, the conversion of an object to a protobuf Struct,
   and the two tables of HTTP status codes.
   */
  datatype Library = Library(
    canon: string -> string,
    newStruct: map<string, Value> -> Result<map<string, Value>, Fault>,
    hasStatusText: int -> bool,
    isEnvoyStatus: int -> bool
  )

  const INVALID := OtherFault("illegal value for policy evaluation result")

  function TypeFault(what: string): Fault {
    OtherFault("type assertion error: " + what)
  }

  function Field(decision: Value, key: string): Option<Value> {
    if decision.Object? && key in decision.fields then Some(decision.fields[key]) else None
  }

  function IsAllowed(decision: Value): Result<bool, Fault> {
    match decision
    case Boolean(flag) => Ok(flag)
    case Object(fields) =>
      if "allowed" !in fields then Err(OtherFault("missing allowed key"))
      else if fields["allowed"].Boolean? then Ok(fields["allowed"].flag)
      else Err(TypeFault("allowed"))
    case _ => Err(INVALID)
  }

  /** The names in `request_headers_to_remove`: absent is none, and a list may hold only strings. */
  function HeadersToRemove(decision: Value): Result<seq<string>, Fault> {
    match decision
    case Boolean(_) => Ok([])
    case Object(fields) =>
      if "request_headers_to_remove" !in fields then Ok([])
      else
        var v := fields["request_headers_to_remove"];
        if v.Str? || Headers.StringsOf(v).None? then Err(TypeFault("request_headers_to_remove"))
        else Ok(Headers.StringsOf(v).value)
    case _ => Err(INVALID)
  }

  /** GetRequestHTTPHeadersToRemove. */
  method GetRequestHTTPHeadersToRemove(decision: Value) returns (r: Result<seq<string>, Fault>)
    ensures r == HeadersToRemove(decision)
  {
    match decision {
      case Boolean(_) => return Ok([]);
      case Object(fields) =>
        if "request_headers_to_remove" !in fields {
          return Ok([]);
        }
        match fields["request_headers_to_remove"] {
          case Strings(texts) => return Ok(texts);
          case Array(items) =>
            var names: seq<string> := [];
            for i := 0 to |items|
              invariant |names| == i && forall j :: 0 <= j < i ==> items[j].Str? && items[j].text == names[j]
            {
              if !items[i].Str? {
                return Err(TypeFault("request_headers_to_remove"));
              }
              names := names + [items[i].text];
            }
            assert names == Headers.StringsOf(Array(items)).value;
            return Ok(names);
          case _ => return Err(TypeFault("request_headers_to_remove"));
        }
      case _ => return Err(INVALID);
    }
  }

  function GetResponseBody(decision: Value): Result<string, Fault> {
    match Field(decision, "body")
    case None => Ok("")
    case Some(Str(text)) => Ok(text)
    case Some(_) => Err(TypeFault("body"))
  }

  function GetResponseHTTPStatus(lib: Library, decision: Value): Result<int, Fault> {
    match decision
    case Boolean(flag) => if flag then Err(OtherFault("HTTP status code undefined for simple allow")) else Ok(403)
    case Object(fields) =>
      if "http_status" !in fields then Ok(403)
      else if !fields["http_status"].Number? then Err(TypeFault("http_status"))
      else
        (match ParseInt(fields["http_status"].literal)
         case None => Err(OtherFault("error converting JSON number to int"))
         case Some(code) => if lib.hasStatusText(code) then Ok(code) else Err(OtherFault("invalid HTTP status code")))
    case _ => Err(INVALID)
  }

  /** Conversion of an int to int32. */
  function ToInt32(n: int): int {
    (n + 0x8000_0000) % 0x1_0000_0000 - 0x8000_0000
  }

  function GetResponseEnvoyHTTPStatus(lib: Library, decision: Value): Result<int, Fault> {
    match GetResponseHTTPStatus(lib, decision)
    case Err(f) => Err(f)
    case Ok(code) =>
      if lib.isEnvoyStatus(ToInt32(code)) then Ok(ToInt32(code)) else Err(OtherFault("invalid HTTP status code"))
  }

  function GetDynamicMetadata(lib: Library, decision: Value): Result<Option<map<string, Value>>, Fault> {
    match decision
    case Boolean(true) => Err(OtherFault("dynamic metadata undefined for boolean decision"))
    case Object(fields) =>
      if "dynamic_metadata" !in fields then Ok(None)
      else if !fields["dynamic_metadata"].Object? then Err(TypeFault("dynamic_metadata"))
      else
        (match lib.newStruct(fields["dynamic_metadata"].fields)
         case Ok(struct) => Ok(Some(struct))
         case Err(f) => Err(f))
    case _ => Ok(None)
  }

  /** The lists that one check flattened, in the order Go's map iteration happened to give. */
  datatype HeaderLists = HeaderLists(headers: seq<Headers.Pair>, toAdd: seq<Headers.Pair>)

  predicate HeaderFieldOk(decision: Value, key: string) {
    Field(decision, key).Some? ==> Headers.HeadersOk(Field(decision, key).value)
  }

  /** `list` is a possible flattening of a header field of the decision; nothing for an absent field. */
  ghost predicate IsHeaderList(lib: Library, decision: Value, key: string, list: seq<Headers.Pair>) {
    match Field(decision, key)
    case None => list == []
    case Some(v) => Headers.IsFlattening(lib.canon, v, list)
  }
}
