/** Decoded policy decisions, by the Go type their dynamic value has, and the errors that travel through a check. */
module Values {
  import opened Outcomes

  /** `Strings` is Go's []string, `Array` is []interface{}, `Number` is json.Number. */
  datatype Value =
    | Null
    | Boolean(flag: bool)
    | Number(literal: string)
    | Str(text: string)
    | Strings(texts: seq<string>)
    | Array(items: seq<Value>)
    | Object(fields: map<string, Value>)

  const CANCEL_CODE := "eval_cancel_error"

  /** Go errors by the dynamic type that logging and metrics look at. `Wrapped` is
      errors.Wrap of pkg/errors, and a topdown error may wrap another error. */
  datatype Fault =
    | StorageFault(text: string)
    | AstFault(text: string)
    | AstFaults(text: string)
    | TopdownFault(code: string, text: string, inner: Option<Fault>)
    | OtherFault(text: string)
    | Wrapped(text: string, cause: Fault)
  {
    /** errors.As for *topdown.Error: its code, if one is in the chain. */
    function TopdownCode(): Option<string> {
      match this
      case TopdownFault(code, _, _) => Some(code)
      case Wrapped(_, cause) => cause.TopdownCode()
      case _ => None
    }

    /** topdown.IsCancel: some topdown error in the chain has the code for cancellation. */
    predicate IsCancel() {
      match this
      case TopdownFault(code, _, inner) => code == CANCEL_CODE || (inner.Some? && inner.value.IsCancel())
      case Wrapped(_, cause) => cause.IsCancel()
      case _ => false
    }

    /** The message, as Error() gives it. */
    function Message(): string {
      match this
      case TopdownFault(code, text, _) => code + ": " + text
      case Wrapped(text, cause) => text + ": " + cause.Message()
      case _ => text
    }
  }
}
