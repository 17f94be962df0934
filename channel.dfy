/**
 * The platform-neutral shape of a method-channel call: the argument value
 * decoded by the standard message codec, the reply sent back, and whether the
 * handler called the platform's close routine (and with which effect).
 */
module Channel {
  import opened Options

  /** A decoded codec value; `Null` also stands for "no arguments at all". */
  datatype Value =
    | Null
    | Bool(b: bool)
    | Int(i: int)
    | Str(s: string)
    | List(items: seq<Value>)
    | Map(entries: map<string, Value>)

  /** What the handler answers on the channel. */
  datatype Response =
    | Success             // success with a null result
    | Error(code: string)
    | NotImplemented
    | NullResponse        // a null response pointer: the call is never answered

  /** The handler's decision: the close call it makes, if any, and its reply. */
  datatype Dispatch<E> = Dispatch(close: Option<E>, response: Response)

  const CLOSE_METHOD: string := "close"
  const EFFECT_KEY: string := "effect"
  const INVALID_ARGUMENT: string := "INVALID_ARGUMENT"

  /** The value stored under "effect" when the arguments are a map holding that key. */
  function EffectEntry(args: Value): Option<Value> {
    if args.Map? && EFFECT_KEY in args.entries then Some(args.entries[EFFECT_KEY]) else None
  }
}
