/** How the Windows plugin's HandleMethodCall reads a method-channel call. */
module WinChannel {
  import opened Options
  import opened Channel

  /**
   * The decision of HandleMethodCall: "close" with no map, or a map without
   * "effect", closes with the empty effect; a string effect is passed on; any
   * other effect value is refused with INVALID_ARGUMENT and nothing is closed.
   * Every other method is not implemented.
   */
  function DecodeMethodCall(methodName: string, args: Value): (d: Dispatch<string>)
    ensures methodName != CLOSE_METHOD ==> d == Dispatch(None, NotImplemented)
    ensures methodName == CLOSE_METHOD && EffectEntry(args).None? ==> d == Dispatch(Some(""), Success)
    ensures methodName == CLOSE_METHOD && EffectEntry(args).Some? && EffectEntry(args).value.Str? ==>
      d == Dispatch(Some(EffectEntry(args).value.s), Success)
    ensures methodName == CLOSE_METHOD && EffectEntry(args).Some? && !EffectEntry(args).value.Str? ==>
      d == Dispatch(None, Error(INVALID_ARGUMENT))
    ensures d.close.Some? <==> d.response == Success
  {
    if methodName == CLOSE_METHOD then
      var effect := "";
      match args
      case Map(entries) =>
        if EFFECT_KEY in entries then
          match entries[EFFECT_KEY]
          case Str(s) => Dispatch(Some(s), Success)
          case _ => Dispatch(None, Error(INVALID_ARGUMENT))
        else Dispatch(Some(effect), Success)
      case _ => Dispatch(Some(effect), Success)
    else Dispatch(None, NotImplemented)
  }
}
