/** How the macOS plugin's `handle` reads a method-channel call. */
module MacChannel {
  import opened Options
  import opened Channel

  /**
   * The decision of `handle`: "close" always closes and answers success; its
   * effect is the "effect" argument when the arguments are a map holding a
   * string there, and the empty string in every other case (no error is ever
   * reported). Every other method is not implemented.
   */
  function DecodeMethodCall(methodName: string, args: Value): (d: Dispatch<string>)
    ensures methodName != CLOSE_METHOD ==> d == Dispatch(None, NotImplemented)
    ensures methodName == CLOSE_METHOD ==> d.close.Some? && d.response == Success
    ensures methodName == CLOSE_METHOD && EffectEntry(args).Some? && EffectEntry(args).value.Str? ==>
      d.close == Some(EffectEntry(args).value.s)
    ensures methodName == CLOSE_METHOD && !(EffectEntry(args).Some? && EffectEntry(args).value.Str?) ==>
      d.close == Some("")
    ensures !d.response.Error?
  {
    if methodName == CLOSE_METHOD then
      var effect :=
        if args.Map? && EFFECT_KEY in args.entries && args.entries[EFFECT_KEY].Str?
        then args.entries[EFFECT_KEY].s
        else "";
      Dispatch(Some(effect), Success)
    else Dispatch(None, NotImplemented)
  }
}
