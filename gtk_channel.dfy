/** How the GTK plugin's method-call handler reads a method-channel call. */
module GtkChannel {
  import opened Options
  import opened Channel

  /**
   * The handler as written: "close" passes a NULL effect (`None`) when there
   * are no map arguments or no "effect" key, passes a string effect on and
   * refuses any other effect value with INVALID_ARGUMENT. For every other
   * method the response pointer is still NULL when it is sent, so the call
   * is answered with a null response rather than "not implemented".
   */
  function DecodeMethodCallAsWritten(methodName: string, args: Value): (d: Dispatch<Option<string>>)
    ensures methodName != CLOSE_METHOD ==> d == Dispatch(None, NullResponse)
    ensures methodName == CLOSE_METHOD && EffectEntry(args).None? ==> d == Dispatch(Some(None), Success)
    ensures methodName == CLOSE_METHOD && EffectEntry(args).Some? && EffectEntry(args).value.Str? ==>
      d == Dispatch(Some(Some(EffectEntry(args).value.s)), Success)
    ensures methodName == CLOSE_METHOD && EffectEntry(args).Some? && !EffectEntry(args).value.Str? ==>
      d == Dispatch(None, Error(INVALID_ARGUMENT))
  {
    if methodName == CLOSE_METHOD then CloseCall(args)
    else Dispatch(None, NullResponse)
  }

  /** The "close" branch, shared by both versions of the handler. */
  function CloseCall(args: Value): Dispatch<Option<string>> {
    if args.Map? then
      if EFFECT_KEY in args.entries then
        match args.entries[EFFECT_KEY]
        case Str(s) => Dispatch(Some(Some(s)), Success)
        case _ => Dispatch(None, Error(INVALID_ARGUMENT))
      else Dispatch(Some(None), Success)
    else Dispatch(Some(None), Success)
  }

  /** As written, a call to any method other than "close" gets the null response and closes nothing. */
  lemma UnknownMethodUnanswered(methodName: string, args: Value)
    requires methodName != CLOSE_METHOD
    ensures DecodeMethodCallAsWritten(methodName, args) == Dispatch(None, NullResponse)
    ensures DecodeMethodCallAsWritten(methodName, args).response != NotImplemented
  {
  }

  /** The handler with the missing "not implemented" reply added. */
  function DecodeMethodCall(methodName: string, args: Value): (d: Dispatch<Option<string>>)
    ensures methodName != CLOSE_METHOD ==> d == Dispatch(None, NotImplemented)
    ensures methodName == CLOSE_METHOD ==> d == DecodeMethodCallAsWritten(methodName, args)
    ensures d.response != NullResponse
    ensures d.close.Some? <==> d.response == Success
  {
    if methodName == CLOSE_METHOD then CloseCall(args)
    else Dispatch(None, NotImplemented)
  }
}
