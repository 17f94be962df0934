/**
 * How the three platforms' plugins differ on the same request: the channel
 * decoding of "close", the exit an effect name selects, and the exit
 * schedules of the two step-driven implementations.
 */
module CrossPlatform {
  import opened Options
  import opened Channel
  import opened Effects
  import WinChannel
  import GtkChannel
  import MacChannel
  import WinSplash
  import GtkSplash
  import MacSplash
  import WinSchedule
  import GtkSchedule

  /** The GTK effect as the Windows handler would pass it: NULL becomes the empty string. */
  function AsWindowsEffect(close: Option<Option<string>>): Option<string> {
    match close
    case None => None
    case Some(e) => Some(e.GetOr(""))
  }

  /**
   * Windows and Linux decode every call alike, up to Linux passing NULL where
   * Windows passes "": same reply, and a close with the same effect. As
   * written, Linux differs only for other methods, which it never answers.
   */
  lemma WindowsAndLinuxDecodeAlike(methodName: string, args: Value)
    ensures WinChannel.DecodeMethodCall(methodName, args).response == GtkChannel.DecodeMethodCall(methodName, args).response
    ensures WinChannel.DecodeMethodCall(methodName, args).close == AsWindowsEffect(GtkChannel.DecodeMethodCall(methodName, args).close)
    ensures methodName == CLOSE_METHOD ==>
      GtkChannel.DecodeMethodCallAsWritten(methodName, args) == GtkChannel.DecodeMethodCall(methodName, args)
    ensures methodName != CLOSE_METHOD ==>
      GtkChannel.DecodeMethodCallAsWritten(methodName, args).response == NullResponse
  {
  }

  /**
   * macOS decodes like Windows except for a non-string effect: Windows
   * refuses it with INVALID_ARGUMENT and closes nothing, macOS closes at
   * once and answers success.
   */
  lemma MacDecodesLikeWindowsSaveNonStrings(methodName: string, args: Value)
    ensures !(EffectEntry(args).Some? && !EffectEntry(args).value.Str?) ==>
      MacChannel.DecodeMethodCall(methodName, args) == WinChannel.DecodeMethodCall(methodName, args)
    ensures methodName == CLOSE_METHOD && EffectEntry(args).Some? && !EffectEntry(args).value.Str? ==>
      && WinChannel.DecodeMethodCall(methodName, args) == Dispatch(None, Error(INVALID_ARGUMENT))
      && MacChannel.DecodeMethodCall(methodName, args) == Dispatch(Some(""), Success)
  {
  }

  /** The three names select the same exit everywhere, and the empty (or NULL) effect closes at once everywhere. */
  lemma NamesSelectAlike(k: CloseKind)
    requires k != Immediate
    ensures WinSplash.EffectKind(Name(k)) == k
    ensures GtkSplash.EffectKind(Some(Name(k))) == k
    ensures MacSplash.EffectKind(Name(k)) == k
    ensures WinSplash.EffectKind("") == Immediate
    ensures GtkSplash.EffectKind(Some("")) == Immediate && GtkSplash.EffectKind(None) == Immediate
    ensures MacSplash.EffectKind("") == Immediate
  {
    MacSplash.NamesAreLowerCase();
  }

  /**
   * An effect that is not exactly one of the names closes at once on Windows
   * and Linux; on macOS it fades, or slides when it is a name in other case.
   */
  lemma UnknownEffectsDiverge(effect: string)
    requires effect != "" && effect != FADE && effect != SLIDE_UP_FADE && effect != SLIDE_DOWN_FADE
    ensures WinSplash.EffectKind(effect) == Immediate
    ensures GtkSplash.EffectKind(Some(effect)) == Immediate
    ensures MacSplash.EffectKind(effect) != Immediate
    ensures MacSplash.Lower(effect) == SLIDE_UP_FADE ==> MacSplash.EffectKind(effect) == SlideUpFade
    ensures MacSplash.Lower(effect) == SLIDE_DOWN_FADE ==> MacSplash.EffectKind(effect) == SlideDownFade
    ensures MacSplash.Lower(effect) != SLIDE_UP_FADE && MacSplash.Lower(effect) != SLIDE_DOWN_FADE ==>
      MacSplash.EffectKind(effect) == Fade
  {
  }

  /** For instance "FADE" closes at once on Windows and Linux but fades on macOS. */
  lemma UpperCaseFade()
    ensures WinSplash.EffectKind("FADE") == Immediate
    ensures GtkSplash.EffectKind(Some("FADE")) == Immediate
    ensures MacSplash.EffectKind("FADE") == Fade
  {
    assert MacSplash.Lower("FADE") == FADE;
  }

  /** Windows and Linux slide the window along the same offsets, step for step. */
  lemma SlidesAgree(i: int)
    requires 0 <= i <= EXIT_STEPS
    ensures WinSchedule.SlideOffset(i) == GtkSchedule.YOffset(MOVE_DISTANCE, i, EXIT_STEPS)
  {
  }

  /**
   * At every exit step the Windows alpha byte is 255 times the Linux
   * opacity, rounded down.
   */
  lemma ExitAlphaIsScaledOpacity(i: int)
    requires 0 <= i <= EXIT_STEPS
    ensures var v := 255.0 * GtkSchedule.FadeOutOpacity(i, EXIT_STEPS).Value();
      WinSchedule.ExitAlpha(i) as real <= v < WinSchedule.ExitAlpha(i) as real + 1.0
  {
    var n := 255 * (EXIT_STEPS - i);
    var q := n / EXIT_STEPS;
    var r := n % EXIT_STEPS;
    assert n == EXIT_STEPS * q + r && 0 <= r < EXIT_STEPS;
    var o := GtkSchedule.FadeOutOpacity(i, EXIT_STEPS);
    assert o.Value() == (EXIT_STEPS - i) as real / EXIT_STEPS as real;
    assert 255.0 * o.Value() == n as real / 30.0;
    assert n as real / 30.0 == q as real + r as real / 30.0;
  }
}
