/**
 * The macOS splash screen: a borderless window held in two statics
 * (`splashWindow`, `isSplashShown`), shown from a configuration provider and
 * closed either at once or through an animation whose completion handler
 * orders the window out. AppKit calls are recorded as events in `trace`;
 * the completion of a running animation is an explicit step.
 */
module MacSplash {
  import opened Options
  import opened Effects
  import opened Channel
  import MacChannel

  type UInt8 = x: int | 0 <= x < 256

  /** The configuration provider's values, with the raw pixel bytes `show` reads. */
  datatype Config = Config(
    windowWidth: int, windowHeight: int, windowTitle: string, withAnimation: bool,
    imagePixels: seq<UInt8>, imageWidth: int, imageHeight: int)

  /** An image built from four bytes per pixel, row after row. */
  datatype Image = Image(width: int, height: int, pixels: seq<UInt8>)

  /** A point and a rectangle in screen coordinates (origin at the bottom left). */
  datatype Point = Point(x: real, y: real)
  datatype Rect = Rect(x: real, y: real, width: real, height: real)

  const BYTES_PER_PIXEL: int := 4

  /** The AppKit calls the splash makes, in order. */
  datatype MacCall =
    | NewWindow(window: nat, width: int, height: int, title: string)
    | SetFrameOrigin(window: nat, origin: Point)
    | AddImageView(window: nat, image: Image, origin: Point)
    | SetAlpha(window: nat, alpha: real)
    | OrderFront(window: nat)
    | AnimateAlpha(window: nat, alpha: real)
    | AnimateOriginY(window: nat, dy: int)
    | OrderOut(window: nat)

  /** A positive width and height and exactly four bytes per pixel leave no room for an empty buffer. */
  lemma ExpectedSizePositive(width: int, height: int)
    requires width > 0 && height > 0
    ensures width * BYTES_PER_PIXEL * height > 0
  {
    assert width * BYTES_PER_PIXEL * height == (width * height) * BYTES_PER_PIXEL;
    assert width * height >= 1 by {
      assert width * height >= width * 1;
    }
  }

  /**
   * createImageFromPixelBytes: an image exists exactly when both dimensions
   * are positive, the buffer holds width*4*height bytes and Core Graphics
   * (`cgOk`) builds the image; the image keeps the given size and bytes.
   */
  function CreateImageFromPixelBytes(bytes: seq<UInt8>, width: int, height: int, cgOk: bool): (img: Option<Image>)
    ensures img.Some? <==> width > 0 && height > 0 && |bytes| == width * BYTES_PER_PIXEL * height && cgOk
    ensures img.Some? ==> img.value == Image(width, height, bytes)
    ensures |bytes| == 0 ==> img.None?
  {
    if !(width > 0 && height > 0 && |bytes| > 0) then None
    else
      var bytesPerRow := width * BYTES_PER_PIXEL;
      var expectedTotalBytes := bytesPerRow * height;
      if |bytes| != expectedTotalBytes then None
      else if !cgOk then None
      else Some(Image(width, height, bytes))
  }

  /** The emptiness guard adds nothing: the size check alone refuses every empty buffer. */
  lemma EmptyGuardRedundant(bytes: seq<UInt8>, width: int, height: int)
    requires width > 0 && height > 0 && |bytes| == width * BYTES_PER_PIXEL * height
    ensures |bytes| > 0
  {
    ExpectedSizePositive(width, height);
  }

  /** ASCII lower-casing of one character. */
  function LowerChar(c: char): (l: char)
    ensures !('A' <= l <= 'Z')
    ensures !('A' <= c <= 'Z') ==> l == c
    ensures 'A' <= c <= 'Z' ==> l as int == c as int + 32
  {
    if 'A' <= c <= 'Z' then (c as int - 'A' as int + 'a' as int) as char else c
  }

  /** `lowercased()` for ASCII text: same length, no upper-case letter left, everything else kept. */
  function Lower(s: string): (l: string)
    ensures |l| == |s|
    ensures forall i :: 0 <= i < |l| ==> !('A' <= l[i] <= 'Z')
    ensures forall i :: 0 <= i < |s| && !('A' <= s[i] <= 'Z') ==> l[i] == s[i]
  {
    seq(|s|, i requires 0 <= i < |s| => LowerChar(s[i]))
  }

  /** Lower-casing twice is lower-casing once, and text without capitals is left alone. */
  lemma LowerIdempotent(s: string)
    ensures Lower(Lower(s)) == Lower(s)
    ensures (forall i :: 0 <= i < |s| ==> !('A' <= s[i] <= 'Z')) ==> Lower(s) == s
  {
  }

  /** The effect names are already lower case, so each one selects itself. */
  lemma NamesAreLowerCase()
    ensures Lower(FADE) == FADE
    ensures Lower(SLIDE_UP_FADE) == SLIDE_UP_FADE
    ensures Lower(SLIDE_DOWN_FADE) == SLIDE_DOWN_FADE
  {
    LowerIdempotent(FADE);
    LowerIdempotent(SLIDE_UP_FADE);
    LowerIdempotent(SLIDE_DOWN_FADE);
  }

  /**
   * The exit `close` selects: none for the empty effect; otherwise the
   * case-insensitive name picks a slide, and every other text, known or not,
   * fades.
   */
  function EffectKind(effect: string): (k: CloseKind)
    ensures k == Immediate <==> effect == ""
    ensures k == SlideUpFade <==> Lower(effect) == SLIDE_UP_FADE
    ensures k == SlideDownFade <==> Lower(effect) == SLIDE_DOWN_FADE
    ensures k == Fade <==> effect != "" && Lower(effect) != SLIDE_UP_FADE && Lower(effect) != SLIDE_DOWN_FADE
  {
    if effect == "" then Immediate
    else
      var lowered := Lower(effect);
      if lowered == FADE then Fade
      else if lowered == SLIDE_UP_FADE then SlideUpFade
      else if lowered == SLIDE_DOWN_FADE then SlideDownFade
      else Fade
  }

  /** Upper- or mixed-case spellings of a name select the same exit as the name. */
  lemma EffectKindIgnoresCase(effect: string, k: CloseKind)
    requires k != Immediate && Lower(effect) == Name(k)
    ensures EffectKind(effect) == k
  {
  }

  /** The vertical move of an animated exit: up 50 for slide-up (y grows upwards), down 50 for slide-down. */
  function ExitMove(kind: CloseKind): int {
    match kind
    case SlideUpFade => MOVE_DISTANCE
    case SlideDownFade => -MOVE_DISTANCE
    case _ => 0
  }

  /** The animator calls of an animated exit: alpha to 0, then the move of a slide. */
  function ExitAnimationCalls(w: nat, kind: CloseKind): seq<MacCall> {
    [AnimateAlpha(w, 0.0)] + (if ExitMove(kind) != 0 then [AnimateOriginY(w, ExitMove(kind))] else [])
  }

  /**
   * Every non-empty effect fades the window to alpha 0; the slides also move
   * it 50 points, and any other effect (an unknown one included) only fades.
   */
  lemma EveryEffectFadesOut(w: nat, effect: string)
    requires effect != ""
    ensures ExitAnimationCalls(w, EffectKind(effect))[0] == AnimateAlpha(w, 0.0)
    ensures Lower(effect) == SLIDE_UP_FADE ==> ExitAnimationCalls(w, EffectKind(effect)) == [AnimateAlpha(w, 0.0), AnimateOriginY(w, 50)]
    ensures Lower(effect) == SLIDE_DOWN_FADE ==> ExitAnimationCalls(w, EffectKind(effect)) == [AnimateAlpha(w, 0.0), AnimateOriginY(w, -50)]
    ensures Lower(effect) != SLIDE_UP_FADE && Lower(effect) != SLIDE_DOWN_FADE ==> ExitAnimationCalls(w, EffectKind(effect)) == [AnimateAlpha(w, 0.0)]
  {
  }

  /** createSplashWindow's origin: the window's centre is the centre of the visible frame. */
  function WindowOrigin(screen: Rect, width: int, height: int): (o: Point)
    ensures o.x + width as real / 2.0 == screen.x + screen.width / 2.0
    ensures o.y + height as real / 2.0 == screen.y + screen.height / 2.0
  {
    Point((screen.width - width as real) / 2.0 + screen.x, (screen.height - height as real) / 2.0 + screen.y)
  }

  /** createImageView's origin: the image's centre is the centre of the window's content. */
  function ImageViewOrigin(windowWidth: int, windowHeight: int, image: Image): (o: Point)
    ensures o.x + image.width as real / 2.0 == windowWidth as real / 2.0
    ensures o.y + image.height as real / 2.0 == windowHeight as real / 2.0
  {
    Point((windowWidth as real - image.width as real) / 2.0, (windowHeight as real - image.height as real) / 2.0)
  }

  /** displaySplashWindow's calls: fade in from alpha 0 when animated, otherwise appear opaque. */
  function DisplayCalls(w: nat, animated: bool): seq<MacCall> {
    if animated then [SetAlpha(w, 0.0), OrderFront(w), AnimateAlpha(w, 1.0)]
    else [SetAlpha(w, 1.0), OrderFront(w)]
  }

  /** The alpha the window is left at (or animated to) by a run of calls on it. */
  function FinalAlpha(calls: seq<MacCall>, current: real): real {
    if calls == [] then current
    else
      var c := calls[|calls| - 1];
      if c.SetAlpha? || c.AnimateAlpha? then c.alpha else FinalAlpha(calls[..|calls| - 1], current)
  }

  /**
   * Either way the window ends fully opaque and ordered front, and an
   * animated show makes it visible only at alpha 0.
   */
  lemma DisplayEndsOpaque(w: nat, animated: bool, current: real)
    ensures FinalAlpha(DisplayCalls(w, animated), current) == 1.0
    ensures OrderFront(w) in DisplayCalls(w, animated)
    ensures animated ==> DisplayCalls(w, animated)[0] == SetAlpha(w, 0.0)
  {
    var calls := DisplayCalls(w, animated);
    if animated {
      assert calls[|calls| - 1] == AnimateAlpha(w, 1.0);
    } else {
      assert calls[|calls| - 1] == OrderFront(w);
      assert calls[..|calls| - 1] == [SetAlpha(w, 1.0)];
    }
  }

  /** The calls of a `show` that passes its guards, for window `w`. */
  function ShowCalls(w: nat, config: Config, screen: Option<Rect>, image: Option<Image>): seq<MacCall> {
    [NewWindow(w, config.windowWidth, config.windowHeight, config.windowTitle)]
      + (if screen.Some? then [SetFrameOrigin(w, WindowOrigin(screen.value, config.windowWidth, config.windowHeight))] else [])
      + (if image.Some? then [AddImageView(w, image.value, ImageViewOrigin(config.windowWidth, config.windowHeight, image.value))] else [])
      + DisplayCalls(w, config.withAnimation)
  }

  /** The statics of `NativeSplashScreen`, and the windows AppKit has on screen. */
  class MacSplashScreen {
    var configurationProvider: Option<Config>
    var splashWindow: Option<nat>
    var isSplashShown: bool
    /** The windows captured by close animations whose completion has not run yet. */
    var completions: seq<nat>
    var nextWindow: nat
    var trace: seq<MacCall>
    /** Windows ordered front and not ordered out since. */
    ghost var visible: set<nat>

    ghost predicate Valid()
      reads this
    {
      && (isSplashShown <==> splashWindow.Some?)
      && (splashWindow.Some? ==> splashWindow.value < nextWindow)
      && (forall i :: 0 <= i < |completions| ==> completions[i] < nextWindow)
      && (forall w :: w in visible ==> w < nextWindow)
    }

    /** Every window on screen is the one the statics hold, so `close` can still reach it. */
    ghost predicate NoStrayWindow()
      reads this
    {
      forall w :: w in visible ==> splashWindow == Some(w)
    }

    /** `show` gets past its guards: not shown yet, a provider set, and positive window dimensions. */
    predicate ShowProceeds()
      reads this
    {
      && !isSplashShown
      && configurationProvider.Some?
      && configurationProvider.value.windowWidth > 0
      && configurationProvider.value.windowHeight > 0
    }

    constructor()
      ensures Valid() && NoStrayWindow()
      ensures configurationProvider.None? && splashWindow.None? && !isSplashShown
      ensures completions == [] && nextWindow == 1 && trace == [] && visible == {}
    {
      configurationProvider := None;
      splashWindow := None;
      isSplashShown := false;
      completions := [];
      nextWindow := 1;
      trace := [];
      visible := {};
    }

    /** Assigning the public `configurationProvider` static. */
    method SetConfigurationProvider(provider: Option<Config>)
      modifies this`configurationProvider
      ensures configurationProvider == provider
    {
      configurationProvider := provider;
    }

    /** createSplashWindow: a new borderless window, centred on the main screen when there is one. */
    method CreateSplashWindow(config: Config, screen: Option<Rect>) returns (w: nat)
      requires Valid()
      modifies this`nextWindow, this`trace
      ensures Valid()
      ensures w == old(nextWindow) && nextWindow == w + 1
      ensures trace == old(trace) + [NewWindow(w, config.windowWidth, config.windowHeight, config.windowTitle)]
        + (if screen.Some? then [SetFrameOrigin(w, WindowOrigin(screen.value, config.windowWidth, config.windowHeight))] else [])
    {
      w := nextWindow;
      nextWindow := nextWindow + 1;
      trace := trace + [NewWindow(w, config.windowWidth, config.windowHeight, config.windowTitle)];
      if screen.Some? {
        trace := trace + [SetFrameOrigin(w, WindowOrigin(screen.value, config.windowWidth, config.windowHeight))];
      }
    }

    /** displaySplashWindow: order the window front, fading it in when animated. */
    method DisplaySplashWindow(w: nat, animated: bool)
      modifies this`trace, this`visible
      ensures trace == old(trace) + DisplayCalls(w, animated)
      ensures visible == old(visible) + {w}
    {
      if animated {
        trace := trace + [SetAlpha(w, 0.0), OrderFront(w), AnimateAlpha(w, 1.0)];
      } else {
        trace := trace + [SetAlpha(w, 1.0), OrderFront(w)];
      }
      visible := visible + {w};
    }

    /**
     * show: a no-op when already shown, without a provider or with a
     * non-positive window dimension; otherwise a new window is created,
     * given the image when one can be built (left blank when not), stored,
     * displayed, and the splash counts as shown.
     */
    method Show(screen: Option<Rect>, cgOk: bool)
      requires Valid()
      modifies this
      ensures Valid()
      ensures !old(ShowProceeds()) ==> unchanged(this)
      ensures old(ShowProceeds()) ==>
        var config := old(configurationProvider).value;
        var w := old(nextWindow);
        && splashWindow == Some(w) && isSplashShown && nextWindow == w + 1
        && trace == old(trace) + ShowCalls(w, config, screen,
             CreateImageFromPixelBytes(config.imagePixels, config.imageWidth, config.imageHeight, cgOk))
        && visible == old(visible) + {w}
      ensures configurationProvider == old(configurationProvider) && completions == old(completions)
      ensures old(NoStrayWindow()) ==> NoStrayWindow()
    {
      if isSplashShown {
        return;
      }
      if configurationProvider.None? {
        return;
      }
      var config := configurationProvider.value;
      if !(config.windowWidth > 0 && config.windowHeight > 0) {
        return;
      }
      OpenWindow(config, screen, cgOk);
    }

    /**
     * The body of `show` past its guards: create the window, add the image
     * view when the image can be built, store and display the window, and
     * mark the splash as shown.
     */
    method OpenWindow(config: Config, screen: Option<Rect>, cgOk: bool)
      requires Valid() && !isSplashShown
      modifies this`nextWindow, this`trace, this`visible, this`splashWindow, this`isSplashShown
      ensures Valid()
      ensures splashWindow == Some(old(nextWindow)) && isSplashShown && nextWindow == old(nextWindow) + 1
      ensures trace == old(trace) + ShowCalls(old(nextWindow), config, screen,
        CreateImageFromPixelBytes(config.imagePixels, config.imageWidth, config.imageHeight, cgOk))
      ensures visible == old(visible) + {old(nextWindow)}
      ensures old(NoStrayWindow()) ==> NoStrayWindow()
    {
      ghost var t0 := trace;
      var window := CreateSplashWindow(config, screen);
      ghost var t1 := trace;
      var image := CreateImageFromPixelBytes(config.imagePixels, config.imageWidth, config.imageHeight, cgOk);
      if image.Some? {
        CreateImageView(window, config, image.value);
      }
      ghost var t2 := trace;
      splashWindow := Some(window);
      DisplaySplashWindow(window, config.withAnimation);
      isSplashShown := true;
      assert trace == t2 + DisplayCalls(window, config.withAnimation);
      assert t2 == t1 + (if image.Some? then [AddImageView(window, image.value, ImageViewOrigin(config.windowWidth, config.windowHeight, image.value))] else []);
    }

    /** createImageView: the image goes into a view centred in the window's content. */
    method CreateImageView(w: nat, config: Config, image: Image)
      modifies this`trace
      ensures trace == old(trace) + [AddImageView(w, image, ImageViewOrigin(config.windowWidth, config.windowHeight, image))]
    {
      trace := trace + [AddImageView(w, image, ImageViewOrigin(config.windowWidth, config.windowHeight, image))];
    }

    /** The completion handler as written: order `w` out and forget whatever window the statics hold. */
    method CompletionAsWritten(w: nat)
      requires Valid()
      modifies this`trace, this`visible, this`splashWindow, this`isSplashShown
      ensures Valid()
      ensures trace == old(trace) + [OrderOut(w)] && visible == old(visible) - {w}
      ensures splashWindow.None? && !isSplashShown
    {
      trace := trace + [OrderOut(w)];
      visible := visible - {w};
      splashWindow := None;
      isSplashShown := false;
    }

    /** The corrected completion handler: order `w` out, and forget it only if it is still the splash window. */
    method Completion(w: nat)
      requires Valid()
      modifies this`trace, this`visible, this`splashWindow, this`isSplashShown
      ensures Valid()
      ensures trace == old(trace) + [OrderOut(w)] && visible == old(visible) - {w}
      ensures old(splashWindow) == Some(w) ==> splashWindow.None? && !isSplashShown
      ensures old(splashWindow) != Some(w) ==> splashWindow == old(splashWindow) && isSplashShown == old(isSplashShown)
      ensures old(NoStrayWindow()) ==> NoStrayWindow()
    {
      trace := trace + [OrderOut(w)];
      visible := visible - {w};
      if splashWindow == Some(w) {
        splashWindow := None;
        isSplashShown := false;
      }
    }

    /**
     * What close(effect) does, between the state before and after it: nothing
     * unless shown with a window; the empty effect orders the window out and
     * forgets it at once; any other effect starts the animation it selects
     * and leaves the window's completion pending.
     */
    twostate predicate ClosedBy(effect: string)
      reads this
    {
      && (!(old(isSplashShown) && old(splashWindow).Some?) ==> unchanged(this))
      && (old(isSplashShown) && old(splashWindow).Some? && effect == "" ==>
            var w := old(splashWindow).value;
            && trace == old(trace) + [OrderOut(w)] && visible == old(visible) - {w}
            && splashWindow.None? && !isSplashShown && completions == old(completions))
      && (old(isSplashShown) && old(splashWindow).Some? && effect != "" ==>
            var w := old(splashWindow).value;
            && trace == old(trace) + ExitAnimationCalls(w, EffectKind(effect))
            && completions == old(completions) + [w]
            && visible == old(visible) && splashWindow == old(splashWindow) && isSplashShown)
      && configurationProvider == old(configurationProvider) && nextWindow == old(nextWindow)
    }

    /**
     * close: a no-op unless shown with a window; the empty effect runs the
     * completion now and hides the window; any other effect starts the
     * animation it selects and leaves the completion pending.
     */
    method Close(effect: string)
      requires Valid()
      modifies this
      ensures Valid()
      ensures ClosedBy(effect)
      ensures old(NoStrayWindow()) ==> NoStrayWindow()
    {
      if !(isSplashShown && splashWindow.Some?) {
        return;
      }
      var window := splashWindow.value;
      if effect == "" {
        Completion(window);
        return;
      }
      var kind := EffectKind(effect);
      trace := trace + [AnimateAlpha(window, 0.0)];
      if ExitMove(kind) != 0 {
        trace := trace + [AnimateOriginY(window, ExitMove(kind))];
      }
      completions := completions + [window];
    }

    /** The end of the i-th pending close animation, running the handler as written. */
    method AnimationEndsAsWritten(i: nat)
      requires Valid() && i < |completions|
      modifies this
      ensures Valid()
      ensures completions == old(completions[..i] + completions[i + 1..])
      ensures trace == old(trace) + [OrderOut(old(completions[i]))] && visible == old(visible) - {old(completions[i])}
      ensures splashWindow.None? && !isSplashShown
      ensures configurationProvider == old(configurationProvider) && nextWindow == old(nextWindow)
    {
      var w := completions[i];
      completions := completions[..i] + completions[i + 1..];
      CompletionAsWritten(w);
    }

    /** The end of the i-th pending close animation, running the corrected handler. */
    method AnimationEnds(i: nat)
      requires Valid() && i < |completions|
      modifies this
      ensures Valid()
      ensures completions == old(completions[..i] + completions[i + 1..])
      ensures trace == old(trace) + [OrderOut(old(completions[i]))] && visible == old(visible) - {old(completions[i])}
      ensures old(splashWindow) == Some(old(completions[i])) ==> splashWindow.None? && !isSplashShown
      ensures old(splashWindow) != Some(old(completions[i])) ==>
        splashWindow == old(splashWindow) && isSplashShown == old(isSplashShown)
      ensures configurationProvider == old(configurationProvider) && nextWindow == old(nextWindow)
      ensures old(NoStrayWindow()) ==> NoStrayWindow()
    {
      var w := completions[i];
      completions := completions[..i] + completions[i + 1..];
      Completion(w);
    }

    /** handle: decode the call, close when asked, and answer. */
    method HandleMethodCall(methodName: string, args: Value) returns (response: Response)
      requires Valid()
      modifies this
      ensures Valid()
      ensures response == MacChannel.DecodeMethodCall(methodName, args).response
      ensures methodName != CLOSE_METHOD ==> response == NotImplemented && unchanged(this)
      ensures methodName == CLOSE_METHOD ==> response == Success
      ensures var d := MacChannel.DecodeMethodCall(methodName, args); d.close.Some? ==> ClosedBy(d.close.value)
      ensures old(NoStrayWindow()) ==> NoStrayWindow()
    {
      var d := MacChannel.DecodeMethodCall(methodName, args);
      if d.close.Some? {
        Close(d.close.value);
      }
      response := d.response;
    }
  }

  /**
   * A fading close overtaken by an immediate close and a new show: the
   * second window is on screen and held, while the first window's fade-out
   * completion is still pending.
   */
  method OverlappingClose(c: Config) returns (s: MacSplashScreen)
    requires c.windowWidth > 0 && c.windowHeight > 0
    ensures fresh(s) && s.Valid() && s.NoStrayWindow()
    ensures s.splashWindow == Some(2) && s.isSplashShown && s.visible == {2} && s.completions == [1]
  {
    s := new MacSplashScreen();
    s.SetConfigurationProvider(Some(c));
    s.Show(None, true);
    assert s.splashWindow == Some(1) && s.visible == {1} && s.completions == [];
    s.Close(FADE);
    assert s.splashWindow == Some(1) && s.visible == {1} && s.completions == [1];
    s.Close("");
    assert s.splashWindow.None? && s.visible == {} && s.completions == [1];
    s.Show(None, true);
  }

  /**
   * As written, the old animation's completion then orders out the first
   * window and forgets the new one while it is still on screen; the next
   * close finds nothing shown and does nothing, so window 2 is never ordered
   * out. `beforeClose` is the trace just before that close.
   */
  method StrandedWindowAsWritten(c: Config) returns (s: MacSplashScreen, beforeClose: seq<MacCall>)
    requires c.windowWidth > 0 && c.windowHeight > 0
    ensures s.Valid()
    ensures s.visible == {2} && s.splashWindow.None? && !s.isSplashShown
    ensures |beforeClose| > 0 && beforeClose[|beforeClose| - 1] == OrderOut(1)
    ensures s.trace == beforeClose
    ensures !s.NoStrayWindow()
  {
    s := OverlappingClose(c);
    s.AnimationEndsAsWritten(0);
    assert s.splashWindow.None? && s.visible == {2} && s.completions == [];
    beforeClose := s.trace;
    s.Close("");
  }

  /** The same sequence with the corrected completion: the new window stays held and the next close hides it. */
  method NoStrandedWindowFixed(c: Config) returns (s: MacSplashScreen)
    requires c.windowWidth > 0 && c.windowHeight > 0
    ensures s.Valid() && s.NoStrayWindow()
    ensures s.visible == {} && s.splashWindow.None? && !s.isSplashShown
    ensures |s.trace| > 0 && s.trace[|s.trace| - 1] == OrderOut(2)
  {
    s := OverlappingClose(c);
    s.AnimationEnds(0);
    assert s.splashWindow == Some(2);
    s.Close("");
  }
}
