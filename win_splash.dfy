/**
 * The Windows splash lifecycle: the globals g_splash_window, g_splash_shown,
 * g_splash_bitmap and g_bitmap_bits, and the routines that show and close the
 * layered window. Win32 and GDI calls are recorded as events in `trace`;
 * their results (window and bitmap creation, the work area) are parameters.
 */
module WinSplash {
  import opened Options
  import opened Channel
  import opened Effects
  import CInt
  import WinChannel
  import opened WinPixels
  import opened WinSchedule

  /** The Win32 and GDI calls whose effect the model keeps. */
  datatype WinCall =
    | CreateWindow(hwnd: nat)
    | SetWindowPos(hwnd: nat, x: int, y: int)
    | CreateBitmap(bitmap: nat)
    | ShowWindow(hwnd: nat)
    | UpdateLayered(hwnd: nat, alpha: int, x: int, y: int)
    | DeleteBitmap(bitmap: nat)
    | DestroyWindow(hwnd: nat)

  /** The messages SplashWndProc tells apart. */
  datatype Message = Destroy | EraseBackground | OtherMessage(code: nat)

  /** What a window procedure returns: a value, or whatever DefWindowProcW returns. */
  datatype LResult = Returned(value: int) | DefaultProcessing

  /** The exit effect CloseSplashScreen selects: the three names, else an immediate close. */
  function EffectKind(effect: string): (k: CloseKind)
    ensures k == Immediate <==> effect != FADE && effect != SLIDE_UP_FADE && effect != SLIDE_DOWN_FADE
    ensures k != Immediate ==> Name(k) == effect
  {
    if effect == "" then Immediate
    else if effect == FADE then Fade
    else if effect == SLIDE_UP_FADE then SlideUpFade
    else if effect == SLIDE_DOWN_FADE then SlideDownFade
    else Immediate
  }

  /** The layered-window updates of the fade-in, at the window's position. */
  function FadeInFrames(hwnd: nat, x: int, y: int): (f: seq<WinCall>)
    ensures |f| == |FadeInAlphas()|
  {
    seq(|FadeInAlphas()|, k requires 0 <= k < |FadeInAlphas()| => UpdateLayered(hwnd, FadeInAlphas()[k], x, y))
  }

  /** The layered-window updates of an exit animation, steps 0 to 30. */
  function ExitFrames(kind: CloseKind, hwnd: nat, x: int, top: int): (f: seq<WinCall>)
    requires kind != Immediate
    ensures |f| == EXIT_STEPS + 1
  {
    seq(EXIT_STEPS + 1, i requires 0 <= i <= EXIT_STEPS => UpdateLayered(hwnd, ExitAlpha(i), x, ExitY(kind, top, i)))
  }

  /**
   * The calls of a successful show of window `hwnd` at (x, y): creation and
   * placement, the DIB section (the next handle), ShowWindow, then the
   * fade-in or a single opaque update.
   */
  function ShowCalls(hwnd: nat, x: int, y: int, animated: bool): (calls: seq<WinCall>)
    ensures |calls| == 4 + (if animated then |FadeInAlphas()| else 1)
    ensures calls[..4] == [CreateWindow(hwnd), SetWindowPos(hwnd, x, y), CreateBitmap(hwnd + 1), ShowWindow(hwnd)]
    ensures forall k :: 4 <= k < |calls| ==> calls[k].UpdateLayered? && calls[k].hwnd == hwnd
    ensures calls[|calls| - 1].UpdateLayered? && calls[|calls| - 1].alpha == (if animated then 250 else 255)
  {
    FadeInAlphasShape();
    [CreateWindow(hwnd), SetWindowPos(hwnd, x, y), CreateBitmap(hwnd + 1), ShowWindow(hwnd)]
      + (if animated then FadeInFrames(hwnd, x, y) else [UpdateLayered(hwnd, 255, x, y)])
  }

  /** The back-buffer ShowSplashScreen presents: the image stamped on a zeroed DIB. */
  function ShownContent(c: Config): seq<Word>
    requires c.ImageWellFormed() && c.width >= 0 && c.height >= 0
  {
    var blank := seq(c.width * c.height, _ => 0);
    if c.imagePixels.Some? then Rendered(c, blank) else blank
  }

  class SplashWindows {
    const config: Config
    var window: Option<nat>   // g_splash_window
    var shown: bool           // g_splash_shown
    var bitmap: Option<nat>   // g_splash_bitmap
    var bits: array?<Word>    // g_bitmap_bits
    var left: int             // the window rectangle's left edge
    var top: int              // the window rectangle's top edge
    var nextHandle: nat       // source of fresh window and bitmap handles
    var trace: seq<WinCall>   // the Win32 and GDI calls made so far

    ghost predicate Valid()
      reads this
    {
      && config.ImageWellFormed() && config.width >= 0 && config.height >= 0
      && (bitmap.Some? <==> bits != null)
      && (bits != null ==> bits.Length == config.width * config.height)
      && (shown ==> window.Some? && bitmap.Some?)
      && (window.Some? ==> window.value < nextHandle)
      && (bitmap.Some? ==> bitmap.value < nextHandle)
    }

    /** No window is alive unless the splash counts as shown. */
    ghost predicate NoStrayWindow()
      reads this
    {
      window.Some? ==> shown
    }

    constructor (c: Config)
      requires c.ImageWellFormed() && c.width >= 0 && c.height >= 0
      ensures Valid() && NoStrayWindow()
      ensures config == c && window == None && !shown && bitmap == None && bits == null
      ensures trace == [] && nextHandle == 1
    {
      config := c;
      window, shown, bitmap, bits := None, false, None, null;
      left, top, nextHandle := 0, 0, 1;
      trace := [];
    }

    /**
     * SplashWndProc: WM_DESTROY for the splash window forgets the window and
     * clears the shown flag; WM_ERASEBKGND is swallowed; everything else goes
     * to the default procedure.
     */
    method SplashWndProc(hwnd: nat, msg: Message) returns (r: LResult)
      modifies this
      ensures msg == Destroy && old(window) == Some(hwnd) ==> window == None && !shown
      ensures !(msg == Destroy && old(window) == Some(hwnd)) ==> window == old(window) && shown == old(shown)
      ensures bitmap == old(bitmap) && bits == old(bits) && trace == old(trace)
      ensures left == old(left) && top == old(top) && nextHandle == old(nextHandle)
      ensures r == match msg
        case Destroy => Returned(0)
        case EraseBackground => Returned(1)
        case OtherMessage(_) => DefaultProcessing
    {
      match msg {
        case Destroy =>
          if window == Some(hwnd) {
            window := None;
            shown := false;
          }
          r := Returned(0);
        case EraseBackground =>
          r := Returned(1);
        case OtherMessage(_) =>
          r := DefaultProcessing;
      }
    }

    /** DestroyWindow: records the call and delivers WM_DESTROY synchronously. */
    method DestroyWindowOf(hwnd: nat)
      modifies this
      ensures trace == old(trace) + [DestroyWindow(hwnd)]
      ensures old(window) == Some(hwnd) ==> window == None && !shown
      ensures old(window) != Some(hwnd) ==> window == old(window) && shown == old(shown)
      ensures bitmap == old(bitmap) && bits == old(bits)
      ensures left == old(left) && top == old(top) && nextHandle == old(nextHandle)
    {
      trace := trace + [DestroyWindow(hwnd)];
      var _ := SplashWndProc(hwnd, Destroy);
    }

    /** UpdateSplashWindow: one layered update at the window's position, if there is a window and a buffer. */
    method UpdateSplashWindow(alpha: int)
      modifies this`trace
      ensures trace == old(trace) + (if window.Some? && bits != null then [UpdateLayered(window.value, alpha, left, top)] else [])
    {
      if window.None? || bits == null {
        return;
      }
      trace := trace + [UpdateLayered(window.value, alpha, left, top)];
    }

    /**
     * CloseSplashWindowWithoutAnimation: when shown, deletes the bitmap,
     * destroys the window and clears the shown flag; otherwise does nothing.
     */
    method CloseSplashWindowWithoutAnimation()
      requires Valid()
      modifies this
      ensures Valid()
      ensures !old(shown) ==> unchanged(this)
      ensures old(shown) ==> !shown && window == None && bitmap == None && bits == null
      ensures old(shown) ==> trace == old(trace) + [DeleteBitmap(old(bitmap).value), DestroyWindow(old(window).value)]
      ensures left == old(left) && top == old(top) && nextHandle == old(nextHandle)
      ensures old(NoStrayWindow()) ==> NoStrayWindow()
    {
      if !shown {
        return;
      }
      if bitmap.Some? {
        trace := trace + [DeleteBitmap(bitmap.value)];
        bitmap := None;
        bits := null;
      }
      if window.Some? {
        DestroyWindowOf(window.value);
        window := None;
      }
      shown := false;
    }

    /** The exit loop: 31 layered-window updates, steps 0 to 30, of window `hwnd`. */
    method ExitLoop(kind: CloseKind, hwnd: nat)
      requires kind != Immediate
      modifies this`trace
      ensures trace == old(trace) + ExitFrames(kind, hwnd, left, top)
    {
      var i := 0;
      while i <= EXIT_STEPS
        invariant 0 <= i <= EXIT_STEPS + 1
        invariant trace == old(trace) + ExitFrames(kind, hwnd, left, top)[..i]
      {
        trace := trace + [UpdateLayered(hwnd, ExitAlpha(i), left, ExitY(kind, top, i))];
        i := i + 1;
      }
      assert ExitFrames(kind, hwnd, left, top)[..EXIT_STEPS + 1] == ExitFrames(kind, hwnd, left, top);
    }

    /**
     * The shared body of the three animated closes: 31 layered updates from
     * the window's position, then DestroyWindow. The shown flag is cleared
     * only by WM_DESTROY, and the bitmap is never released.
     */
    method CloseWithExitAnimation(kind: CloseKind)
      requires Valid() && kind != Immediate
      modifies this
      ensures Valid()
      ensures old(window).None? ==> unchanged(this)
      ensures old(window).Some? ==>
        && window == None && !shown
        && trace == old(trace) + ExitFrames(kind, old(window).value, old(left), old(top))
                                + [DestroyWindow(old(window).value)]
      ensures bitmap == old(bitmap) && bits == old(bits)
      ensures left == old(left) && top == old(top) && nextHandle == old(nextHandle)
      ensures old(NoStrayWindow()) ==> NoStrayWindow()
    {
      if window.None? {
        return;
      }
      var hwnd := window.value;
      ExitLoop(kind, hwnd);
      DestroyWindowOf(hwnd);
      window := None;
    }

    method CloseSplashWindowWithFade()
      requires Valid()
      modifies this
      ensures Valid()
      ensures old(window).None? ==> unchanged(this)
      ensures old(window).Some? ==>
        window == None && !shown
        && trace == old(trace) + ExitFrames(Fade, old(window).value, old(left), old(top)) + [DestroyWindow(old(window).value)]
      ensures bitmap == old(bitmap) && bits == old(bits)
    {
      CloseWithExitAnimation(Fade);
    }

    method CloseSplashWindowSlideUpFade()
      requires Valid()
      modifies this
      ensures Valid()
      ensures old(window).None? ==> unchanged(this)
      ensures old(window).Some? ==>
        window == None && !shown
        && trace == old(trace) + ExitFrames(SlideUpFade, old(window).value, old(left), old(top)) + [DestroyWindow(old(window).value)]
      ensures bitmap == old(bitmap) && bits == old(bits)
    {
      CloseWithExitAnimation(SlideUpFade);
    }

    method CloseSplashWindowSlideDownFade()
      requires Valid()
      modifies this
      ensures Valid()
      ensures old(window).None? ==> unchanged(this)
      ensures old(window).Some? ==>
        window == None && !shown
        && trace == old(trace) + ExitFrames(SlideDownFade, old(window).value, old(left), old(top)) + [DestroyWindow(old(window).value)]
      ensures bitmap == old(bitmap) && bits == old(bits)
    {
      CloseWithExitAnimation(SlideDownFade);
    }

    /**
     * What a CloseSplashScreen(effect) call does, between the state before and
     * after it: nothing unless shown; otherwise the window is gone, and either
     * the bitmap is released at once or the exit frames ran and it is kept.
     */
    twostate predicate ClosedBy(effect: string)
      requires old(Valid())
      reads this
    {
      && (!old(shown) ==> unchanged(this))
      && (old(shown) ==> !shown && window == None)
      && (old(shown) && EffectKind(effect) == Immediate ==>
            && bitmap == None && bits == null
            && trace == old(trace) + [DeleteBitmap(old(bitmap).value), DestroyWindow(old(window).value)])
      && (old(shown) && EffectKind(effect) != Immediate ==>
            && bitmap == old(bitmap) && bits == old(bits)
            && trace == old(trace) + ExitFrames(EffectKind(effect), old(window).value, old(left), old(top))
                                   + [DestroyWindow(old(window).value)])
      && left == old(left) && top == old(top) && nextHandle == old(nextHandle)
    }

    /**
     * CloseSplashScreen: nothing unless shown; the three names run their
     * animation, and the empty or any other effect closes immediately.
     */
    method CloseSplashScreen(effect: string)
      requires Valid()
      modifies this
      ensures Valid()
      ensures ClosedBy(effect)
      ensures old(NoStrayWindow()) ==> NoStrayWindow()
    {
      if !shown {
        return;
      }
      if effect == "" {
        CloseSplashWindowWithoutAnimation();
      } else if effect == FADE {
        CloseWithExitAnimation(Fade);
      } else if effect == SLIDE_UP_FADE {
        CloseWithExitAnimation(SlideUpFade);
      } else if effect == SLIDE_DOWN_FADE {
        CloseWithExitAnimation(SlideDownFade);
      } else {
        CloseSplashWindowWithoutAnimation();
      }
    }

    /**
     * HandleMethodCall: decodes the call and, when the decision is to close,
     * runs CloseSplashScreen before answering. A refused call changes nothing.
     */
    method HandleMethodCall(methodName: string, args: Value) returns (response: Response)
      requires Valid()
      modifies this
      ensures Valid()
      ensures response == WinChannel.DecodeMethodCall(methodName, args).response
      ensures WinChannel.DecodeMethodCall(methodName, args).close.None? ==> unchanged(this)
      ensures var d := WinChannel.DecodeMethodCall(methodName, args); d.close.Some? ==> ClosedBy(d.close.value)
      ensures old(NoStrayWindow()) ==> NoStrayWindow()
    {
      var d := WinChannel.DecodeMethodCall(methodName, args);
      if d.close.Some? {
        CloseSplashScreen(d.close.value);
      }
      response := d.response;
    }

    /**
     * CreateDIBSection followed by RenderSplashContent: a fresh zeroed
     * W x H buffer that receives the splash image.
     */
    method PaintBitmap()
      requires Valid()
      modifies this`bitmap, this`bits, this`trace, this`nextHandle
      ensures Valid()
      ensures bitmap == Some(old(nextHandle)) && nextHandle == old(nextHandle) + 1
      ensures bits != null && fresh(bits) && bits[..] == ShownContent(config)
      ensures trace == old(trace) + [CreateBitmap(old(nextHandle))]
    {
      bitmap := Some(nextHandle);
      trace := trace + [CreateBitmap(nextHandle)];
      nextHandle := nextHandle + 1;
      var buffer := new Word[config.width * config.height](_ => 0);
      bits := buffer;
      ghost var blank := buffer[..];
      assert blank == seq(config.width * config.height, _ => 0);
      RenderSplashContent(buffer, config);
      assert buffer[..] == ShownContent(config);
    }

    /** The fade-in loop: the constant alpha 0, 25, ..., 250, each applied at the window's position. */
    method FadeInLoop()
      requires window.Some? && bits != null
      modifies this`trace
      ensures trace == old(trace) + FadeInFrames(window.value, left, top)
    {
      var alpha := 0;
      while alpha <= 255
        invariant 0 <= alpha <= 275 && alpha % FADE_IN_STEP == 0
        invariant trace == old(trace) + FadeInFrames(window.value, left, top)[..alpha / FADE_IN_STEP]
      {
        UpdateSplashWindow(alpha);
        alpha := alpha + FADE_IN_STEP;
      }
      assert FadeInFrames(window.value, left, top)[..alpha / FADE_IN_STEP] == FadeInFrames(window.value, left, top);
    }

    /**
     * The part of ShowSplashScreen after the window exists: the DIB section,
     * the rendering, the fade-in or the single opaque update. Returns whether
     * the DIB section was created.
     */
    method Present(hwnd: nat, bitmapOk: bool) returns (presented: bool)
      requires Valid() && !shown && window == Some(hwnd)
      modifies this
      ensures Valid()
      ensures presented == bitmapOk && window == Some(hwnd)
      ensures left == old(left) && top == old(top) && nextHandle == old(nextHandle) + (if bitmapOk then 1 else 0)
      ensures !bitmapOk ==> bitmap == None && bits == null && !shown && trace == old(trace)
      ensures bitmapOk ==>
        && shown && bitmap == Some(old(nextHandle)) && bits != null && fresh(bits)
        && bits[..] == ShownContent(config)
        && trace == old(trace) + [CreateBitmap(old(nextHandle)), ShowWindow(hwnd)]
                  + (if config.withAnimation then FadeInFrames(hwnd, left, top)
                     else [UpdateLayered(hwnd, 255, left, top)])
    {
      if !bitmapOk {
        bitmap := None;
        bits := null;
        return false;
      }
      PaintBitmap();
      trace := trace + [ShowWindow(hwnd)];
      if config.withAnimation {
        FadeInLoop();
      } else {
        UpdateSplashWindow(255);
      }
      shown := true;
      return true;
    }

    /**
     * ShowSplashScreen as written: nothing when shown; otherwise a new window
     * (or none, if creation fails), placed by C division on the work area's
     * size (its origin is not added),
     * then presented. When the DIB section cannot be created it calls
     * CloseSplashWindowWithoutAnimation, which does nothing because the shown
     * flag is still false: the window stays alive and g_splash_window keeps it.
     */
    method ShowSplashScreen(created: bool, bitmapOk: bool, workLeft: int, workTop: int, workRight: int, workBottom: int)
      requires Valid()
      modifies this
      ensures Valid()
      ensures old(shown) ==> unchanged(this)
      ensures !old(shown) && !created ==> window == None && !shown && trace == old(trace)
      ensures !old(shown) && created ==>
        && window == Some(old(nextHandle))
        && left == CInt.Div(workRight - workLeft - config.width, 2)
        && top == CInt.Div(workBottom - workTop - config.height, 2)
        && shown == bitmapOk
      ensures !old(shown) && !created ==> bitmap == old(bitmap) && bits == old(bits) && nextHandle == old(nextHandle)
      ensures !old(shown) && created && bitmapOk ==>
        && bitmap == Some(old(nextHandle) + 1) && nextHandle == old(nextHandle) + 2
        && bits != null && fresh(bits) && bits[..] == ShownContent(config)
        && trace == old(trace) + ShowCalls(old(nextHandle), left, top, config.withAnimation)
      ensures !old(shown) && created && !bitmapOk ==> bitmap == None && bits == null
      ensures !old(shown) && created && !bitmapOk ==>
        && !NoStrayWindow() && nextHandle == old(nextHandle) + 1
        && trace == old(trace) + [CreateWindow(old(nextHandle)), SetWindowPos(old(nextHandle), left, top)]
    {
      if shown {
        return;
      }
      var hwnd := CreateSplashWindow(created, workLeft, workTop, workRight, workBottom);
      if hwnd.None? {
        return;
      }
      var presented := Present(hwnd.value, bitmapOk);
      if !presented {
        CloseSplashWindowWithoutAnimation();
      }
    }

    /**
     * ShowSplashScreen with its failure path doing what it evidently means
     * to: when the DIB section cannot be created the new window is destroyed,
     * so no window outlives a failed show.
     */
    method ShowSplashScreenFixed(created: bool, bitmapOk: bool, workLeft: int, workTop: int, workRight: int, workBottom: int)
      requires Valid() && NoStrayWindow()
      modifies this
      ensures Valid() && NoStrayWindow()
      ensures old(shown) ==> unchanged(this)
      ensures !old(shown) ==> shown == (created && bitmapOk)
      ensures !old(shown) && created && bitmapOk ==>
        && window == Some(old(nextHandle))
        && left == CInt.Div(workRight - workLeft - config.width, 2)
        && top == CInt.Div(workBottom - workTop - config.height, 2)
        && bitmap == Some(old(nextHandle) + 1) && nextHandle == old(nextHandle) + 2
        && bits != null && fresh(bits) && bits[..] == ShownContent(config)
        && trace == old(trace) + ShowCalls(old(nextHandle), left, top, config.withAnimation)
      ensures !old(shown) && !created ==>
        && window == None && trace == old(trace) && nextHandle == old(nextHandle)
        && bitmap == old(bitmap) && bits == old(bits)
      ensures !old(shown) && created && !bitmapOk ==>
        && window == None && bitmap == None && bits == null
        && nextHandle == old(nextHandle) + 1
        && trace == old(trace) + [CreateWindow(old(nextHandle)), SetWindowPos(old(nextHandle), left, top),
                                  DestroyWindow(old(nextHandle))]
    {
      if shown {
        return;
      }
      var hwnd := CreateSplashWindow(created, workLeft, workTop, workRight, workBottom);
      if hwnd.None? {
        return;
      }
      var presented := Present(hwnd.value, bitmapOk);
      if !presented {
        DestroyWindowOf(hwnd.value);
        window := None;
      }
    }

    /**
     * CreateWindowExW and SetWindowPos: the new window, at half the room the
     * work area leaves around it, counted from the screen's origin rather
     * than from the work area's.
     */
    method CreateSplashWindow(created: bool, workLeft: int, workTop: int, workRight: int, workBottom: int)
      returns (hwnd: Option<nat>)
      requires Valid() && !shown
      modifies this
      ensures Valid() && !shown && window == hwnd
      ensures bitmap == old(bitmap) && bits == old(bits)
      ensures !created ==> hwnd == None && trace == old(trace) && nextHandle == old(nextHandle)
      ensures created ==>
        && hwnd == Some(old(nextHandle)) && nextHandle == old(nextHandle) + 1
        && left == CInt.Div(workRight - workLeft - config.width, 2)
        && top == CInt.Div(workBottom - workTop - config.height, 2)
        && trace == old(trace) + [CreateWindow(old(nextHandle)), SetWindowPos(old(nextHandle), left, top)]
    {
      if !created {
        window := None;
        return None;
      }
      hwnd := Some(nextHandle);
      window := hwnd;
      trace := trace + [CreateWindow(nextHandle)];
      nextHandle := nextHandle + 1;
      left := CInt.Div(workRight - workLeft - config.width, 2);
      top := CInt.Div(workBottom - workTop - config.height, 2);
      trace := trace + [SetWindowPos(hwnd.value, left, top)];
    }
  }

  /**
   * Where CreateSplashWindow puts a window of `size` pixels inside a work
   * area [lo, hi) it fits in: the room to the right exceeds the room to the
   * left by twice the work area's origin, plus the odd pixel. Only a work
   * area that starts at 0 centres the window; a taskbar on the left or at the
   * top pushes it off centre by the taskbar's size.
   */
  lemma PlacementIgnoresWorkAreaOrigin(lo: int, hi: int, size: int)
    requires 0 <= size <= hi - lo
    ensures var x := CInt.Div(hi - lo - size, 2);
      (hi - (x + size)) - (x - lo) == (hi - lo - size) % 2 + 2 * lo
  {
    var n := hi - lo - size;
    CInt.DivNonNegative(n, 2);
    assert n == 2 * (n / 2) + n % 2;
  }

  /** The placement evidently intended: the work area's origin plus half its spare room, so the window is centred in it. */
  function CentredPlacement(lo: int, hi: int, size: int): (x: int)
    requires 0 <= size <= hi - lo
    ensures lo <= x && x + size <= hi
    ensures 0 <= (hi - (x + size)) - (x - lo) <= 1
  {
    var n := hi - lo - size;
    CInt.DivNonNegative(n, 2);
    assert n == 2 * (n / 2) + n % 2;
    lo + CInt.Div(n, 2)
  }

  /**
   * Two shows whose DIB section cannot be created: as written, each leaves a
   * live window that is never destroyed, and the second overwrites the
   * first's handle, so the first can no longer be reached at all.
   */
  method LeakedWindowsAsWritten(c: Config) returns (s: SplashWindows)
    requires c.ImageWellFormed() && c.width >= 0 && c.height >= 0
    ensures s.window == Some(2) && !s.shown
    ensures CreateWindow(1) in s.trace && CreateWindow(2) in s.trace
    ensures DestroyWindow(1) !in s.trace && DestroyWindow(2) !in s.trace
  {
    s := new SplashWindows(c);
    s.ShowSplashScreen(true, false, 0, 0, 800, 600);
    s.ShowSplashScreen(true, false, 0, 0, 800, 600);
    assert s.trace[0] == CreateWindow(1) && s.trace[2] == CreateWindow(2);
  }

  /** The same two failed shows with the corrected failure path destroy both windows. */
  method NoLeakedWindowsFixed(c: Config) returns (s: SplashWindows)
    requires c.ImageWellFormed() && c.width >= 0 && c.height >= 0
    ensures s.window == None && !s.shown && s.NoStrayWindow()
    ensures CreateWindow(1) in s.trace && CreateWindow(2) in s.trace
    ensures DestroyWindow(1) in s.trace && DestroyWindow(2) in s.trace
  {
    s := new SplashWindows(c);
    s.ShowSplashScreenFixed(true, false, 0, 0, 800, 600);
    s.ShowSplashScreenFixed(true, false, 0, 0, 800, 600);
    assert s.trace[0] == CreateWindow(1) && s.trace[2] == DestroyWindow(1);
    assert s.trace[3] == CreateWindow(2) && s.trace[5] == DestroyWindow(2);
  }
}
