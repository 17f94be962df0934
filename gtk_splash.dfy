/**
 * The GTK splash lifecycle: the globals splash_window, splash_shown and
 * animation_timer_id, the GLib timeout sources the animations run on, and
 * the step callbacks that advance a FadeData or SlideFadeData record. GTK and
 * GLib calls are recorded as events in `trace`; each firing of a timeout
 * source is one call of `Fire`.
 */
module GtkSplash {
  import opened Options
  import opened Effects
  import opened GtkSchedule
  import GtkChannel
  import Channel

  /** The GTK and GLib calls whose effect the model keeps. */
  datatype GtkCall =
    | NewWindow(widget: nat)
    | SetOpacity(widget: nat, opacity: Ratio)
    | ShowAll(widget: nat)
    | AddTimeout(id: nat, intervalMs: int)
    | RemoveSource(id: nat)
    | Move(widget: nat, x: int, y: int)
    | DestroyWidget(widget: nat)

  /** gtk_widget_set_opacity(..., 0.0) before an animated show. */
  const TRANSPARENT: Ratio := Ratio(0, 1)

  const FADE_IN_STEPS: int := 10
  const FADE_IN_DELAY_MS: int := 15
  const EXIT_DELAY_MS: int := EXIT_DURATION_MS / EXIT_STEPS

  /** The record a fade timer carries: `struct FadeData`. */
  class FadeData {
    const window: nat
    var currentStep: int
    const totalSteps: int

    constructor (w: nat, total: int)
      ensures window == w && currentStep == 0 && totalSteps == total
    {
      window, currentStep, totalSteps := w, 0, total;
    }
  }

  /** The record a slide timer carries: `struct SlideFadeData`. */
  class SlideFadeData {
    const window: nat
    var currentStep: int
    const totalSteps: int
    const startY: int
    const moveDistance: int

    constructor (w: nat, total: int, y: int, distance: int)
      ensures window == w && currentStep == 0 && totalSteps == total
      ensures startY == y && moveDistance == distance
    {
      window, currentStep, totalSteps := w, 0, total;
      startY, moveDistance := y, distance;
    }
  }

  /** A live timeout source: its callback and the record passed as user data. */
  datatype Timer =
    | FadeInTimer(fade: FadeData)
    | FadeOutTimer(fade: FadeData)
    | SlideUpTimer(slide: SlideFadeData)
    | SlideDownTimer(slide: SlideFadeData)
  {
    predicate IsFade() { FadeInTimer? || FadeOutTimer? }

    function Data(): object {
      if IsFade() then fade else slide
    }

    function Kind(): Callback {
      match this
      case FadeInTimer(_) => FadeIn
      case FadeOutTimer(_) => FadeOut
      case SlideUpTimer(_) => SlideUp
      case SlideDownTimer(_) => SlideDown
    }

    function Window(): nat { if IsFade() then fade.window else slide.window }
    function Total(): int { if IsFade() then fade.totalSteps else slide.totalSteps }
    function StartY(): int { if IsFade() then 0 else slide.startY }
    function Distance(): int { if IsFade() then 0 else slide.moveDistance }

    function Step(): int
      reads Data()
    {
      if IsFade() then fade.currentStep else slide.currentStep
    }
  }

  /** Which callback a timer runs, without its record. */
  datatype Callback = FadeIn | FadeOut | SlideUp | SlideDown

  /** The calls one firing makes before it checks for completion. */
  function StepCalls(cb: Callback, w: nat, x: int, step: int, total: int, startY: int, distance: int): seq<GtkCall>
    requires total > 0 && 0 <= step <= total && distance >= 0
  {
    match cb
    case FadeIn => [SetOpacity(w, FadeInOpacity(step, total))]
    case FadeOut => [SetOpacity(w, FadeOutOpacity(step, total))]
    case SlideUp => [SetOpacity(w, FadeOutOpacity(step, total)), Move(w, x, startY - YOffset(distance, step, total))]
    case SlideDown => [SetOpacity(w, FadeOutOpacity(step, total)), Move(w, x, startY + YOffset(distance, step, total))]
  }

  /** The calls of the last firing after its step: full opacity, or the window's destruction. */
  function FinishCalls(cb: Callback, w: nat): seq<GtkCall> {
    if cb == FadeIn then [SetOpacity(w, FULL)] else [DestroyWidget(w)]
  }

  /** Every call a timer still makes, from `step` to its last firing. */
  function Run(cb: Callback, w: nat, x: int, step: int, total: int, startY: int, distance: int): seq<GtkCall>
    requires total > 0 && 0 <= step <= total && distance >= 0
    decreases total - step
  {
    StepCalls(cb, w, x, step, total, startY, distance)
      + if step == total then FinishCalls(cb, w) else Run(cb, w, x, step + 1, total, startY, distance)
  }

  lemma AppendAssoc<T>(a: seq<T>, b: seq<T>, c: seq<T>)
    ensures (a + b) + c == a + (b + c)
  {
  }

  lemma AppendEmpty<T>(a: seq<T>)
    ensures a + [] == a
  {
  }

  /** One firing peels its calls off the front of a run. */
  lemma RunUnfold(cb: Callback, w: nat, x: int, step: int, total: int, startY: int, distance: int)
    requires total > 0 && 0 <= step <= total && distance >= 0
    ensures Run(cb, w, x, step, total, startY, distance)
      == StepCalls(cb, w, x, step, total, startY, distance)
         + if step == total then FinishCalls(cb, w) else Run(cb, w, x, step + 1, total, startY, distance)
  {
  }

  /** The opacities a sequence of calls sets, in order. */
  function Opacities(calls: seq<GtkCall>): (r: seq<Ratio>)
    ensures |r| <= |calls|
  {
    if calls == [] then []
    else (if calls[0].SetOpacity? then [calls[0].opacity] else []) + Opacities(calls[1..])
  }

  lemma OpacitiesAppend(a: seq<GtkCall>, b: seq<GtkCall>)
    ensures Opacities(a + b) == Opacities(a) + Opacities(b)
  {
    if a == [] {
      assert a + b == b;
    } else {
      assert (a + b)[0] == a[0] && (a + b)[1..] == a[1..] + b;
      OpacitiesAppend(a[1..], b);
    }
  }

  /** The opacity a step of a callback sets. */
  function StepOpacity(cb: Callback, step: int, total: int): Ratio
    requires total > 0 && 0 <= step <= total
  {
    if cb == FadeIn then FadeInOpacity(step, total) else FadeOutOpacity(step, total)
  }

  /** Each firing's step sets exactly one opacity. */
  lemma StepSetsOneOpacity(cb: Callback, w: nat, x: int, step: int, total: int, startY: int, distance: int)
    requires total > 0 && 0 <= step <= total && distance >= 0
    ensures Opacities(StepCalls(cb, w, x, step, total, startY, distance)) == [StepOpacity(cb, step, total)]
  {
    var head := StepCalls(cb, w, x, step, total, startY, distance);
    if cb == SlideUp || cb == SlideDown {
      assert head[1..][1..] == [];
    } else {
      assert head[1..] == [];
    }
  }

  /** The finishing calls set full opacity for the fade-in and none for an exit. */
  lemma FinishOpacities(cb: Callback, w: nat)
    ensures Opacities(FinishCalls(cb, w)) == (if cb == FadeIn then [FULL] else [])
  {
    assert FinishCalls(cb, w)[1..] == [];
  }

  /** `o` lists the opacities of steps `step` .. `total`, then 1.0 for the fade-in. */
  ghost predicate OpacitiesFrom(o: seq<Ratio>, cb: Callback, step: int, total: int)
    requires total > 0 && 0 <= step <= total
  {
    && |o| == total - step + 1 + (if cb == FadeIn then 1 else 0)
    && (forall k :: 0 <= k <= total - step ==> o[k] == StepOpacity(cb, step + k, total))
    && (cb == FadeIn ==> o[total - step + 1] == FULL)
  }

  /** Putting one step's opacity in front of the later steps' opacities. */
  lemma OpacitiesCons(o: seq<Ratio>, ot: seq<Ratio>, cb: Callback, step: int, total: int)
    requires total > 0 && 0 <= step < total
    requires o == [StepOpacity(cb, step, total)] + ot && OpacitiesFrom(ot, cb, step + 1, total)
    ensures OpacitiesFrom(o, cb, step, total)
  {
    forall k | 1 <= k <= total - step
      ensures o[k] == StepOpacity(cb, step + k, total)
    {
      assert o[k] == ot[k - 1];
    }
    if cb == FadeIn {
      assert o[total - step + 1] == ot[total - step];
    }
  }

  /**
   * A run sets exactly the opacities of its remaining steps, in order: the
   * recursive schedule agrees with the closed forms `k / total` (then a final
   * 1.0 for the fade-in) and `(total - k) / total` for the three exits.
   */
  lemma {:induction false} RunOpacities(cb: Callback, w: nat, x: int, step: int, total: int, startY: int, distance: int)
    requires total > 0 && 0 <= step <= total && distance >= 0
    decreases total - step
    ensures OpacitiesFrom(Opacities(Run(cb, w, x, step, total, startY, distance)), cb, step, total)
  {
    var head := StepCalls(cb, w, x, step, total, startY, distance);
    StepSetsOneOpacity(cb, w, x, step, total, startY, distance);
    if step == total {
      FinishOpacities(cb, w);
      OpacitiesAppend(head, FinishCalls(cb, w));
    } else {
      var tail := Run(cb, w, x, step + 1, total, startY, distance);
      OpacitiesAppend(head, tail);
      RunOpacities(cb, w, x, step + 1, total, startY, distance);
      OpacitiesCons(Opacities(head + tail), Opacities(tail), cb, step, total);
    }
  }

  /**
   * A whole fade-in brightens from 0 to 1 without ever dimming, and sets
   * full opacity twice at the end (the last step's ratio, then 1.0).
   */
  lemma FadeInRunBrightens(w: nat, x: int, total: int)
    requires total > 0
    ensures var o := Opacities(Run(FadeIn, w, x, 0, total, 0, 0));
      && |o| == total + 2
      && (forall i :: 0 <= i < |o| ==> o[i].den > 0 && 0.0 <= o[i].Value() <= 1.0)
      && o[0].Value() == 0.0 && o[total].Value() == 1.0 && o[total + 1] == FULL
      && (forall i, j :: 0 <= i <= j < |o| ==> o[i].Value() <= o[j].Value())
  {
    RunOpacities(FadeIn, w, x, 0, total, 0, 0);
    var o := Opacities(Run(FadeIn, w, x, 0, total, 0, 0));
    forall i | 0 <= i <= total
      ensures o[i] == FadeInOpacity(i, total)
    {
      assert o[i] == StepOpacity(FadeIn, 0 + i, total);
    }
    FadeInRatiosBrighten(o, total);
  }

  /** The fade-in ratios 0/total .. total/total followed by 1/1 lie in [0, 1] and never decrease. */
  lemma FadeInRatiosBrighten(o: seq<Ratio>, total: int)
    requires total > 0 && |o| == total + 2
    requires forall i :: 0 <= i <= total ==> o[i] == FadeInOpacity(i, total)
    requires o[total + 1] == FULL
    ensures forall i :: 0 <= i < |o| ==> o[i].den > 0 && 0.0 <= o[i].Value() <= 1.0
    ensures o[0].Value() == 0.0 && o[total].Value() == 1.0
    ensures forall i, j :: 0 <= i <= j < |o| ==> o[i].Value() <= o[j].Value()
  {
    assert FULL.Value() == 1.0;
    forall i | 0 <= i <= total
      ensures 0.0 <= o[i].Value() <= 1.0
    {
      FadeInOpacityRange(i, total);
    }
    FadeInOpacityRange(0, total);
    FadeInOpacityRange(total, total);
    forall i, j | 0 <= i <= j < |o|
      ensures o[i].Value() <= o[j].Value()
    {
      if j <= total {
        FadeInNonDecreasing(i, j, total);
      }
    }
  }

  /** A whole exit run dims from 1 to 0 without ever brightening, one opacity per step. */
  lemma ExitRunDims(cb: Callback, w: nat, x: int, total: int, startY: int, distance: int)
    requires cb != FadeIn && total > 0 && distance >= 0
    ensures var o := Opacities(Run(cb, w, x, 0, total, startY, distance));
      && |o| == total + 1
      && (forall i :: 0 <= i < |o| ==> o[i].den > 0 && 0.0 <= o[i].Value() <= 1.0)
      && o[0].Value() == 1.0 && o[total].Value() == 0.0
      && (forall i, j :: 0 <= i <= j < |o| ==> o[j].Value() <= o[i].Value())
  {
    RunOpacities(cb, w, x, 0, total, startY, distance);
    var o := Opacities(Run(cb, w, x, 0, total, startY, distance));
    forall i | 0 <= i < |o|
      ensures o[i] == FadeOutOpacity(i, total)
    {
      assert o[i] == StepOpacity(cb, 0 + i, total);
    }
    ExitRatiosDim(o, total);
  }

  /** The exit ratios total/total .. 0/total lie in [0, 1] and never increase. */
  lemma ExitRatiosDim(o: seq<Ratio>, total: int)
    requires total > 0 && |o| == total + 1
    requires forall i :: 0 <= i <= total ==> o[i] == FadeOutOpacity(i, total)
    ensures forall i :: 0 <= i < |o| ==> o[i].den > 0 && 0.0 <= o[i].Value() <= 1.0
    ensures o[0].Value() == 1.0 && o[total].Value() == 0.0
    ensures forall i, j :: 0 <= i <= j < |o| ==> o[j].Value() <= o[i].Value()
  {
    forall i | 0 <= i < |o|
      ensures 0.0 <= o[i].Value() <= 1.0
    {
      FadeOutOpacityRange(i, total);
    }
    FadeOutOpacityRange(0, total);
    FadeOutOpacityRange(total, total);
    forall i, j | 0 <= i <= j < |o|
      ensures o[j].Value() <= o[i].Value()
    {
      FadeOutNonIncreasing(i, j, total);
    }
  }

  /** A slide step sets one opacity and makes one vertical move within the band. */
  lemma SlideStepMoves(cb: Callback, w: nat, x: int, step: int, total: int, startY: int, distance: int)
    requires (cb == SlideUp || cb == SlideDown) && total > 0 && 0 <= step <= total && distance >= 0
    ensures var h := StepCalls(cb, w, x, step, total, startY, distance);
      && |h| == 2 && !h[0].Move? && h[1].Move? && h[1].widget == w && h[1].x == x
      && (cb == SlideUp ==> startY - distance <= h[1].y <= startY)
      && (cb == SlideDown ==> startY <= h[1].y <= startY + distance)
      && (step == total ==> h[1].y == if cb == SlideUp then startY - distance else startY + distance)
    ensures forall c :: c in StepCalls(cb, w, x, step, total, startY, distance) ==> OnSlidePath(c, cb, w, x, startY, distance)
  {
  }

  /**
   * A slide run ends by moving the window exactly `distance` from the start
   * and then destroying it.
   */
  lemma {:induction false} SlideRunEnds(cb: Callback, w: nat, x: int, step: int, total: int, startY: int, distance: int)
    requires (cb == SlideUp || cb == SlideDown) && total > 0 && 0 <= step <= total && distance >= 0
    decreases total - step
    ensures var r := Run(cb, w, x, step, total, startY, distance);
      && |r| >= 3
      && r[|r| - 1] == DestroyWidget(w)
      && r[|r| - 2] == Move(w, x, if cb == SlideUp then startY - distance else startY + distance)
  {
    var head := StepCalls(cb, w, x, step, total, startY, distance);
    RunUnfold(cb, w, x, step, total, startY, distance);
    if step < total {
      SlideRunEnds(cb, w, x, step + 1, total, startY, distance);
      LastTwo(head, Run(cb, w, x, step + 1, total, startY, distance));
    } else {
      SlideStepMoves(cb, w, x, step, total, startY, distance);
      LastTwo([head[0]], [head[1], DestroyWidget(w)]);
      assert head == [head[0]] + [head[1]];
      AppendAssoc([head[0]], [head[1]], [DestroyWidget(w)]);
    }
  }

  /** The last two elements of a concatenation whose right part has at least two. */
  lemma LastTwo<T>(a: seq<T>, b: seq<T>)
    requires |b| >= 2
    ensures |a + b| >= 2 && (a + b)[|a + b| - 1] == b[|b| - 1] && (a + b)[|a + b| - 2] == b[|b| - 2]
  {
  }

  /** A call keeps to a slide's path: a move of the splash window, vertical, inside the band. */
  predicate OnSlidePath(c: GtkCall, cb: Callback, w: nat, x: int, startY: int, distance: int) {
    c.Move? ==>
      && c.widget == w && c.x == x
      && (if cb == SlideUp then startY - distance <= c.y <= startY else startY <= c.y <= startY + distance)
  }

  /** Every move of a slide run is of the splash window, vertical, and within the 50-pixel band. */
  lemma {:induction false} SlideRunMoves(cb: Callback, w: nat, x: int, step: int, total: int, startY: int, distance: int)
    requires (cb == SlideUp || cb == SlideDown) && total > 0 && 0 <= step <= total && distance >= 0
    decreases total - step
    ensures forall c :: c in Run(cb, w, x, step, total, startY, distance) ==> OnSlidePath(c, cb, w, x, startY, distance)
  {
    SlideStepMoves(cb, w, x, step, total, startY, distance);
    RunUnfold(cb, w, x, step, total, startY, distance);
    var head := StepCalls(cb, w, x, step, total, startY, distance);
    var rest := if step == total then FinishCalls(cb, w) else Run(cb, w, x, step + 1, total, startY, distance);
    if step < total {
      SlideRunMoves(cb, w, x, step + 1, total, startY, distance);
    } else {
      assert rest == [DestroyWidget(w)];
    }
    assert forall c :: c in head + rest ==> c in head || c in rest;
  }

  class GtkSplashScreen {
    const withAnimation: bool        // native_splash_screen_with_animation
    var window: Option<nat>          // splash_window
    var shown: bool                  // splash_shown
    var timerId: nat                 // animation_timer_id
    var sources: map<nat, Timer>     // live GLib timeout sources
    var winX: int                    // the window's position on screen
    var winY: int
    var nextId: nat                  // source of fresh widget and source ids
    var trace: seq<GtkCall>          // the GTK and GLib calls made so far

    ghost function Footprint(): set<object>
      reads this
    {
      if timerId in sources then {sources[timerId].Data()} else {}
    }

    /** The record of a live timer is well formed for its callback. */
    ghost predicate TimerOk(t: Timer, w: nat)
      reads t.Data()
    {
      && t.Window() == w
      && t.Total() == (if t.Kind() == FadeIn then FADE_IN_STEPS else EXIT_STEPS)
      && 0 <= t.Step() <= t.Total()
      && t.Distance() == (if t.IsFade() then 0 else MOVE_DISTANCE)
    }

    /**
     * At most one timeout source is live, and it is the one
     * animation_timer_id names; it animates the current window; a window is
     * never held without the shown flag. The flag can outlive the window:
     * the "destroy" handler nulls splash_window alone.
     */
    ghost predicate Valid()
      reads this, Footprint()
    {
      && (timerId == 0 <==> sources == map[])
      && (timerId > 0 ==> sources.Keys == {timerId} && window.Some? && TimerOk(sources[timerId], window.value))
      && (window.Some? ==> shown)
      && timerId < nextId
      && (window.Some? ==> window.value < nextId)
    }

    /** The callback of the live timer. */
    ghost function LiveCallback(): Callback
      reads this
      requires timerId in sources
    {
      sources[timerId].Kind()
    }

    /** How many more times the live timer fires; 0 when none is live. */
    ghost function Remaining(): nat
      reads this, Footprint()
      requires Valid()
    {
      if timerId == 0 then 0 else sources[timerId].Total() - sources[timerId].Step() + 1
    }

    /** Every call the live timer is still going to make. */
    ghost function Pending(): seq<GtkCall>
      reads this, Footprint()
      requires Valid()
    {
      if timerId == 0 then []
      else
        var t := sources[timerId];
        Run(t.Kind(), t.Window(), winX, t.Step(), t.Total(), t.StartY(), t.Distance())
    }

    constructor (animated: bool)
      ensures Valid() && withAnimation == animated
      ensures window == None && !shown && timerId == 0 && sources == map[] && trace == [] && nextId == 1
    {
      withAnimation := animated;
      window, shown, timerId, sources := None, false, 0, map[];
      winX, winY, nextId := 0, 0, 1;
      trace := [];
    }

    /** cleanup_animation_timer: removes the live source, if any, and zeroes the id. */
    method CleanupAnimationTimer()
      requires Valid()
      modifies this
      ensures Valid()
      ensures timerId == 0 && sources == map[]
      ensures trace == old(trace) + (if old(timerId) > 0 then [RemoveSource(old(timerId))] else [])
      ensures window == old(window) && shown == old(shown) && winX == old(winX) && winY == old(winY)
      ensures nextId == old(nextId)
    {
      if timerId > 0 {
        trace := trace + [RemoveSource(timerId)];
        sources := map[];
        timerId := 0;
      }
    }

    /**
     * `animation_timer_id = g_timeout_add(interval, callback, data)`, called
     * once the previous timer is gone: the new source gets a fresh id and
     * becomes the live timer.
     */
    method AddTimer(t: Timer, intervalMs: int)
      requires Valid() && timerId == 0 && window.Some? && TimerOk(t, window.value)
      modifies this
      ensures Valid()
      ensures timerId == old(nextId) && nextId == old(nextId) + 1 && sources == map[timerId := t]
      ensures trace == old(trace) + [AddTimeout(timerId, intervalMs)]
      ensures window == old(window) && shown == old(shown) && winX == old(winX) && winY == old(winY)
    {
      var id := nextId;
      nextId := nextId + 1;
      sources := map[id := t];
      timerId := id;
      assert id in sources;
      trace := trace + [AddTimeout(id, intervalMs)];
    }

    /**
     * show_splash_screen: nothing when shown, nothing when GTK cannot be
     * initialised; otherwise a new window centred by the window manager at
     * (`centreX`, `centreY`), transparent and fading in when animated, and the
     * shown flag set at once, while the fade-in is still to run.
     */
    method ShowSplashScreen(gtkOk: bool, centreX: int, centreY: int)
      requires Valid()
      modifies this
      ensures Valid()
      ensures old(shown) || !gtkOk ==> unchanged(this)
      ensures !old(shown) && gtkOk ==>
        && shown && window == Some(old(nextId)) && winX == centreX && winY == centreY
        && nextId == old(nextId) + (if withAnimation then 2 else 1)
        && (withAnimation ==>
              && timerId == old(nextId) + 1 && LiveCallback() == FadeIn && Remaining() == FADE_IN_STEPS + 1
              && trace == old(trace) + [NewWindow(old(nextId)), SetOpacity(old(nextId), TRANSPARENT), ShowAll(old(nextId)),
                                        AddTimeout(timerId, FADE_IN_DELAY_MS)]
              && Pending() == Run(FadeIn, old(nextId), centreX, 0, FADE_IN_STEPS, 0, 0))
        && (!withAnimation ==> timerId == 0 && trace == old(trace) + [NewWindow(old(nextId)), ShowAll(old(nextId))])
    {
      if shown || !gtkOk {
        return;
      }
      var w := nextId;
      nextId := nextId + 1;
      window := Some(w);
      winX, winY := centreX, centreY;
      trace := trace + [NewWindow(w)];
      if withAnimation {
        trace := trace + [SetOpacity(w, TRANSPARENT)];
      }
      trace := trace + [ShowAll(w)];
      // The source raises the flag after adding the timer and pumping events; in the model no
      // callback can run in between.
      shown := true;
      if withAnimation {
        var data := new FadeData(w, FADE_IN_STEPS);
        var t := FadeInTimer(data);
        assert t.Data() == data && t.Step() == 0 && t.Total() == FADE_IN_STEPS && t.Window() == w;
        AddTimer(t, FADE_IN_DELAY_MS);
      }
    }

    /** close_splash_window_without_animation: when shown, cancels the timer and destroys the window. */
    method CloseWithoutAnimation()
      requires Valid()
      modifies this
      ensures Valid()
      ensures !old(shown) ==> unchanged(this)
      ensures old(shown) ==>
        && !shown && window == None && timerId == 0 && sources == map[]
        && trace == old(trace) + (if old(timerId) > 0 then [RemoveSource(old(timerId))] else [])
                              + (if old(window).Some? then [DestroyWidget(old(window).value)] else [])
      ensures winX == old(winX) && winY == old(winY) && nextId == old(nextId)
    {
      if !shown {
        return;
      }
      CleanupAnimationTimer();
      if window.Some? {
        trace := trace + [DestroyWidget(window.value)];
        window := None;
      }
      shown := false;
    }

    /** close_splash_window_with_fade: when a window exists, replaces any timer by a 30-step fade-out. */
    method CloseWithFade()
      requires Valid()
      modifies this
      ensures Valid()
      ensures old(window).None? ==> unchanged(this)
      ensures old(window).Some? ==>
        && window == old(window) && shown
        && timerId == old(nextId) && LiveCallback() == FadeOut && Remaining() == EXIT_STEPS + 1
        && trace == old(trace) + (if old(timerId) > 0 then [RemoveSource(old(timerId))] else [])
                              + [AddTimeout(timerId, EXIT_DELAY_MS)]
        && Pending() == Run(FadeOut, window.value, winX, 0, EXIT_STEPS, 0, 0)
      ensures winX == old(winX) && winY == old(winY)
    {
      if window.None? {
        return;
      }
      CleanupAnimationTimer();
      var data := new FadeData(window.value, EXIT_STEPS);
      var t := FadeOutTimer(data);
      assert t.Data() == data && t.Step() == 0 && t.Total() == EXIT_STEPS && t.Window() == window.value;
      AddTimer(t, EXIT_DELAY_MS);
    }

    /**
     * close_splash_window_slide_up_fade: when a window exists, replaces any timer by a
     * 30-step slide up of 50 pixels from the window's current top.
     */
    method CloseSlideUpFade()
      requires Valid()
      modifies this
      ensures Valid()
      ensures old(window).None? ==> unchanged(this)
      ensures old(window).Some? ==>
        && window == old(window) && shown
        && timerId == old(nextId) && LiveCallback() == SlideUp && Remaining() == EXIT_STEPS + 1
        && trace == old(trace) + (if old(timerId) > 0 then [RemoveSource(old(timerId))] else [])
                              + [AddTimeout(timerId, EXIT_DELAY_MS)]
        && Pending() == Run(SlideUp, window.value, winX, 0, EXIT_STEPS, winY, MOVE_DISTANCE)
      ensures winX == old(winX) && winY == old(winY)
    {
      if window.None? {
        return;
      }
      CleanupAnimationTimer();
      var data := new SlideFadeData(window.value, EXIT_STEPS, winY, MOVE_DISTANCE);
      var t := SlideUpTimer(data);
      assert t.Data() == data && t.Step() == 0 && t.Total() == EXIT_STEPS;
      AddTimer(t, EXIT_DELAY_MS);
    }

    /**
     * close_splash_window_slide_down_fade: when a window exists, replaces any timer by a
     * 30-step slide down of 50 pixels from the window's current top.
     */
    method CloseSlideDownFade()
      requires Valid()
      modifies this
      ensures Valid()
      ensures old(window).None? ==> unchanged(this)
      ensures old(window).Some? ==>
        && window == old(window) && shown
        && timerId == old(nextId) && LiveCallback() == SlideDown && Remaining() == EXIT_STEPS + 1
        && trace == old(trace) + (if old(timerId) > 0 then [RemoveSource(old(timerId))] else [])
                              + [AddTimeout(timerId, EXIT_DELAY_MS)]
        && Pending() == Run(SlideDown, window.value, winX, 0, EXIT_STEPS, winY, MOVE_DISTANCE)
      ensures winX == old(winX) && winY == old(winY)
    {
      if window.None? {
        return;
      }
      CleanupAnimationTimer();
      var data := new SlideFadeData(window.value, EXIT_STEPS, winY, MOVE_DISTANCE);
      var t := SlideDownTimer(data);
      assert t.Data() == data && t.Step() == 0 && t.Total() == EXIT_STEPS;
      AddTimer(t, EXIT_DELAY_MS);
    }

    /**
     * What close_splash_screen(effect) does, between the state before and
     * after it: nothing unless shown; an immediate close cancels the timer and
     * destroys any window; an animated close with no window left does
     * nothing, so the flag stays raised; otherwise the old timer is replaced
     * by the exit run of the effect's callback from the window's position.
     */
    twostate predicate ClosedBy(effect: Option<string>)
      requires old(Valid())
      reads this, Footprint()
    {
      && Valid()
      && (!old(shown) ==> unchanged(this))
      && (old(shown) && EffectKind(effect) == Immediate ==>
            && !shown && window == None && timerId == 0 && sources == map[] && nextId == old(nextId)
            && trace == old(trace) + (if old(timerId) > 0 then [RemoveSource(old(timerId))] else [])
                                   + (if old(window).Some? then [DestroyWidget(old(window).value)] else []))
      && (old(shown) && EffectKind(effect) != Immediate && old(window).None? ==> unchanged(this))
      && (old(shown) && EffectKind(effect) != Immediate && old(window).Some? ==>
            && window == old(window) && shown && winX == old(winX) && winY == old(winY)
            && timerId == old(nextId) && timerId in sources
            && LiveCallback() == ExitCallback(EffectKind(effect)) && Remaining() == EXIT_STEPS + 1
            && trace == old(trace) + (if old(timerId) > 0 then [RemoveSource(old(timerId))] else [])
                                   + [AddTimeout(timerId, EXIT_DELAY_MS)]
            && Pending() == ExitRun(EffectKind(effect), window.value, winX, winY))
    }

    /**
     * close_splash_screen: nothing unless shown; NULL, empty and unknown
     * effects close at once; the three names start their animation.
     */
    method CloseSplashScreen(effect: Option<string>)
      requires Valid()
      modifies this
      ensures ClosedBy(effect)
    {
      if !shown {
        return;
      }
      if effect.None? || effect.value == "" {
        CloseWithoutAnimation();
      } else if effect.value == FADE {
        assert EffectKind(effect) == Fade;
        CloseWithFade();
      } else if effect.value == SLIDE_UP_FADE {
        assert EffectKind(effect) == SlideUpFade;
        CloseSlideUpFade();
      } else if effect.value == SLIDE_DOWN_FADE {
        assert EffectKind(effect) == SlideDownFade;
        CloseSlideDownFade();
      } else {
        assert EffectKind(effect) == Immediate;
        CloseWithoutAnimation();
      }
    }

    /**
     * native_splash_screen_linux_plugin_handle_method_call, with the missing
     * "not implemented" reply: decodes the call, closes when told to, and answers.
     */
    method HandleMethodCall(methodName: string, args: Channel.Value) returns (response: Channel.Response)
      requires Valid()
      modifies this
      ensures Valid()
      ensures response == GtkChannel.DecodeMethodCall(methodName, args).response
      ensures GtkChannel.DecodeMethodCall(methodName, args).close.None? ==> unchanged(this)
      ensures var d := GtkChannel.DecodeMethodCall(methodName, args); d.close.Some? ==> ClosedBy(d.close.value)
      ensures methodName != Channel.CLOSE_METHOD ==> response == Channel.NotImplemented
    {
      var d := GtkChannel.DecodeMethodCall(methodName, args);
      if d.close.Some? {
        CloseSplashScreen(d.close.value);
      }
      response := d.response;
    }

    /** fade_in_func: one fade-in step; on the last one, full opacity and the id reset. */
    method FadeInFunc(data: FadeData) returns (keep: bool)
      requires data.totalSteps > 0 && 0 <= data.currentStep <= data.totalSteps
      modifies this, data
      ensures data.currentStep == old(data.currentStep) + 1
      ensures keep <==> data.currentStep <= data.totalSteps
      ensures trace == old(trace) + StepCalls(FadeIn, data.window, winX, old(data.currentStep), data.totalSteps, 0, 0)
                                  + (if keep then [] else FinishCalls(FadeIn, data.window))
      ensures timerId == (if keep then old(timerId) else 0)
      ensures window == old(window) && shown == old(shown) && sources == old(sources)
      ensures winX == old(winX) && winY == old(winY) && nextId == old(nextId)
    {
      trace := trace + [SetOpacity(data.window, FadeInOpacity(data.currentStep, data.totalSteps))];
      data.currentStep := data.currentStep + 1;
      if data.currentStep > data.totalSteps {
        trace := trace + [SetOpacity(data.window, FULL)];
        timerId := 0;
        return false;
      }
      return true;
    }

    /** The completion shared by the three exit callbacks: the window goes, and the id is reset. */
    method FinishExit(w: nat)
      modifies this
      ensures trace == old(trace) + [DestroyWidget(w)]
      ensures window == None && !shown && timerId == 0
      ensures sources == old(sources) && winX == old(winX) && winY == old(winY) && nextId == old(nextId)
    {
      trace := trace + [DestroyWidget(w)];
      window := None;
      shown := false;
      timerId := 0;
    }

    /** fade_out_func: one exit-fade step; after the last one the window is destroyed. */
    method FadeOutFunc(data: FadeData) returns (keep: bool)
      requires data.totalSteps > 0 && 0 <= data.currentStep <= data.totalSteps
      modifies this, data
      ensures data.currentStep == old(data.currentStep) + 1
      ensures keep <==> data.currentStep <= data.totalSteps
      ensures trace == old(trace) + StepCalls(FadeOut, data.window, winX, old(data.currentStep), data.totalSteps, 0, 0)
                                  + (if keep then [] else FinishCalls(FadeOut, data.window))
      ensures keep ==> window == old(window) && shown == old(shown) && timerId == old(timerId)
      ensures !keep ==> window == None && !shown && timerId == 0
      ensures sources == old(sources) && winX == old(winX) && winY == old(winY) && nextId == old(nextId)
    {
      trace := trace + [SetOpacity(data.window, FadeOutOpacity(data.currentStep, data.totalSteps))];
      data.currentStep := data.currentStep + 1;
      if data.currentStep > data.totalSteps {
        FinishExit(data.window);
        return false;
      }
      return true;
    }

    /** slide_up_fade_func: one exit step that also moves the window up to `start_y - offset`. */
    method SlideUpFadeFunc(data: SlideFadeData) returns (keep: bool)
      requires data.totalSteps > 0 && 0 <= data.currentStep <= data.totalSteps && data.moveDistance >= 0
      modifies this, data
      ensures data.currentStep == old(data.currentStep) + 1
      ensures keep <==> data.currentStep <= data.totalSteps
      ensures trace == old(trace)
        + StepCalls(SlideUp, data.window, winX, old(data.currentStep), data.totalSteps, data.startY, data.moveDistance)
        + (if keep then [] else FinishCalls(SlideUp, data.window))
      ensures winY == data.startY - YOffset(data.moveDistance, old(data.currentStep), data.totalSteps)
      ensures keep ==> window == old(window) && shown == old(shown) && timerId == old(timerId)
      ensures !keep ==> window == None && !shown && timerId == 0
      ensures sources == old(sources) && winX == old(winX) && nextId == old(nextId)
    {
      var offset := YOffset(data.moveDistance, data.currentStep, data.totalSteps);
      trace := trace + [SetOpacity(data.window, FadeOutOpacity(data.currentStep, data.totalSteps))];
      winY := data.startY - offset;
      trace := trace + [Move(data.window, winX, winY)];
      data.currentStep := data.currentStep + 1;
      if data.currentStep > data.totalSteps {
        FinishExit(data.window);
        return false;
      }
      return true;
    }

    /** slide_down_fade_func: one exit step that also moves the window down to `start_y + offset`. */
    method SlideDownFadeFunc(data: SlideFadeData) returns (keep: bool)
      requires data.totalSteps > 0 && 0 <= data.currentStep <= data.totalSteps && data.moveDistance >= 0
      modifies this, data
      ensures data.currentStep == old(data.currentStep) + 1
      ensures keep <==> data.currentStep <= data.totalSteps
      ensures trace == old(trace)
        + StepCalls(SlideDown, data.window, winX, old(data.currentStep), data.totalSteps, data.startY, data.moveDistance)
        + (if keep then [] else FinishCalls(SlideDown, data.window))
      ensures winY == data.startY + YOffset(data.moveDistance, old(data.currentStep), data.totalSteps)
      ensures keep ==> window == old(window) && shown == old(shown) && timerId == old(timerId)
      ensures !keep ==> window == None && !shown && timerId == 0
      ensures sources == old(sources) && winX == old(winX) && nextId == old(nextId)
    {
      var offset := YOffset(data.moveDistance, data.currentStep, data.totalSteps);
      trace := trace + [SetOpacity(data.window, FadeOutOpacity(data.currentStep, data.totalSteps))];
      winY := data.startY + offset;
      trace := trace + [Move(data.window, winX, winY)];
      data.currentStep := data.currentStep + 1;
      if data.currentStep > data.totalSteps {
        FinishExit(data.window);
        return false;
      }
      return true;
    }

    /**
     * The "destroy" signal, connected to gtk_widget_destroyed: when the
     * window is destroyed from outside (the window manager closing it), the
     * handler nulls splash_window and leaves splash_shown as it is. Modelled
     * while no animation runs: a live callback would go on using the
     * destroyed widget through its record.
     */
    method WindowDestroyed()
      requires Valid() && window.Some? && timerId == 0
      modifies this`window
      ensures Valid() && window == None
    {
      window := None;
    }

    /**
     * The main loop firing the live timeout source: its callback runs, and
     * the source is removed when the callback answers G_SOURCE_REMOVE. Each
     * firing makes the next calls of the pending run and brings the end one
     * firing closer.
     */
    method Fire()
      requires Valid() && timerId > 0
      modifies this, Footprint()
      ensures Valid()
      ensures Remaining() == old(Remaining()) - 1
      ensures trace + Pending() == old(trace + Pending())
      ensures timerId == 0 ==> sources == map[]
      ensures timerId > 0 ==> timerId == old(timerId) && sources == old(sources)
      ensures timerId == 0 && old(LiveCallback()) != FadeIn ==> window == None && !shown
      ensures old(LiveCallback()) == FadeIn ==> window == old(window) && shown == old(shown)
    {
      match sources[timerId] {
        case FadeInTimer(d) => FireFadeIn(d);
        case FadeOutTimer(d) => FireFadeOut(d);
        case SlideUpTimer(d) => FireSlideUp(d);
        case SlideDownTimer(d) => FireSlideDown(d);
      }
    }

    method FireFadeIn(d: FadeData)
      requires Valid() && timerId > 0 && sources[timerId] == FadeInTimer(d)
      modifies this, d
      ensures Valid()
      ensures Remaining() == old(Remaining()) - 1
      ensures trace + Pending() == old(trace + Pending())
      ensures timerId == 0 ==> sources == map[]
      ensures timerId > 0 ==> timerId == old(timerId) && sources == old(sources)
      ensures window == old(window) && shown == old(shown)
    {
      ghost var w, step, x := d.window, d.currentStep, winX;
      ghost var run := Run(FadeIn, w, x, step, FADE_IN_STEPS, 0, 0);
      ghost var steps := StepCalls(FadeIn, w, x, step, FADE_IN_STEPS, 0, 0);
      RunUnfold(FadeIn, w, x, step, FADE_IN_STEPS, 0, 0);
      assert Pending() == run && Remaining() == FADE_IN_STEPS - step + 1;
      ghost var t0 := trace;
      var keep := FadeInFunc(d);
      assert keep ==> trace == t0 + steps;
      assert !keep ==> trace == t0 + steps + FinishCalls(FadeIn, w);
      if !keep {
        sources := map[];
        assert Valid() && Pending() == [];
        AppendEmpty(trace);
      } else {
        assert sources[timerId] == FadeInTimer(d) && sources[timerId].Step() == step + 1;
        assert Valid();
        assert Pending() == Run(FadeIn, w, x, step + 1, FADE_IN_STEPS, 0, 0);
        AppendAssoc(t0, steps, Run(FadeIn, w, x, step + 1, FADE_IN_STEPS, 0, 0));
      }
    }

    method FireFadeOut(d: FadeData)
      requires Valid() && timerId > 0 && sources[timerId] == FadeOutTimer(d)
      modifies this, d
      ensures Valid()
      ensures Remaining() == old(Remaining()) - 1
      ensures trace + Pending() == old(trace + Pending())
      ensures timerId == 0 ==> sources == map[] && window == None && !shown
      ensures timerId > 0 ==> timerId == old(timerId) && sources == old(sources)
    {
      ghost var w, step, x := d.window, d.currentStep, winX;
      ghost var run := Run(FadeOut, w, x, step, EXIT_STEPS, 0, 0);
      ghost var steps := StepCalls(FadeOut, w, x, step, EXIT_STEPS, 0, 0);
      RunUnfold(FadeOut, w, x, step, EXIT_STEPS, 0, 0);
      assert Pending() == run && Remaining() == EXIT_STEPS - step + 1;
      ghost var t0 := trace;
      var keep := FadeOutFunc(d);
      assert keep ==> trace == t0 + steps;
      assert !keep ==> trace == t0 + steps + FinishCalls(FadeOut, w);
      if !keep {
        sources := map[];
        assert Valid() && Pending() == [];
        AppendEmpty(trace);
      } else {
        assert sources[timerId] == FadeOutTimer(d) && sources[timerId].Step() == step + 1;
        assert Valid();
        assert Pending() == Run(FadeOut, w, x, step + 1, EXIT_STEPS, 0, 0);
        AppendAssoc(t0, steps, Run(FadeOut, w, x, step + 1, EXIT_STEPS, 0, 0));
      }
    }

    method FireSlideUp(d: SlideFadeData)
      requires Valid() && timerId > 0 && sources[timerId] == SlideUpTimer(d)
      modifies this, d
      ensures Valid()
      ensures Remaining() == old(Remaining()) - 1
      ensures trace + Pending() == old(trace + Pending())
      ensures timerId == 0 ==> sources == map[] && window == None && !shown
      ensures timerId > 0 ==> timerId == old(timerId) && sources == old(sources)
    {
      ghost var w, step, x, y0 := d.window, d.currentStep, winX, d.startY;
      ghost var run := Run(SlideUp, w, x, step, EXIT_STEPS, y0, MOVE_DISTANCE);
      ghost var steps := StepCalls(SlideUp, w, x, step, EXIT_STEPS, y0, MOVE_DISTANCE);
      RunUnfold(SlideUp, w, x, step, EXIT_STEPS, y0, MOVE_DISTANCE);
      assert Pending() == run && Remaining() == EXIT_STEPS - step + 1;
      ghost var t0 := trace;
      var keep := SlideUpFadeFunc(d);
      assert keep ==> trace == t0 + steps;
      assert !keep ==> trace == t0 + steps + [DestroyWidget(w)];
      if !keep {
        sources := map[];
        assert Valid() && Pending() == [];
        AppendEmpty(trace);
      } else {
        assert sources[timerId] == SlideUpTimer(d) && sources[timerId].Step() == step + 1;
        assert Valid();
        assert Pending() == Run(SlideUp, w, x, step + 1, EXIT_STEPS, y0, MOVE_DISTANCE);
        AppendAssoc(t0, steps, Run(SlideUp, w, x, step + 1, EXIT_STEPS, y0, MOVE_DISTANCE));
      }
    }

    method FireSlideDown(d: SlideFadeData)
      requires Valid() && timerId > 0 && sources[timerId] == SlideDownTimer(d)
      modifies this, d
      ensures Valid()
      ensures Remaining() == old(Remaining()) - 1
      ensures trace + Pending() == old(trace + Pending())
      ensures timerId == 0 ==> sources == map[] && window == None && !shown
      ensures timerId > 0 ==> timerId == old(timerId) && sources == old(sources)
    {
      ghost var w, step, x, y0 := d.window, d.currentStep, winX, d.startY;
      ghost var run := Run(SlideDown, w, x, step, EXIT_STEPS, y0, MOVE_DISTANCE);
      ghost var steps := StepCalls(SlideDown, w, x, step, EXIT_STEPS, y0, MOVE_DISTANCE);
      RunUnfold(SlideDown, w, x, step, EXIT_STEPS, y0, MOVE_DISTANCE);
      assert Pending() == run && Remaining() == EXIT_STEPS - step + 1;
      ghost var t0 := trace;
      var keep := SlideDownFadeFunc(d);
      assert keep ==> trace == t0 + steps;
      assert !keep ==> trace == t0 + steps + [DestroyWidget(w)];
      if !keep {
        sources := map[];
        assert Valid() && Pending() == [];
        AppendEmpty(trace);
      } else {
        assert sources[timerId] == SlideDownTimer(d) && sources[timerId].Step() == step + 1;
        assert Valid();
        assert Pending() == Run(SlideDown, w, x, step + 1, EXIT_STEPS, y0, MOVE_DISTANCE);
        AppendAssoc(t0, steps, Run(SlideDown, w, x, step + 1, EXIT_STEPS, y0, MOVE_DISTANCE));
      }
    }

    /**
     * Letting the main loop run until the live timer is gone: it fires
     * exactly Remaining() times and makes exactly the pending calls; an exit
     * animation ends with the window destroyed and the splash no longer shown.
     */
    method RunTimer() returns (fired: nat)
      requires Valid()
      modifies this, Footprint()
      ensures Valid()
      ensures fired == old(Remaining())
      ensures timerId == 0 && sources == map[]
      ensures trace == old(trace + Pending())
      ensures old(timerId) > 0 && old(LiveCallback()) != FadeIn ==> window == None && !shown
      ensures old(timerId) == 0 || old(LiveCallback()) == FadeIn ==> window == old(window) && shown == old(shown)
    {
      fired := 0;
      ghost var exit := old(timerId) > 0 && old(LiveCallback()) != FadeIn;
      ghost var data := if old(timerId) > 0 then {old(sources[timerId].Data())} else {};
      while timerId > 0
        invariant Valid()
        invariant Footprint() <= data
        invariant fired + Remaining() == old(Remaining())
        invariant trace + Pending() == old(trace + Pending())
        invariant timerId > 0 ==> timerId == old(timerId) && LiveCallback() == old(LiveCallback())
        invariant timerId == 0 && exit ==> window == None && !shown
        invariant !exit ==> window == old(window) && shown == old(shown)
        decreases Remaining()
      {
        Fire();
        fired := fired + 1;
      }
    }
  }

  /** The callback each exit effect runs on its timer. */
  function ExitCallback(k: CloseKind): Callback
    requires k != Immediate
  {
    match k
    case Fade => FadeOut
    case SlideUpFade => SlideUp
    case SlideDownFade => SlideDown
  }

  /** The calls an exit effect's timer is going to make, for window `w` at (x, y). */
  function ExitRun(k: CloseKind, w: nat, x: int, y: int): seq<GtkCall>
    requires k != Immediate
  {
    if k == Fade then Run(FadeOut, w, x, 0, EXIT_STEPS, 0, 0)
    else Run(ExitCallback(k), w, x, 0, EXIT_STEPS, y, MOVE_DISTANCE)
  }

  /**
   * A window destroyed from outside leaves splash_shown raised: an animated
   * close then finds no window and returns without lowering it, and
   * show_splash_screen keeps refusing to show a new window.
   */
  method ExternallyDestroyedWindow() returns (s: GtkSplashScreen)
    ensures fresh(s) && s.Valid() && !s.withAnimation && s.nextId == 2
    ensures s.shown && s.window == None && s.timerId == 0
    ensures s.trace == [NewWindow(1), ShowAll(1)]
  {
    s := new GtkSplashScreen(false);
    s.ShowSplashScreen(true, 0, 0);
    s.WindowDestroyed();
    s.CloseSplashScreen(Some(FADE));
    s.ShowSplashScreen(true, 0, 0);
  }

  /** Only an immediate close lowers the stale flag, after which a show opens a new window. */
  method ImmediateCloseClearsStaleFlag() returns (s: GtkSplashScreen)
    ensures s.Valid() && s.shown && s.window == Some(2)
    ensures s.trace == [NewWindow(1), ShowAll(1), NewWindow(2), ShowAll(2)]
  {
    s := ExternallyDestroyedWindow();
    s.CloseSplashScreen(None);
    assert !s.shown && s.trace == [NewWindow(1), ShowAll(1)];
    s.ShowSplashScreen(true, 0, 0);
  }

  /** The effect close_splash_screen selects: NULL, empty and unknown effects close at once. */
  function EffectKind(effect: Option<string>): (k: CloseKind)
    ensures k == Immediate <==> effect.None? || (effect.value != FADE && effect.value != SLIDE_UP_FADE && effect.value != SLIDE_DOWN_FADE)
    ensures k != Immediate ==> Name(k) == effect.value
  {
    if effect.None? || effect.value == "" then Immediate
    else if effect.value == FADE then Fade
    else if effect.value == SLIDE_UP_FADE then SlideUpFade
    else if effect.value == SLIDE_DOWN_FADE then SlideDownFade
    else Immediate
  }
}
