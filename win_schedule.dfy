/**
 * The Windows animation schedules: counted loops in integer arithmetic that
 * give the constant alpha and window top of each layered-window update.
 */
module WinSchedule {
  import CInt
  import opened Effects

  /** C's conversion to `BYTE`: the value modulo 256. */
  function ToByte(v: int): int {
    v % 256
  }

  /** Step i of an exit loop: `(BYTE)(255 * (steps - i) / steps)`. */
  function ExitAlpha(i: int): (a: int)
    requires 0 <= i <= EXIT_STEPS
    ensures 0 <= a <= 255
    ensures a == (255 * (EXIT_STEPS - i)) / EXIT_STEPS
    ensures i == 0 ==> a == 255
    ensures i == EXIT_STEPS ==> a == 0
  {
    ToByte(CInt.Div(255 * (EXIT_STEPS - i), EXIT_STEPS))
  }

  /** The constant alpha never increases from one exit step to the next. */
  lemma ExitAlphaNonIncreasing(i: int, j: int)
    requires 0 <= i <= j <= EXIT_STEPS
    ensures ExitAlpha(j) <= ExitAlpha(i)
  {
    CInt.DivMonotone(255 * (EXIT_STEPS - j), 255 * (EXIT_STEPS - i), EXIT_STEPS);
  }

  /** The slide of step i: `(move_distance * i) / steps`. */
  function SlideOffset(i: int): (d: int)
    requires 0 <= i <= EXIT_STEPS
    ensures 0 <= d <= MOVE_DISTANCE
    ensures i == 0 ==> d == 0
    ensures i == EXIT_STEPS ==> d == MOVE_DISTANCE
  {
    CInt.Div(MOVE_DISTANCE * i, EXIT_STEPS)
  }

  /** The window top at exit step i, starting from `top`. */
  function ExitY(kind: CloseKind, top: int, i: int): (y: int)
    requires kind != Immediate && 0 <= i <= EXIT_STEPS
    ensures i == 0 ==> y == top
  {
    match kind
    case Fade => top
    case SlideUpFade => top - SlideOffset(i)
    case SlideDownFade => top + SlideOffset(i)
  }

  /**
   * The exit position moves one way only and ends exactly 50 pixels from
   * the start (up for slide-up, down for slide-down, nowhere for a fade).
   */
  lemma ExitYMonotone(kind: CloseKind, top: int, i: int, j: int)
    requires kind != Immediate && 0 <= i <= j <= EXIT_STEPS
    ensures kind == Fade ==> ExitY(kind, top, j) == top
    ensures kind == SlideUpFade ==> ExitY(kind, top, j) <= ExitY(kind, top, i)
    ensures kind == SlideDownFade ==> ExitY(kind, top, j) >= ExitY(kind, top, i)
    ensures kind == SlideUpFade ==> ExitY(kind, top, EXIT_STEPS) == top - MOVE_DISTANCE
    ensures kind == SlideDownFade ==> ExitY(kind, top, EXIT_STEPS) == top + MOVE_DISTANCE
  {
    CInt.DivMonotone(MOVE_DISTANCE * i, MOVE_DISTANCE * j, EXIT_STEPS);
  }

  const FADE_IN_STEP: int := 25

  /**
   * The alphas of `for (alpha = 0; alpha <= 255; alpha += 25)`, as the
   * multiples of 25 that do not exceed 255, in increasing order.
   */
  function FadeInAlphas(): seq<int> {
    seq(255 / FADE_IN_STEP + 1, k => FADE_IN_STEP * k)
  }

  /**
   * The fade-in applies eleven alphas, 0, 25, ..., 250: all of them bytes,
   * strictly increasing, and never the full 255.
   */
  lemma FadeInAlphasShape()
    ensures |FadeInAlphas()| == 11
    ensures FadeInAlphas()[0] == 0 && FadeInAlphas()[10] == 250
    ensures forall k :: 0 <= k < 10 ==> FadeInAlphas()[k] < FadeInAlphas()[k + 1]
    ensures forall a :: a in FadeInAlphas() <==> 0 <= a <= 255 && a % FADE_IN_STEP == 0
    ensures 255 !in FadeInAlphas()
  {
    var s := FadeInAlphas();
    forall a | 0 <= a <= 255 && a % FADE_IN_STEP == 0 ensures a in s {
      assert s[a / FADE_IN_STEP] == a;
    }
  }
}
