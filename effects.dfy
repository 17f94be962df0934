/** The exit effects a close request can select, and their names on the channel. */
module Effects {
  datatype CloseKind = Immediate | Fade | SlideUpFade | SlideDownFade

  const FADE: string := "fade"
  const SLIDE_UP_FADE: string := "slide_up_fade"
  const SLIDE_DOWN_FADE: string := "slide_down_fade"

  /** The channel name of an animated close. */
  function Name(k: CloseKind): string
    requires k != Immediate
  {
    match k
    case Fade => FADE
    case SlideUpFade => SLIDE_UP_FADE
    case SlideDownFade => SLIDE_DOWN_FADE
  }

  /** The exit animations' common schedule: 30 steps of 10 ms and a 50-pixel slide. */
  const EXIT_STEPS: int := 30
  const EXIT_DURATION_MS: int := 300
  const MOVE_DISTANCE: int := 50
}
