# native_splash_screen — a verified model of the three desktop splash plugins

The plugin shows a borderless splash window while a desktop application starts.
It closes that window when the application sends `close` on its method channel,
either at once or with one of three exit effects: `fade`, `slide_up_fade` and
`slide_down_fade`. There is one native implementation per platform:

- **Windows** (C++).
  - A layered window draws a premultiplied W x H back-buffer.
  - The image is stamped into that buffer pixel by pixel.
  - Fades and slides are counted loops of `UpdateLayeredWindow` calls.
- **Linux** (C, GTK).
  - A GTK window appears and disappears through GLib timeout callbacks.
  - Each callback advances a `FadeData` or `SlideFadeData` record by one step.
- **macOS** (Swift, AppKit).
  - An `NSWindow` is held in two statics.
  - It is closed from an `NSAnimationContext` completion handler.

The model is organised as follows:

- One module per source component:
  - `WinChannel`, `WinPixels`, `WinSchedule` and `WinSplash` for Windows;
  - `GtkChannel`, `GtkSchedule` and `GtkSplash` for Linux;
  - `MacChannel` and `MacSplash` for macOS.
- Shared vocabulary:
  - `Channel` holds the decoded channel value and the reply;
  - `Effects` holds the effect names and the 30-step, 300 ms, 50-pixel exit schedule;
  - `CInt` holds C's truncating division;
  - `Options` holds the optional value.
- `CrossPlatform` relates the three implementations.

How each kind of source construct is modelled:

- **Global and static state** becomes a class per platform: `WinSplash.SplashWindows`, `GtkSplash.GtkSplashScreen` and `MacSplash.MacSplashScreen`. Methods update its fields exactly where the source assigns them.
- **Toolkit calls** (Win32/GDI, GTK/GLib, AppKit) are events appended to a `trace` field.
- **Toolkit results** are parameters. These are:
  - whether a window or a DIB could be created;
  - the work area;
  - the window position GTK centres to;
  - the main screen's visible frame;
  - whether Core Graphics builds the image.
- **The back-buffer** is an `array` updated in place.
- **Linux timers** are a map of live GLib sources. Each firing of a timer is one call of `Fire`.
- **Pending timer work.** Ghost functions `Pending` and `Remaining` give every call a live timer will still make, and how many firings are left. Every firing preserves `trace + Pending()`.
- **A GTK opacity** `(double)n / d` is the exact ratio `Ratio(n, d)`, whose `Value()` is a `real`.
- **Integer offsets** use C's division explicitly.

Where the code and the documented intent differ, the model follows the code:

- The GTK step callbacks do not re-check the window handle when they fire. Only the cancellation in `cleanup_animation_timer` keeps a stale callback away.
- The GTK window's "destroy" handler (`gtk_widget_destroyed`) nulls `splash_window` but leaves `splash_shown` raised. After the window is destroyed from outside, an animated close returns at the missing window and a show is still refused; only an immediate close lowers the flag (`GtkSplash.ExternallyDestroyedWindow`, `GtkSplash.ImmediateCloseClearsStaleFlag`).
- The Windows window is placed at half the work area's spare room, measured from the screen's origin rather than the work area's (see Findings).
- The Windows renderer has no guard for non-positive image sizes. Its loops simply do not run, to the same effect.
- The Windows fade-in's comment says 10 steps. The loop applies 11 alphas, 0 to 250, and never 255 (`WinSchedule.FadeInAlphasShape`).

## Model

| member | source | states |
|---|---|---|
| CInt.Div | native_splash_screen_windows/windows/native_splash_screen_windows_plugin.cpp:218-219 | C's `/`: the remainder lies strictly inside (-\|b\|, \|b\|) and has the sign of the dividend, i.e. the quotient truncates toward zero |
| WinChannel.DecodeMethodCall | native_splash_screen_windows/windows/native_splash_screen_windows_plugin.cpp:50-76 | a non-close method is NotImplemented and closes nothing; close with no map or no `effect` closes with ""; a string effect is passed on; a non-string effect is Error(INVALID_ARGUMENT) and closes nothing; a close happens exactly when the reply is success |
| WinPixels.Pack | native_splash_screen_windows/windows/native_splash_screen_windows_plugin.cpp:128-129 | ORing the shifted bytes gives a 32-bit word whose four channels read back as the bytes packed |
| WinPixels.Unpack | native_splash_screen_windows/windows/native_splash_screen_windows_plugin.cpp:119-122 | re-packing the four bytes extracted by shift-and-mask gives back the original word |
| WinPixels.Scale | native_splash_screen_windows/windows/native_splash_screen_windows_plugin.cpp:127-128 | a scaled channel never exceeds the channel; alpha 255 keeps it, alpha 0 zeroes it |
| WinPixels.ConvertARGBtoPremultipliedBGRA | native_splash_screen_windows/windows/native_splash_screen_windows_plugin.cpp:118-130 | alpha 0 gives 0 whatever the colour; otherwise the alpha byte is kept; alpha 255 returns the word unchanged; no colour channel grows |
| WinPixels.Offset | native_splash_screen_windows/windows/native_splash_screen_windows_plugin.cpp:136-143 | the offset is never negative; a fitting image is centred by `(outer - inner) / 2` and ends inside the buffer; an oversized one is pinned at 0 |
| WinPixels.CenteringExample | native_splash_screen_windows/windows/native_splash_screen_windows_plugin.cpp:136-139 | a 50 x 50 image in a 200 x 100 window is placed at (75, 25) |
| WinPixels.StepOutside | native_splash_screen_windows/windows/native_splash_screen_windows_plugin.cpp:149-151 | skipping a pixel that lands outside the buffer changes no cell of the specification |
| WinPixels.StepTransparent | native_splash_screen_windows/windows/native_splash_screen_windows_plugin.cpp:156-158 | skipping a fully transparent pixel changes no cell of the specification |
| WinPixels.StepWrites | native_splash_screen_windows/windows/native_splash_screen_windows_plugin.cpp:153-160 | the destination index is inside the buffer, the source index inside the image; only that cell changes, and it receives the converted pixel |
| WinPixels.ScanPixel | native_splash_screen_windows/windows/native_splash_screen_windows_plugin.cpp:146-161 | one inner-loop pass moves the whole buffer from the state before pixel (x, y) to the state after it |
| WinPixels.RenderSplashContent | native_splash_screen_windows/windows/native_splash_screen_windows_plugin.cpp:132-163 | no buffer or no image: nothing changes; otherwise the buffer becomes exactly `Rendered(c, old buffer)` |
| WinPixels.PixelLands | native_splash_screen_windows/windows/native_splash_screen_windows_plugin.cpp:145-160 | each image pixel whose target `dst_y * W + dst_x` is in the buffer ends up there, converted; a transparent one leaves the old value, an opaque one is copied verbatim |
| WinPixels.OnlyImageCellsChange | native_splash_screen_windows/windows/native_splash_screen_windows_plugin.cpp:149-154 | a cell that changes is the target of some image pixel, with both destination coordinates inside the buffer |
| WinPixels.TransparentImageKeepsBuffer | native_splash_screen_windows/windows/native_splash_screen_windows_plugin.cpp:156-158 | a fully transparent image leaves the whole buffer as it was |
| WinSchedule.ExitAlpha | native_splash_screen_windows/windows/native_splash_screen_windows_plugin.cpp:325 | step i's constant alpha is the byte `255 * (30 - i) / 30`: 255 at step 0 and 0 at step 30 |
| WinSchedule.ExitAlphaNonIncreasing | native_splash_screen_windows/windows/native_splash_screen_windows_plugin.cpp:324-325 | the exit alpha never increases from one step to a later one |
| WinSchedule.SlideOffset | native_splash_screen_windows/windows/native_splash_screen_windows_plugin.cpp:375 | the slide `(50 * i) / 30` lies in [0, 50], 0 at the start and 50 at the end |
| WinSchedule.ExitY | native_splash_screen_windows/windows/native_splash_screen_windows_plugin.cpp:373-375 | every exit starts at the window's top |
| WinSchedule.ExitYMonotone | native_splash_screen_windows/windows/native_splash_screen_windows_plugin.cpp:422-424 | a fade stays at its top; slide-up only rises and slide-down only sinks; each slide ends exactly 50 pixels from the top |
| WinSchedule.FadeInAlphasShape | native_splash_screen_windows/windows/native_splash_screen_windows_plugin.cpp:236 | the fade-in alphas are the 11 multiples of 25 in [0, 255], strictly increasing from 0 to 250; 255 is never applied |
| WinSplash.EffectKind | native_splash_screen_windows/windows/native_splash_screen_windows_plugin.cpp:259-271 | an exit animation is chosen exactly for the three names, and it is the one each names; everything else closes at once |
| WinSplash.FadeInFrames | native_splash_screen_windows/windows/native_splash_screen_windows_plugin.cpp:234-239 | one layered update per fade-in alpha |
| WinSplash.ExitFrames | native_splash_screen_windows/windows/native_splash_screen_windows_plugin.cpp:324-331 | 31 layered updates, one for each step 0 to 30 |
| WinSplash.ShowCalls | native_splash_screen_windows/windows/native_splash_screen_windows_plugin.cpp:224-242 | a successful show's calls: create, place, DIB section (the next handle), ShowWindow, then only layered updates of that window, ending at alpha 250 when animated and 255 otherwise |
| WinSplash.SplashWindows.constructor | native_splash_screen_windows/windows/native_splash_screen_windows_plugin.cpp:81-84 | the globals start with no window, no bitmap, no buffer and not shown |
| WinSplash.SplashWindows.SplashWndProc | native_splash_screen_windows/windows/native_splash_screen_windows_plugin.cpp:86-102 | WM_DESTROY for the splash window forgets it and clears the shown flag, and for any other window changes nothing; WM_ERASEBKGND returns 1; other messages go to the default procedure |
| WinSplash.SplashWindows.DestroyWindowOf | native_splash_screen_windows/windows/native_splash_screen_windows_plugin.cpp:91-96 | DestroyWindow delivers WM_DESTROY at once, so destroying the splash window clears the window and the shown flag |
| WinSplash.SplashWindows.UpdateSplashWindow | native_splash_screen_windows/windows/native_splash_screen_windows_plugin.cpp:165-191 | one layered update at the window's position when there is a window and a buffer, none otherwise |
| WinSplash.SplashWindows.CloseSplashWindowWithoutAnimation | native_splash_screen_windows/windows/native_splash_screen_windows_plugin.cpp:274-291 | not shown: nothing changes; shown: the bitmap is deleted, the window destroyed, and the window, bitmap, buffer and flag cleared |
| WinSplash.SplashWindows.ExitLoop | native_splash_screen_windows/windows/native_splash_screen_windows_plugin.cpp:324-331 | the loop appends exactly the 31 frames of the exit schedule |
| WinSplash.SplashWindows.CloseWithExitAnimation | native_splash_screen_windows/windows/native_splash_screen_windows_plugin.cpp:293-340 | no window: nothing changes; otherwise the 31 frames, then DestroyWindow; the flag is cleared only through WM_DESTROY; the bitmap and buffer are kept |
| WinSplash.SplashWindows.CloseSplashWindowWithFade | native_splash_screen_windows/windows/native_splash_screen_windows_plugin.cpp:293-340 | the fade schedule at a fixed top, then destruction; the bitmap is not released |
| WinSplash.SplashWindows.CloseSplashWindowSlideUpFade | native_splash_screen_windows/windows/native_splash_screen_windows_plugin.cpp:342-389 | the slide-up schedule, then destruction; the bitmap is not released |
| WinSplash.SplashWindows.CloseSplashWindowSlideDownFade | native_splash_screen_windows/windows/native_splash_screen_windows_plugin.cpp:391-438 | the slide-down schedule, then destruction; the bitmap is not released |
| WinSplash.SplashWindows.CloseSplashScreen | native_splash_screen_windows/windows/native_splash_screen_windows_plugin.cpp:255-272 | its outcome `ClosedBy(effect)`: not shown: nothing changes; otherwise no window and not shown; empty or unknown effects delete the bitmap and destroy the window, in that order, and clear the buffer; the three names run their 31 frames from the old position, destroy the window and keep the bitmap; the position and handle counter are kept |
| WinSplash.SplashWindows.HandleMethodCall | native_splash_screen_windows/windows/native_splash_screen_windows_plugin.cpp:47-77 | the reply is the decoder's; a refused or unknown call changes nothing; a close has exactly the outcome `ClosedBy` of CloseSplashScreen with the decoded effect, so a close when not shown changes nothing |
| WinSplash.SplashWindows.CreateSplashWindow | native_splash_screen_windows/windows/native_splash_screen_windows_plugin.cpp:208-222 | a failed creation leaves no window; otherwise a fresh handle at `(right - left - W) / 2`, `(bottom - top - H) / 2` by C division: half the spare room, measured from the screen's origin and not the work area's; the bitmap is untouched |
| WinSplash.SplashWindows.PaintBitmap | native_splash_screen_windows/windows/native_splash_screen_windows_plugin.cpp:224-231 | a fresh zeroed W x H buffer with the image stamped in, and a fresh bitmap handle |
| WinSplash.SplashWindows.FadeInLoop | native_splash_screen_windows/windows/native_splash_screen_windows_plugin.cpp:236-239 | the loop appends exactly the fade-in frames |
| WinSplash.SplashWindows.Present | native_splash_screen_windows/windows/native_splash_screen_windows_plugin.cpp:224-249 | no DIB: nothing is shown and no call is made; otherwise the buffer holds the rendered image, the window is shown, the fade-in or one opaque update follows, and the flag is set |
| WinSplash.SplashWindows.ShowSplashScreen | native_splash_screen_windows/windows/native_splash_screen_windows_plugin.cpp:193-253 | as written: shown: nothing changes; a failed window: no window and nothing else changes; otherwise placed as CreateSplashWindow says; success gives the next handle as bitmap, the rendered buffer and exactly `ShowCalls` (create, place, DIB, ShowWindow, then the fade-in or one opaque update); a failed DIB leaves the window alive and unregistered as shown, which breaks NoStrayWindow |
| WinSplash.SplashWindows.ShowSplashScreenFixed | native_splash_screen_windows/windows/native_splash_screen_windows_plugin.cpp:230-252 | corrected: a failed window changes nothing but the window; a failed DIB destroys the new window and leaves no bitmap or buffer; success is as for ShowSplashScreen; shown exactly when both creations succeed; NoStrayWindow is kept |
| WinSplash.LeakedWindowsAsWritten | native_splash_screen_windows/windows/native_splash_screen_windows_plugin.cpp:250-252 | two shows whose DIB fails create windows 1 and 2 and destroy neither |
| WinSplash.NoLeakedWindowsFixed | native_splash_screen_windows/windows/native_splash_screen_windows_plugin.cpp:250-252 | with the correction, the same two shows destroy both windows and leave none |
| WinSplash.PlacementIgnoresWorkAreaOrigin | native_splash_screen_windows/windows/native_splash_screen_windows_plugin.cpp:216-219 | as written, a window that fits has `2 * left + (room % 2)` more room on its right than on its left: it is centred only when the work area starts at 0 |
| WinSplash.CentredPlacement | native_splash_screen_windows/windows/native_splash_screen_windows_plugin.cpp:216-219 | corrected: adding the work area's origin keeps the window inside the work area with its two margins equal up to the odd pixel |
| GtkChannel.DecodeMethodCallAsWritten | native_splash_screen_linux/linux/native_splash_screen_linux_plugin.cc:24-60 | close with no map or no `effect` passes NULL; a string effect is passed on; a non-string effect is Error(INVALID_ARGUMENT) and closes nothing; any other method gets the NULL response |
| GtkChannel.UnknownMethodUnanswered | native_splash_screen_linux/linux/native_splash_screen_linux_plugin.cc:26-59 | as written, every method other than "close" gets the null response and closes nothing, never NotImplemented |
| GtkChannel.DecodeMethodCall | native_splash_screen_linux/linux/native_splash_screen_linux_plugin.cc:24-60 | corrected: the close branch is unchanged, every other method is NotImplemented, and no call gets a null response |
| GtkSchedule.FadeInOpacity | native_splash_screen_linux/linux/native_splash_screen_linux_plugin.cc:395 | the fade-in ratio has `total_steps` as denominator and a numerator between 0 and it |
| GtkSchedule.FadeOutOpacity | native_splash_screen_linux/linux/native_splash_screen_linux_plugin.cc:421-422 | the exit ratio has `total_steps` as denominator, a numerator between 0 and it, and is the fade-in's complement |
| GtkSchedule.FadeInOpacityRange | native_splash_screen_linux/linux/native_splash_screen_linux_plugin.cc:395 | the fade-in opacity lies in [0, 1]; it is 0 exactly at step 0 and 1 exactly at the last step |
| GtkSchedule.FadeOutOpacityRange | native_splash_screen_linux/linux/native_splash_screen_linux_plugin.cc:421-422 | the exit opacity is one minus the fade-in's; it lies in [0, 1], is 1 exactly at step 0 and 0 exactly at the last step |
| GtkSchedule.FadeInNonDecreasing | native_splash_screen_linux/linux/native_splash_screen_linux_plugin.cc:395-399 | a later fade-in step is never less opaque |
| GtkSchedule.FadeOutNonIncreasing | native_splash_screen_linux/linux/native_splash_screen_linux_plugin.cc:421-426 | a later exit step is never more opaque |
| GtkSchedule.YOffset | native_splash_screen_linux/linux/native_splash_screen_linux_plugin.cc:457 | the slide offset lies in [0, distance], 0 at step 0 and exactly the distance at the last step |
| GtkSchedule.YOffsetMonotone | native_splash_screen_linux/linux/native_splash_screen_linux_plugin.cc:499 | the slide offset grows with the step |
| GtkSplash.FadeData.constructor | native_splash_screen_linux/linux/native_splash_screen_linux_plugin.cc:201-204 | a new fade record starts at step 0 for its window and step count |
| GtkSplash.SlideFadeData.constructor | native_splash_screen_linux/linux/native_splash_screen_linux_plugin.cc:298-303 | a new slide record starts at step 0 with its start y and distance |
| GtkSplash.RunOpacities | native_splash_screen_linux/linux/native_splash_screen_linux_plugin.cc:391-448 | a timer's remaining firings set the closed-form opacities of steps `step`..`total`, in order, then 1.0 for the fade-in |
| GtkSplash.FadeInRunBrightens | native_splash_screen_linux/linux/native_splash_screen_linux_plugin.cc:391-413 | a whole fade-in sets `total + 2` opacities in [0, 1], from 0 to 1, never decreasing, the last being exactly 1.0 |
| GtkSplash.ExitRunDims | native_splash_screen_linux/linux/native_splash_screen_linux_plugin.cc:417-438 | a whole exit sets `total + 1` opacities in [0, 1], from 1 to 0, never increasing |
| GtkSplash.SlideStepMoves | native_splash_screen_linux/linux/native_splash_screen_linux_plugin.cc:455-465 | one slide firing sets the opacity, then moves the window, at its own x, inside the 50-pixel band, to the band's end on the last step |
| GtkSplash.SlideRunEnds | native_splash_screen_linux/linux/native_splash_screen_linux_plugin.cc:465-481 | a slide run's last move is to exactly `start_y ∓ distance`, and the window is destroyed right after |
| GtkSplash.SlideRunMoves | native_splash_screen_linux/linux/native_splash_screen_linux_plugin.cc:507 | every move of a slide run is of the splash window, at its own x, inside the band |
| GtkSplash.EffectKind | native_splash_screen_linux/linux/native_splash_screen_linux_plugin.cc:225-235 | an animation is chosen exactly for the three names, and it is the one each names; NULL, empty and unknown effects close at once |
| GtkSplash.ExternallyDestroyedWindow | native_splash_screen_linux/linux/native_splash_screen_linux_plugin.cc:219-236 | after the window is destroyed from outside, a "fade" close returns at the missing window and a second show is refused: the flag stays raised with no window |
| GtkSplash.ImmediateCloseClearsStaleFlag | native_splash_screen_linux/linux/native_splash_screen_linux_plugin.cc:239-254 | an immediate close then lowers the stale flag, and the next show opens a new window |
| GtkSplash.GtkSplashScreen.constructor | native_splash_screen_linux/linux/native_splash_screen_linux_plugin.cc:99-101 | no window, not shown, timer id 0, no live source |
| GtkSplash.GtkSplashScreen.CleanupAnimationTimer | native_splash_screen_linux/linux/native_splash_screen_linux_plugin.cc:129-134 | a live source is removed and the id zeroed; the window and flag are untouched |
| GtkSplash.GtkSplashScreen.AddTimer | native_splash_screen_linux/linux/native_splash_screen_linux_plugin.cc:207 | the new source gets a fresh id and becomes the one live timer |
| GtkSplash.GtkSplashScreen.ShowSplashScreen | native_splash_screen_linux/linux/native_splash_screen_linux_plugin.cc:137-216 | shown or GTK init failing: nothing changes; otherwise a new centred window and the flag set while the fade-in is still pending; the fade-in makes 11 firings whose calls are `Run(FadeIn, …)` |
| GtkSplash.GtkSplashScreen.CloseWithoutAnimation | native_splash_screen_linux/linux/native_splash_screen_linux_plugin.cc:239-254 | not shown: nothing changes; otherwise the live timer is removed, the window destroyed if there still is one, and the id, window and flag cleared |
| GtkSplash.GtkSplashScreen.CloseWithFade | native_splash_screen_linux/linux/native_splash_screen_linux_plugin.cc:257-277 | no window: nothing changes; otherwise the old timer is removed before the fade-out is added, leaving one live timer with 31 firings to go |
| GtkSplash.GtkSplashScreen.CloseSlideUpFade | native_splash_screen_linux/linux/native_splash_screen_linux_plugin.cc:280-308 | no window: nothing changes; otherwise the old timer is replaced by a slide up from the window's current y |
| GtkSplash.GtkSplashScreen.CloseSlideDownFade | native_splash_screen_linux/linux/native_splash_screen_linux_plugin.cc:311-339 | no window: nothing changes; otherwise the old timer is replaced by a slide down from the window's current y |
| GtkSplash.GtkSplashScreen.CloseSplashScreen | native_splash_screen_linux/linux/native_splash_screen_linux_plugin.cc:219-236 | its outcome `ClosedBy(effect)`: not shown: nothing changes; NULL, empty and unknown effects remove the timer, destroy any window and clear the flag with exactly those calls; a name with no window left changes nothing, so the flag stays raised; a name with a window replaces the timer by its own callback, 31 firings to go, whose pending calls are the exit run from the window's current position |
| GtkSplash.GtkSplashScreen.HandleMethodCall | native_splash_screen_linux/linux/native_splash_screen_linux_plugin.cc:24-60 | with the corrected reply: the reply is the decoder's; a refused call changes nothing; other methods are NotImplemented; a close has exactly the outcome `ClosedBy` of close_splash_screen with the decoded effect |
| GtkSplash.GtkSplashScreen.FadeInFunc | native_splash_screen_linux/linux/native_splash_screen_linux_plugin.cc:391-414 | sets opacity `step / total`, then increments the step; it stops exactly when the step passes `total`, then sets 1.0 and zeroes the id |
| GtkSplash.GtkSplashScreen.FinishExit | native_splash_screen_linux/linux/native_splash_screen_linux_plugin.cc:429-438 | an exit's completion destroys the window and clears the window, the flag and the id |
| GtkSplash.GtkSplashScreen.FadeOutFunc | native_splash_screen_linux/linux/native_splash_screen_linux_plugin.cc:417-448 | sets opacity `(total - step) / total` and increments; after the last step the window goes and the id is reset |
| GtkSplash.GtkSplashScreen.SlideUpFadeFunc | native_splash_screen_linux/linux/native_splash_screen_linux_plugin.cc:451-490 | sets the opacity, moves the window to `start_y - offset` and increments; after the last step the window goes |
| GtkSplash.GtkSplashScreen.SlideDownFadeFunc | native_splash_screen_linux/linux/native_splash_screen_linux_plugin.cc:493-532 | sets the opacity, moves the window to `start_y + offset` and increments; after the last step the window goes |
| GtkSplash.GtkSplashScreen.Fire | native_splash_screen_linux/linux/native_splash_screen_linux_plugin.cc:409 | one firing of the live source keeps the invariant (at most one live source, the one the id names); it makes the next pending calls and leaves one firing fewer; G_SOURCE_REMOVE removes the source |
| GtkSplash.GtkSplashScreen.FireFadeIn | native_splash_screen_linux/linux/native_splash_screen_linux_plugin.cc:391-414 | a fade-in firing keeps `trace + Pending()`, uses up one firing and never touches the window or flag |
| GtkSplash.GtkSplashScreen.FireFadeOut | native_splash_screen_linux/linux/native_splash_screen_linux_plugin.cc:417-448 | a fade-out firing keeps `trace + Pending()`; when it is the last, the source is gone and the window destroyed |
| GtkSplash.GtkSplashScreen.FireSlideUp | native_splash_screen_linux/linux/native_splash_screen_linux_plugin.cc:451-490 | as for the fade-out, for the slide-up callback |
| GtkSplash.GtkSplashScreen.FireSlideDown | native_splash_screen_linux/linux/native_splash_screen_linux_plugin.cc:493-532 | as for the fade-out, for the slide-down callback |
| GtkSplash.GtkSplashScreen.RunTimer | native_splash_screen_linux/linux/native_splash_screen_linux_plugin.cc:437-438 | the live timer fires exactly `Remaining()` times and makes exactly the pending calls; an exit ends with no window and not shown; a fade-in leaves both as they were |
| GtkSplash.GtkSplashScreen.WindowDestroyed | native_splash_screen_linux/linux/native_splash_screen_linux_plugin.cc:183-184 | the "destroy" handler nulls the window pointer and leaves the shown flag as it is |
| MacChannel.DecodeMethodCall | native_splash_screen_macos/macos/Classes/NativeSplashScreenMacosPlugin.swift:11-23 | a non-close method is NotImplemented; close always closes and answers success; a string `effect` is passed on; no map, no key or a non-string value becomes ""; never an error |
| MacSplash.ExpectedSizePositive | native_splash_screen_macos/macos/Classes/NativeSplashScreen.swift:132-133 | positive dimensions give a positive expected byte count |
| MacSplash.CreateImageFromPixelBytes | native_splash_screen_macos/macos/Classes/NativeSplashScreen.swift:124-185 | an image exists exactly when width > 0, height > 0, the count is `width * 4 * height` and Core Graphics succeeds; it keeps its size and bytes; an empty buffer never gives an image |
| MacSplash.EmptyGuardRedundant | native_splash_screen_macos/macos/Classes/NativeSplashScreen.swift:128-135 | the size check alone already refuses an empty buffer with positive dimensions |
| MacSplash.Lower | native_splash_screen_macos/macos/Classes/NativeSplashScreen.swift:75 | `lowercased()` on ASCII: same length, no capital left, every other character kept |
| MacSplash.LowerIdempotent | native_splash_screen_macos/macos/Classes/NativeSplashScreen.swift:75 | lower-casing twice is lower-casing once; text without capitals is unchanged |
| MacSplash.NamesAreLowerCase | native_splash_screen_macos/macos/Classes/NativeSplashScreen.swift:76-83 | the three case labels are already lower case |
| MacSplash.EffectKind | native_splash_screen_macos/macos/Classes/NativeSplashScreen.swift:68-90 | "" closes at once; a slide is chosen exactly when the lowered effect is its name; every other non-empty effect fades |
| MacSplash.EffectKindIgnoresCase | native_splash_screen_macos/macos/Classes/NativeSplashScreen.swift:75 | any spelling whose lower case is a name selects that name's exit |
| MacSplash.EveryEffectFadesOut | native_splash_screen_macos/macos/Classes/NativeSplashScreen.swift:75-90 | every non-empty effect animates alpha to 0; slide_up_fade also moves origin.y by +50 and slide_down_fade by -50; any other effect only fades |
| MacSplash.WindowOrigin | native_splash_screen_macos/macos/Classes/NativeSplashScreen.swift:112-117 | the window's centre is the centre of the visible frame |
| MacSplash.ImageViewOrigin | native_splash_screen_macos/macos/Classes/NativeSplashScreen.swift:191-194 | the image's centre is the centre of the window's content |
| MacSplash.DisplayEndsOpaque | native_splash_screen_macos/macos/Classes/NativeSplashScreen.swift:198-210 | either way the window ends at alpha 1 and ordered front; animated, it starts from alpha 0 |
| MacSplash.MacSplashScreen.constructor | native_splash_screen_macos/macos/Classes/NativeSplashScreen.swift:7-12 | no provider, no window, not shown |
| MacSplash.MacSplashScreen.SetConfigurationProvider | native_splash_screen_macos/macos/Classes/NativeSplashScreen.swift:7 | the public static holds the given provider |
| MacSplash.MacSplashScreen.CreateSplashWindow | native_splash_screen_macos/macos/Classes/NativeSplashScreen.swift:96-122 | a fresh window of the configured size and title, centred only when there is a main screen |
| MacSplash.MacSplashScreen.DisplaySplashWindow | native_splash_screen_macos/macos/Classes/NativeSplashScreen.swift:198-210 | the display calls of the animated or plain path; the window becomes visible |
| MacSplash.MacSplashScreen.Show | native_splash_screen_macos/macos/Classes/NativeSplashScreen.swift:16-49 | shown, no provider or a non-positive dimension: nothing changes; otherwise the new window is stored and shown, the image view is added only when the image can be built, and the flag is set either way |
| MacSplash.MacSplashScreen.OpenWindow | native_splash_screen_macos/macos/Classes/NativeSplashScreen.swift:34-48 | the calls of a successful show, in order; the window is stored and visible; the flag is set |
| MacSplash.MacSplashScreen.CreateImageView | native_splash_screen_macos/macos/Classes/NativeSplashScreen.swift:187-196 | the image view is added centred in the window |
| MacSplash.MacSplashScreen.CompletionAsWritten | native_splash_screen_macos/macos/Classes/NativeSplashScreen.swift:62-66 | as written: orders its captured window out, then clears the statics whatever window they hold |
| MacSplash.MacSplashScreen.Completion | native_splash_screen_macos/macos/Classes/NativeSplashScreen.swift:62-66 | corrected: orders its window out and clears the statics only if they still hold that window; NoStrayWindow is kept |
| MacSplash.MacSplashScreen.Close | native_splash_screen_macos/macos/Classes/NativeSplashScreen.swift:51-92 | its outcome `ClosedBy(effect)`: not shown or no window: nothing changes; "" orders the window out and clears the statics at once; other effects make the animation calls of the kind they select and leave the statics and a pending completion for the window |
| MacSplash.MacSplashScreen.AnimationEndsAsWritten | native_splash_screen_macos/macos/Classes/NativeSplashScreen.swift:91 | the end of a pending close animation runs the completion as written and leaves no window held |
| MacSplash.MacSplashScreen.AnimationEnds | native_splash_screen_macos/macos/Classes/NativeSplashScreen.swift:91 | the end of a pending close animation runs the corrected completion; a newer window stays held |
| MacSplash.MacSplashScreen.HandleMethodCall | native_splash_screen_macos/macos/Classes/NativeSplashScreenMacosPlugin.swift:11-23 | the reply is the decoder's: success for close, NotImplemented (and no change) for anything else; a close has exactly the outcome `ClosedBy` of close with the decoded effect |
| MacSplash.StrandedWindowAsWritten | native_splash_screen_macos/macos/Classes/NativeSplashScreen.swift:62-66 | as written: after a fade close, an immediate close and a show, the fade's end orders out window 1 and forgets window 2, which stays visible with no static holding it; the next close changes nothing, so window 2 is never ordered out |
| MacSplash.NoStrandedWindowFixed | native_splash_screen_macos/macos/Classes/NativeSplashScreen.swift:62-66 | corrected: the same sequence keeps window 2 held, and the next close hides it |
| CrossPlatform.WindowsAndLinuxDecodeAlike | native_splash_screen_linux/linux/native_splash_screen_linux_plugin.cc:30-56 | Windows and corrected Linux give the same reply and the same close, NULL being ""; as written, Linux differs only for other methods |
| CrossPlatform.MacDecodesLikeWindowsSaveNonStrings | native_splash_screen_macos/macos/Classes/NativeSplashScreenMacosPlugin.swift:15 | macOS decodes like Windows except for a non-string effect, which Windows refuses and macOS turns into an immediate successful close |
| CrossPlatform.NamesSelectAlike | native_splash_screen_windows/windows/native_splash_screen_windows_plugin.cpp:259-271 | the three names select the same exit on every platform, and "" (and NULL) closes at once everywhere |
| CrossPlatform.UnknownEffectsDiverge | native_splash_screen_macos/macos/Classes/NativeSplashScreen.swift:88-89 | an effect that is none of the names closes at once on Windows and Linux but is animated on macOS |
| CrossPlatform.UpperCaseFade | native_splash_screen_macos/macos/Classes/NativeSplashScreen.swift:75-77 | "FADE" closes at once on Windows and Linux and fades on macOS |
| CrossPlatform.SlidesAgree | native_splash_screen_linux/linux/native_splash_screen_linux_plugin.cc:457 | the Windows and Linux slides apply the same offset at every step |
| CrossPlatform.ExitAlphaIsScaledOpacity | native_splash_screen_windows/windows/native_splash_screen_windows_plugin.cpp:325 | each Windows exit alpha is 255 times the Linux exit opacity at the same step, rounded down |

## Left out

- Toolkit work beyond the events recorded:
  - window styles and classes, the drawing area and `on_draw_event` painting (including its floating-point background colour);
  - GDI device contexts;
  - `NSImageView` scaling and the CGImage colour space.
- Timers and the event loop:
  - `Sleep`;
  - the 15 ms and 10 ms delays, which are recorded as numbers only;
  - the event pumping of `PeekMessageW` and `gtk_main_iteration`, including any re-entrant callback while pumping;
  - `NSAnimationContext` durations and interpolation.
- Swift's main-thread dispatch (`NativeSplashScreen.swift:17-20, 52-55`). The model runs everything on one thread.
- Freeing: `g_free` of the step records is not modelled. The dangling `FadeData` of a removed timer is never read.
- WinPixels.Scale: the source scales with `(uint32_t)(c * (a / 255.0f))` in single precision, and the model uses the exact `c * a / 255`. Only the alpha-0, alpha-255, alpha-byte and no-growth facts hold for both.
- WinPixels.RenderSplashContent: `int` index arithmetic is unbounded here. The 32-bit overflow of `y * W + x` for huge images is not modelled.
- WinSplash.SplashWindows.PaintBitmap: the DIB section is a fresh all-zero buffer. This stands for the zero-fill CreateDIBSection gives.
- MacSplash.CreateImageFromPixelBytes:
  - the Core Graphics result is the parameter `cgOk`;
  - Swift's trap on `width * 4 * height` overflow is not modelled;
  - the byte order CGImage reads (premultiplied-last, 32-bit little-endian) is not modelled.
- MacSplash.Config: it carries `imagePixels`, which `show` reads but the provider protocol does not declare.
- MacSplash.WindowOrigin: CGFloat is modelled as `real`, with no rounding.
- MacSplash.Lower: ASCII only. Swift's `lowercased()` also folds non-ASCII letters.
- GtkSplash.GtkSplashScreen.ShowSplashScreen: the model raises `splash_shown` before adding the fade-in timer, while the source does it after the event pumping. Nothing can run in between in the model, so the reordering is unobservable.
- GtkSplash.GtkSplashScreen.WindowDestroyed: modelled only while no timer is live. A window destroyed during an animation leaves the callback's record pointing at a destroyed widget, which the model does not represent.
- Registration, codecs, headers, the C API shim, `AppDelegate.swift`, and the protocol file (`NativeSplashScreenConfiguration.swift`) hold no logic and are not part of this model.

## Findings

| source | as written | input that shows it | evidently intended | confidence | as-written member | corrected member |
|---|---|---|---|---|---|---|
| native_splash_screen_windows/windows/native_splash_screen_windows_plugin.cpp:250-252 | when the DIB section cannot be created, `CloseSplashWindowWithoutAnimation` is called, but it returns at once because `g_splash_shown` is still false; the window stays alive, invisible and held, and a second show overwrites the handle | `ShowSplashScreen()` twice with window creation succeeding and `CreateDIBSection` failing | destroy the new window on this path | not executed | WinSplash.LeakedWindowsAsWritten | WinSplash.SplashWindows.ShowSplashScreenFixed |
| native_splash_screen_linux/linux/native_splash_screen_linux_plugin.cc:27-59 | for any method other than "close", `response` is still NULL when `fl_method_call_respond` is called, so the call gets no valid reply | a call to method "show" with no arguments | respond with `fl_method_not_implemented_response_new()`, as Windows and macOS do | not executed | GtkChannel.UnknownMethodUnanswered | GtkChannel.DecodeMethodCall |
| native_splash_screen_macos/macos/Classes/NativeSplashScreen.swift:62-66 | the completion handler of an animated close clears `splashWindow` and `isSplashShown` unconditionally; if an immediate close and a new `show` happen before the animation ends, it forgets the new window, which stays on screen with nothing able to close it | `close(effect: "fade")`, `close()`, `show()`, then the fade's completion runs | clear the statics only when they still hold the window the handler captured | not executed | MacSplash.StrandedWindowAsWritten | MacSplash.MacSplashScreen.Completion |
| native_splash_screen_windows/windows/native_splash_screen_windows_plugin.cpp:216-219 | the window's x and y are half of the work area's width and height minus the window's, with no `workArea.left` or `workArea.top` added, so with a taskbar on the left or at the top the window sits off centre by the taskbar's size | a work area from x = 100 to 1920 (a 100-pixel taskbar on the left) and a 400-pixel window: x = 710, leaving 610 pixels of the work area on its left and 810 on its right | add the work area's origin, `workArea.left + (workArea.right - workArea.left - W) / 2` | not executed | WinSplash.PlacementIgnoresWorkAreaOrigin | WinSplash.CentredPlacement |
