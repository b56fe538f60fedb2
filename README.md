# Portfolio page interactivity, modelled in Dafny

This project models the state logic in the client-side script of a single-page
portfolio site (`script.js`). The DOM, the animation library, the canvas and
the browser's timers are left out. What remains are the small state machines
and rules the event handlers apply:

- **Konami easter egg** (`Konami`): a keydown listener that counts how much of
  the ten-key code has been typed. A wrong key restarts the count at 0, with no
  fallback to a shorter partial match. The easter egg fires when the tenth key
  arrives.
- **Typewriter** (`Typing`): each timer callback appends the next character of
  a fixed code snippet to the element's text, until the snippet is used up.
- **Navigation** (`Navigation`): the navbar shadow threshold, the mobile
  menu's two `active` classes, and highlighting the nav link of the section in
  view (the last section in view wins; if none is in view, nothing changes).
- **Scrolling** (`Scrolling`): the back-to-top threshold and the target
  of an in-page smooth-scroll link.
- **Theme** (`Theme`): the dark/light toggle, its icon and the one persisted
  `theme` key, which defaults to dark.
- **Entrance offsets** (`Entrance`): skill cards enter from alternating sides
  with alternating tilt.
- **Ambient particle field** (`Particles`): 50 particles created at random,
  pulled toward the pointer within 200 px, integrated, damped by 0.95 per
  frame and wrapped around the surface with a one-radius margin. Pointer
  tracking sets the velocity to half the displacement. A resize changes only the
  surface size.
- **As-written pull** (`AsWritten`): the page's unguarded division at zero
  distance, with doubles' NaN made explicit, and the animation frame it
  aborts (see Findings).

State that the page changes in place is a class: `Konami.Listener`,
`Typing.Typewriter`, `Navigation.MobileMenu`, `Navigation.SectionHighlighter`,
`Theme.ThemeToggle` and `Particles.Field`. The particles live in a fixed
`array` of 50 records that `Animate` updates one by one. Each mutating method
ties its new state to a pure function of the old state. The properties are
proved about those functions.

Numbers in the particle field are exact `real`s that stand for the page's
doubles. Each `Math.random()` draw is an input in [0, 1). Each `Math.sqrt` result
is an input `dist` constrained by `dist >= 0 && dist * dist == dx * dx + dy * dy`.

Two points about the particle field:

- The code has no zero-distance guard (see Findings).
- A resize can leave particles outside the new margins until the next frame.
  So `Field.Animate` guarantees the margins after each frame, and
  `Field.Resize` does not.

In the real-valued model the creation ranges are half-open, because each draw
is in [0, 1). For example, hue lies in [180, 240). With double rounding the
page can reach the upper end: a draw of 1 − 2^−52 gives a hue of exactly 240.

The pointer's velocity (`mouse.vx`, `mouse.vy`) is written by the mousemove
handler but never read. The pull depends only on the pointer's position.

## Model

| member | source | states |
|---|---|---|
| Konami.KeyStep | script.js:558-569 | A matching key advances the index. The tenth match fires exactly once and resets to 0. Any other key resets to 0 without firing. The index stays below 10. |
| Konami.Feed | script.js:556-569 | Over any key sequence from page load, the index stays in [0, 10) and never exceeds the number of keys typed. |
| Konami.IndexIsMatchedSuffix | script.js:559-568 | After any key sequence, the last `index` keys are exactly the first `index` keys of the code. |
| Konami.FiresOnlyAfterCode | script.js:559-565 | The easter egg fires on a key only if that key completes the ten-key code. |
| Konami.CodeAdvances | script.js:559-565 | From index 0, typing the first k keys of the code gives index k and no firing. Typing all ten fires once and resets the index. |
| Konami.CodeFiresOnce | script.js:553-565 | Typing the code from an idle listener fires the easter egg exactly once. |
| Konami.NoFallback | script.js:566-568 | One extra Up in front of the code (Up, Up, Up, Down, Down, Left, Right, Left, Right, b, a) ends with the code but never fires. The third Up resets the index to 0, even though it equals the first code key. |
| Konami.Listener.constructor | script.js:556 | The listener starts at index 0. |
| Konami.Listener.KeyDown | script.js:558-569 | The handler's new index and the firing flag are exactly `KeyStep` of the old index. The index stays below 10. |
| Typing.TypeStep | script.js:404-410 | While `index < length`, a call appends exactly `Snippet[index]` and increments the index. Afterwards, a call changes nothing. |
| Typing.StepKeepsShowing | script.js:404-407 | Each call keeps the text equal to the initial content plus `Snippet[..index]`, with `index <= length`. |
| Typing.TypedAfter | script.js:401-410 | After n calls, the text is the initial content plus the first min(index + n, length) characters of the snippet. |
| Typing.DoneIsFinal | script.js:405 | Once the snippet is used up, any number of further calls change nothing. |
| Typing.Typewriter.constructor | script.js:401 | Typing starts at index 0 with the element's current text. |
| Typing.Typewriter.Type | script.js:404-410 | One timer callback performs `TypeStep` and keeps the text equal to the initial content plus the typed prefix. |
| Navigation.HasShadow | script.js:31-35 | The navbar has its shadow exactly when the page is scrolled past 50 px. |
| Navigation.ToggleClick | script.js:47-57 | A button click sets both the button's and the menu's `active` class to the negation of the menu's state. |
| Navigation.LinkClick | script.js:61-66 | A nav-link click clears both `active` classes. |
| Navigation.MenuStaysInSync | script.js:47-66 | After any click the two classes agree. If they agree at the start, they agree after any sequence of clicks. |
| Navigation.ToggleTwice | script.js:47-57 | Two button clicks restore an in-sync menu. |
| Navigation.MobileMenu.constructor | script.js:22-23 | The classes start as the markup gives them. |
| Navigation.MobileMenu.ButtonClick | script.js:42-58 | The click handler's new classes are `ToggleClick` of the old ones. |
| Navigation.MobileMenu.NavLinkClick | script.js:62-66 | The link handler's new classes are `LinkClick` of the old ones. |
| Navigation.InView | script.js:82-86 | A section is in view when the scroll position is greater than its top less 100 px and at most its bottom less 100 px. A section of zero or negative height is never in view. |
| Navigation.LastInView | script.js:80-86 | Finds the last section, in document order, whose range (top − 100, top − 100 + height] holds the scroll position. Reports none exactly when no section's range holds it. |
| Navigation.LinkFor | script.js:84 | Finds the first nav link whose href equals `#id`, or reports none exactly when no link has that href. |
| Navigation.Highlight | script.js:80-89 | If no section is in view, the highlights are unchanged. Otherwise exactly one link is highlighted: the first link to the last section in view. If that section has no link, none is highlighted. |
| Navigation.SectionHighlighter.constructor | script.js:24 | The nav links keep their hrefs and initial highlights. |
| Navigation.SectionHighlighter.OnScroll | script.js:77-91 | The scroll handler visits the sections in order, clearing all highlights and marking the link at each match. The result is `Highlight`: the last match wins. |
| Scrolling.BackToTopVisible | script.js:423-427 | The back-to-top button has its `visible` class exactly when the page is scrolled past 500 px. |
| Scrolling.ThresholdsNest | script.js:423-427 | The back-to-top button shows beyond 500 px. At that point the navbar shadow (beyond 50 px, script.js:31) is already on. Between 50 px (exclusive) and 500 px (inclusive), only the shadow shows. |
| Scrolling.ScrollTarget | script.js:446-458 | A bare `#` link or a missing target does not scroll. Otherwise the scroll target plus the navbar height equals the target's `offsetTop`. |
| Entrance.SkillCardOffset | script.js:172-186 | Even-indexed cards enter from the left (x = −100, tilt −5). Odd-indexed cards enter from the right (x = 100, tilt 5). |
| Entrance.NeighboursMirror | script.js:173-183 | Neighbouring cards have mirrored offsets and tilts. |
| Theme.SavedTheme | script.js:101 | The stored value is used when it is present and non-empty. Otherwise the theme is "dark". |
| Theme.LoadLook | script.js:103-107 | A saved "light" turns off `dark` and shows the sun icon. Any other saved value leaves the markup unchanged. |
| Theme.Click | script.js:109-121 | A click flips `dark`, sets the icon to match the theme and stores the theme it now shows under `theme`. |
| Theme.ReloadRestores | script.js:101-121 | After any click, a reload with the site's dark markup shows the look that the click produced. |
| Theme.ClickTwice | script.js:109-121 | Two clicks restore a consistent look. The store then holds that look's theme. |
| Theme.ThemeToggle.constructor | script.js:100-107 | The page loads into `LoadLook` of the store and the markup. |
| Theme.ThemeToggle.Toggle | script.js:109-121 | The click handler's new look and store are `Click` of the old ones. |
| Particles.Spawn | script.js:653-663 | A new particle lies on the surface and starts at rest. Its radius is in [50, 150), its hue in [180, 240) and its opacity in [0.1, 0.4). |
| Particles.Impulse | script.js:691-696 | The corrected pull on one axis. It is 0 unless 0 < dist < 200, and 0 when the offset on that axis is 0. Its bounds and direction are stated by `ImpulseBounded`. |
| Particles.ImpulseBounded | script.js:691-696 | The pull is 0 at distance ≥ 200 and at distance 0. Otherwise it is strictly between −2 and 2 on each axis and points toward the pointer. |
| Particles.Wrap | script.js:705-708 | A coordinate below −radius jumps to extent + radius. One above extent + radius jumps to −radius. Any other coordinate is unchanged. The result is always in [−radius, extent + radius]. |
| Particles.StepParticle | script.js:686-708 | The new velocity on each axis is the old one plus the pointer's pull (`Impulse`), times 0.95. Radius, hue and opacity are kept, and the particle ends inside the margins. Without a wrap, the particle moves by its old velocity plus the pull. |
| Particles.UpdateParticle | script.js:685-708 | The per-particle callback, statement by statement, with the corrected guard 0 < dist < 200, computes `StepParticle`. |
| Particles.WrapCoordinate | script.js:705-708 | The callback's two boundary checks on one coordinate compute `Wrap`. |
| Particles.SpeedStaysBounded | script.js:692-702 | With the true distance, a frame keeps each velocity component within ±38. Friction outweighs the pull, since 0.95 · (38 + 2) = 38. |
| Particles.DecaysWithoutPointer | script.js:698-702 | While the pointer stays out of range, each velocity component after k frames is its initial value damped k times. |
| Particles.DampedIsGeometric | script.js:701-702 | Damping k times is multiplication by 0.95^k. |
| Particles.TraitsAndMarginsKept | script.js:685-708 | Over any number of frames, radius, hue and opacity never change. After at least one frame, the particle lies within the last frame's margins. |
| Particles.Track | script.js:671-674 | A pointer move records the new position and half the displacement from the last observed position. |
| Particles.TrackJump | script.js:671-674 | A move from (100, 100) to (150, 100) records velocity (25, 0). |
| Particles.VelocitiesTelescope | script.js:671-677 | Each move re-bases on the previous one, so the velocities recorded over a path sum to half its net displacement. |
| Particles.Field.constructor | script.js:644-663 | Creates 50 particles from the draws, all inside the margins. The pointer and the last observed position both start at the surface's centre, with zero velocity. |
| Particles.Field.MouseMove | script.js:666-678 | The pointer becomes `Track` of the last observed position. The last observed position becomes the new position. The particles and the size are unchanged. |
| Particles.Field.Animate | script.js:681-729 | Each of the 50 particles becomes `StepParticle` of its old state. Afterwards every particle is inside the current margins. Traits stay in range and speeds stay bounded. |
| Particles.Field.Resize | script.js:734-737 | Only the width and height change. Particle coordinates and the pointer are untouched. |
| AsWritten.ZeroDistanceIsNaN | script.js:689-695 | As written, a particle exactly under the pointer gets a NaN velocity (0 / 0). |
| AsWritten.AgreesAwayFromZero | script.js:692-696 | For any non-zero distance, the as-written pull and the corrected `Particles.Impulse` agree. |
| AsWritten.PulledVelocity | script.js:691-696 | As written, within 200 px the pull is NaN exactly at distance 0. Beyond 200 px, the velocity is unchanged. |
| AsWritten.Advance | script.js:698-708 | A NaN velocity makes the position and the velocity NaN in the same frame: the wrap checks compare false and leave the NaN in place. With finite values the step is the corrected model's integrate, `Wrap` and friction. |
| AsWritten.CentredParticleIsNaN | script.js:687-708 | A particle exactly under the pointer has a NaN position before it is drawn in that frame. |
| AsWritten.FrameOutcome | script.js:685-728 | One call of `animate` draws the particles in order. It throws at the first particle without finite coordinates, so the next frame is requested exactly when every particle can be drawn. |
| AsWritten.CentredParticleStopsAnimation | script.js:681-731 | A particle exactly under the pointer, anywhere in the population, makes the frame throw at or before it. No next frame is requested, and the whole field stops. |
| AsWritten.EmptyHeroStopsFirstFrame | script.js:644-663 | With a hero section of zero size at load, the pointer and every created particle are at (0, 0). Every particle is then exactly under the pointer, and the first frame throws. |

## Findings

| source | as written | input that shows it | evidently intended | confidence | as-written member | corrected member |
|---|---|---|---|---|---|---|
| script.js:692-695 | `dx / dist` is computed whenever `dist < 200`, including `dist == 0` | the pointer exactly on a particle's centre (dx = dy = 0). The most reachable case is a hero section of zero size at load (for example `display: none`): the pointer and every particle start at (0, 0) (`AsWritten.EmptyHeroStopsFirstFrame`) | no pull at zero distance, so the particle keeps moving normally | not executed; high | AsWritten.ZeroDistanceIsNaN | Particles.ImpulseBounded |

The field model (`Particles.Impulse`, `Particles.UpdateParticle`,
`Particles.Field.Animate`) uses the corrected guard `0 < dist < 200`.

What the page does instead:

- The 0 / 0 makes that particle's velocity NaN, and in the same frame its
  position (`AsWritten.Advance`). The wrap checks are comparisons, false on
  NaN, so they leave it in place.
- Drawing the particle then calls `createRadialGradient` with a NaN
  coordinate (script.js:711-714). That call accepts finite coordinates only,
  so it throws.
- The exception leaves the `forEach` and `animate` before
  `requestAnimationFrame` (script.js:728). The whole field freezes, not just
  that particle (`AsWritten.CentredParticleStopsAnimation`).
- If this happens in the first, synchronous call of `animate`
  (script.js:731), the exception also leaves `initCursorEffect`. The resize
  listener (script.js:734-737) is then never registered. A hero section of
  zero size at load leads to exactly this (`AsWritten.EmptyHeroStopsFirstFrame`).

## Left out

- Scroll-triggered entrance animations and the easter-egg popup are
  declarations for the animation library. Only the skill-card offset is
  modelled. The other alternating offsets (timeline items, script.js:217, and
  contact methods, script.js:294) and the staggered delays computed from the
  index (script.js:202, 265, 280) are left out.
- Canvas drawing (the fading fill, radial gradients and colour stops) is
  rendering only. The one exception is that drawing throws on a non-finite
  coordinate. That is modelled in `AsWritten.FrameOutcome`, as a predicate on
  each particle's position.
- `requestAnimationFrame`, `setTimeout` (the 1000 ms start delay and 30 ms
  typing speed) and `debounce` are event-loop plumbing. One callback is one
  method call.
- `initCustomCursor` and `lazyLoadImages` are never called. The second depends
  on a browser observer API.
- Console logging, DOM lookups and null checks are left out, including the
  early returns when an element is missing and the error branch when the
  mobile-menu elements are absent.
- `Math.random` and `Math.sqrt` are inputs: draws in [0, 1), and a `dist`
  with `dist * dist == dx * dx + dy * dy`.
- Double rounding is not modelled. Particle arithmetic uses exact reals, and
  NaN appears only in `AsWritten`.
- `querySelector` throwing on an invalid selector (an href such as `#1x`) is
  not modelled. `Scrolling.ScrollTarget` takes the lookup's result as an input.
- The back-to-top click always scrolls to 0 and has no logic to model.
- Scroll offsets and element layout (`pageYOffset`, `offsetTop`,
  `offsetHeight`) are `real`s read at event time. Section layout is a
  parameter of each scroll event.
- Icon classes other than `fa-moon`/`fa-sun`, and the styles the handlers set,
  are left out. The navbar shadow is modelled only as its threshold predicate.
- Theme.Click, Theme.ThemeToggle.Toggle, Theme.ThemeToggle.constructor: storage
  exceptions are not modelled. `localStorage.getItem` (script.js:101) throws
  when storage is blocked. That aborts the page's start-up handler after
  `initNavigation` (script.js:11-16), so the theme, scroll animations, typing,
  back-to-top, smooth-scroll and particle set-up never run. `setItem`
  (script.js:113, 117) runs before the icon update. If it throws (quota
  exceeded or storage blocked), `dark` stays toggled, the icon keeps its old
  class and the store is unchanged, so the look is no longer `Consistent`.
  The model treats the store as a map that always accepts reads and writes.
- Particles.ImpulseBounded: bounds the pull on each axis separately, not the
  length of the pull vector.
