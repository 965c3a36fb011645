# Portfolio site interaction logic, in Dafny

This project models the small pieces of behaviour in a React portfolio site
(vinaymaurya_portfolio) that are more than rendering. Each piece is a state
machine or a pure helper inside a component. Browser events and timer
firings become method calls. `Math.random()` and the network outcome become
parameters.

- **Typewriter** (`typewriter.dfy`, `useTypewriterEffect`). A character
  index walks over the UTF-16 code units of `text`. The element shows a prefix of `text` followed by
  the cursor glyph. At the end the cursor is dropped, or with `loop` the
  typing restarts.
- **Pixelation** (`pixelation.dfy`, `usePixelationEffect`). A bounded step
  counter gives each frame a block size `max(1, ceil((steps - step) * 16 / steps))`.
  The original image source comes back after the last frame and on cleanup.
- **Scroll-reveal latch** (`reveal.dfy`). This is the IntersectionObserver
  callback that About, Contact, Experience, Projects and Skills each copy.
  It is modelled once, from the copy in About.tsx. Contact.tsx:100-118,
  Experience.tsx:161-182, Projects.tsx:55-73 and Skills.tsx:77-96 hold the
  same code.
- **Contact form** (`contact.dfy`). It covers the three-field draft, the
  focused field, and the submission. The submission is split into dispatch
  and settlement: the transport either throws or it does not.
- **Popup and prize spinner** (`retro_popup.dfy`). The popup stays visible
  for 300 ms after it closes. A spin ignores clicks while one is running and
  picks a prize from the list.
- **Experience tabs** (`experience.dfy`). The selection only moves to an
  id that exists, and the record shown always carries the selected id.
- **Small helpers and flag machines**:
  - navbar scroll threshold and mobile menu (`navbar.dfy`)
  - the skills column split and percentage bars (`skills.dfy`)
  - project card delays, file labels and source links (`projects.dfy`)
  - cursor flags and the interactive-target test (`custom_cursor.dfy`)
  - digit-key navigation (`index_page.dfy`)
  - the loading progress (`loading_screen.dfy`)
  - the ten-segment progress bar (`progress.dfy`)
  - base-path prefixing (`utils.dfy`)
- **Shared helpers**. `wrappers.dfy` holds `Option` and JavaScript string
  truthiness. `decimal.dfy` renders numbers the way template strings do,
  and reads back strings of digits the way `parseInt(s, 10)` does.

The imperative hooks follow one pattern. A pure `State` datatype has a
`Next` function for "the pending timeout fires" and a `Cleanup` function.
A class holds the same fields, and its `Fire` and `Unmount` methods are
proved to compute exactly `Next` and `Cleanup`. The lemmas about `Next` and
`Run` (n firings) then state what the hook promises.

The only typewriter in the code is `useTypewriterEffect`: one text, an
optional restart loop, and no deleting phase. Its text is handled the way
JavaScript handles strings, as UTF-16 code units.

## Model

| member | source | states |
|---|---|---|
| Typewriter.OptionsDriveTimers | src/utils/micro-animations.ts:17-57 | the resolved options drive the timers: the start waits `startDelay` (default 0), shows `cursorCharacter` (default "▊"), and schedules each character `typingSpeed` ms later (default 50); at the end of the text `loop: true` schedules the restart `loopDelay` ms later (default 2000), and without `loop` (the default) typing stops with the text alone |
| Typewriter.DefaultsBehaviour | src/utils/micro-animations.ts:17-57 | without options the start fires at once, shows the block cursor, types a character every 50 ms, and stops after the last one with the cursor gone and nothing pending |
| Typewriter.InvMount | src/utils/micro-animations.ts:25-57 | the mounted state satisfies the timer-chain invariant; with an element, `startTyping` is pending after the start delay, and without one nothing is pending |
| Typewriter.InvNext | src/utils/micro-animations.ts:31-54 | every timer firing preserves the invariant, so the index never exceeds the text length |
| Typewriter.InvCleanup | src/utils/micro-animations.ts:59-61 | cleanup preserves the invariant |
| Typewriter.DisplayIsPrefix | src/utils/micro-animations.ts:33-49 | once started, the display is `text[..k]` plus the cursor for some k <= the text length, or exactly `text` |
| Typewriter.StartShowsCursor | src/utils/micro-animations.ts:31-33 | starting a run sets the index to 0, shows only the cursor, and schedules the first character after the typing speed |
| Typewriter.StepTypesOneChar | src/utils/micro-animations.ts:36-39 | while index < `text.length` (in UTF-16 code units), a step shows `text.substring(0, index + 1)` plus the cursor, adds exactly 1 to the index, and schedules the next step |
| Typewriter.EndWithoutLoop | src/utils/micro-animations.ts:47-50 | without loop, the step at the end shows `text` with no cursor and schedules nothing |
| Typewriter.RunTyping | src/utils/micro-animations.ts:35-39 | n typing steps from k typed code units reach k + n typed code units |
| Typewriter.CompletesWithoutLoop | src/utils/micro-animations.ts:31-57 | without loop, the start and the text length + 1 steps leave `text` on screen, no cursor, nothing pending |
| Typewriter.SurrogatePairTypesInTwoSteps | src/utils/micro-animations.ts:36-39 | a character outside the Basic Multilingual Plane (U+1F600) takes two steps, and between them the element shows the lone high surrogate and the cursor |
| Typewriter.RunSplit | src/utils/micro-animations.ts:35-53 | m firings then n firings equal m + n firings |
| Typewriter.LoopIsPeriodic | src/utils/micro-animations.ts:40-46 | with loop, the text is typed to the end, the restart waits the loop delay, and the restart clears to the cursor and types again; the cycle has period text length + 1 |
| Typewriter.EmptyTextLoopsOnCursor | src/utils/micro-animations.ts:40-46 | with loop and an empty text, each restart shows only the cursor and schedules the next restart after the loop delay, without end |
| Typewriter.CleanupStops | src/utils/micro-animations.ts:59-61 | after cleanup no firing changes the state |
| Typewriter.TypewriterElement.constructor | src/utils/micro-animations.ts:25-57 | mounting resolves the options and yields the `Mount` state |
| Typewriter.TypewriterElement.Fire | src/utils/micro-animations.ts:31-54 | the element's fields after a firing are exactly `Next` of the fields before, and the invariant holds |
| Typewriter.TypewriterElement.TypeNextCharStep | src/utils/micro-animations.ts:35-51 | `typeNextChar` computes `TypeNext`: one more character, the loop restart, or the final text |
| Typewriter.TypewriterElement.Unmount | src/utils/micro-animations.ts:59-61 | cleanup clears the pending timeout and keeps the text content |
| Pixelation.CeilDiv | src/utils/micro-animations.ts:223 | the ceiling r of n / d is the least r with r * d >= n |
| Pixelation.CeilDivMonotone | src/utils/micro-animations.ts:223 | the ceiling division is monotone in its numerator |
| Pixelation.PixelSizeBounds | src/utils/micro-animations.ts:223 | the block size is between 1 and 16 |
| Pixelation.PixelSizeNonIncreasing | src/utils/micro-animations.ts:223 | the block size never grows as currentStep grows |
| Pixelation.ScheduleAt | src/utils/micro-animations.ts:219-249 | frame i of a run has the block size of step i + 1 |
| Pixelation.ScheduleShrinks | src/utils/micro-animations.ts:216-257 | the frames of a run never grow and stay within 16; once the run reaches step `steps`, that frame has size 1 |
| Pixelation.RunFromMidway | src/utils/micro-animations.ts:249-256 | from k drawn frames, steps - k more firings finish the run |
| Pixelation.CompleteRun | src/utils/micro-animations.ts:216-259 | for steps >= 1 with a canvas context, exactly `steps` frames are drawn for steps 1..steps, then the original source is restored and nothing is pending |
| Pixelation.CleanupRestores | src/utils/micro-animations.ts:265-268 | cleanup restores the original source at any point, and nothing fires afterwards |
| Pixelation.PixelatedImage.constructor | src/utils/micro-animations.ts:198-263 | the image starts with its original source, and `pixelate` is pending after the start delay when there is an image |
| Pixelation.PixelatedImage.Fire | src/utils/micro-animations.ts:204-260 | a firing computes `Next`: without a context `pixelate` does nothing more, otherwise the step counter starts at 1 and a frame is drawn |
| Pixelation.PixelatedImage.PixelateStep | src/utils/micro-animations.ts:219-257 | `pixelateStep` draws a frame, advances the counter, and either schedules the next step or restores the source |
| Pixelation.PixelatedImage.Unmount | src/utils/micro-animations.ts:265-268 | cleanup clears the timeout and restores the original source |
| Reveal.Intersecting | src/components/About.tsx:6-11 | an id is revealed by a batch exactly when some entry for it is intersecting |
| Reveal.IntersectingAppend | src/components/About.tsx:6-11 | two batches reveal what their concatenation reveals |
| Reveal.IntersectingOrderIndependent | src/components/About.tsx:7-11 | the revealed set does not depend on the order of the entries |
| Reveal.ScrollReveal.constructor | src/components/About.tsx:5-16 | no element is revealed before the first callback |
| Reveal.ScrollReveal.HandleEntries | src/components/About.tsx:7-11 | the forEach loop adds exactly the intersecting targets to the revealed set and never removes one |
| Reveal.NonIntersectingUntouched | src/components/About.tsx:8 | an element with only non-intersecting entries keeps its state |
| Reveal.IntersectingRevealed | src/components/About.tsx:8-9 | every intersecting entry reveals its target |
| Reveal.RedeliverIsNoOp | src/components/About.tsx:7-11 | on a `ScrollReveal`, a callback never hides anything, and a second delivery of the same entries leaves the revealed set unchanged |
| Contact.WithField | src/components/Contact.tsx:54-57 | a change sets the named field to the value and leaves the other two fields unchanged |
| Contact.DraftExtensional | src/components/Contact.tsx:46-50 | two drafts are equal exactly when they agree on all three fields |
| Contact.WithFieldOverwrite | src/components/Contact.tsx:54-57 | the last change to a field wins, and writing back a field's own value is a no-op |
| Contact.Settle | src/components/Contact.tsx:82-94 | when the transport throws the draft is kept, otherwise every field becomes empty |
| Contact.Outcome | src/components/Contact.tsx:83-94 | the toast is the destructive one exactly when the transport threw |
| Contact.ContactForm.constructor | src/components/Contact.tsx:46-52 | the draft starts empty, not submitting, nothing focused, and no request or toast yet |
| Contact.ContactForm.HandleChange | src/components/Contact.tsx:54-57 | the draft becomes `WithField` of the old draft |
| Contact.ContactForm.HandleFocus | src/components/Contact.tsx:59-61 | focus records the field, and exactly that field's label is highlighted |
| Contact.ContactForm.HandleBlur | src/components/Contact.tsx:63-65 | blur clears the focus, and no label is highlighted |
| Contact.ContactForm.BeginSubmit | src/components/Contact.tsx:67-80 | submitting raises `isSubmitting` and sends the current draft as the request body |
| Contact.ContactForm.CompleteSubmit | src/components/Contact.tsx:82-97 | settling adds exactly one toast of the right kind, clears or keeps the draft, and always lowers `isSubmitting` |
| Contact.SubmitOnce | src/components/Contact.tsx:67-97 | a whole submission sends the draft as it stood, shows one toast, clears the draft on success and keeps it on failure, and ends not submitting |
| RetroPopup.Popup.constructor | src/components/ui/retro-popup.tsx:27-39 | mounting open shows the popup; mounting closed schedules the hide |
| RetroPopup.Popup.SetOpen | src/components/ui/retro-popup.tsx:30-39 | opening shows the popup at once and cancels a pending hide; closing keeps it visible with the hide pending; an unchanged value does nothing |
| RetroPopup.Popup.HideTimerFires | src/components/ui/retro-popup.tsx:34-36 | the 300 ms timer hides the popup only if it is still pending |
| RetroPopup.CloseRendersUntilHide | src/components/ui/retro-popup.tsx:30-41 | an open popup that is closed still renders until the 300 ms timer fires, and renders nothing after it |
| RetroPopup.CloseThenReopen | src/components/ui/retro-popup.tsx:30-41 | re-opening before the hide timer fires leaves the popup visible and rendered |
| RetroPopup.ScaledDrawBelow | src/components/ui/retro-popup.tsx:149 | a draw in [0, 1) times n lies in [0, n) |
| RetroPopup.PickIndex | src/components/ui/retro-popup.tsx:149 | for a non-empty list the index is in [0, the list length) |
| RetroPopup.Pick | src/components/ui/retro-popup.tsx:149 | a non-empty list yields one of its prizes; an empty one yields undefined |
| RetroPopup.SpinLabelCases | src/components/ui/retro-popup.tsx:203-207 | the label is "SPINNING..." while spinning, "SPIN AGAIN" exactly when the result panel shows, and "SPIN" otherwise |
| RetroPopup.Spinner.constructor | src/components/ui/retro-popup.tsx:139-140 | a spinner starts idle with no prize |
| RetroPopup.Spinner.HandleSpin | src/components/ui/retro-popup.tsx:142-146 | a spin while spinning changes nothing; otherwise spinning starts and the choice is scheduled |
| RetroPopup.Spinner.Fire | src/components/ui/retro-popup.tsx:148-156 | the choice stores a prize from the list; the finish stops spinning and hands `onSpin` the same prize that was stored |
| Experience.Find | src/components/Experience.tsx:186 | `find` returns a record with the id, from the list, exactly when one exists, and it is the first such record |
| Experience.FindUnique | src/components/Experience.tsx:186 | with unique ids, `find` returns the record at that id's position |
| Experience.ExperiencesUnique | src/components/Experience.tsx:18-87 | the four records have distinct ids |
| Experience.ExactlyOneHighlighted | src/components/Experience.tsx:205-212 | with unique ids and an existing selection, exactly one tab is highlighted, the one whose id is selected |
| Experience.Tabs.constructor | src/components/Experience.tsx:156-159 | the selection starts at 1, showing the record with id 1 |
| Experience.Tabs.HandleTabChange | src/components/Experience.tsx:185-191 | an existing id becomes the selection and its record is shown; an unknown id changes nothing; the shown record's id always equals the selection |
| Navbar.Navbar.constructor | src/components/Navbar.tsx:7-8 | the bar starts not scrolled and with the menu closed |
| Navbar.Navbar.HandleScroll | src/components/Navbar.tsx:11-17 | a scroll event sets the scrolled flag to scrollY > 10 and leaves the menu alone |
| Navbar.Navbar.ToggleMenu | src/components/Navbar.tsx:60 | the menu button flips the menu |
| Navbar.Navbar.CloseMenu | src/components/Navbar.tsx:72-76 | a mobile link closes the menu |
| Navbar.TogglesCancel | src/components/Navbar.tsx:60 | two presses of the menu button restore the menu state |
| Navbar.CloseIdempotent | src/components/Navbar.tsx:69-76 | closing twice leaves the menu closed and not rendered |
| Skills.ColumnsPartition | src/components/Skills.tsx:110-116 | together the two columns list every skill once, in order; the first column holds min(4, n) skills |
| Skills.BarShowsLevel | src/components/Skills.tsx:64-69 | a bar's label and its width are the same string, and it reads back as the skill's level |
| Skills.LevelsArePercentages | src/components/Skills.tsx:11-54 | every listed level is at most 100 |
| Decimal.ToDecimal | src/components/Skills.tsx:64 | a number prints as a non-empty run of digits with no leading zero |
| Decimal.ParseDecimal | src/pages/Index.tsx:39 | parsing succeeds exactly on non-empty runs of digits |
| Decimal.ParseToDecimal | src/components/Skills.tsx:64-69 | printing a number and parsing it back gives the number |
| Decimal.ToDecimalInjective | src/components/Projects.tsx:94 | different numbers print differently |
| Projects.StaggerIncreasing | src/components/Projects.tsx:89 | card delays grow strictly with the index, 100 ms per position |
| Projects.DelayStyleShowsDelay | src/components/Projects.tsx:89 | the `animationDelay` value is the delay's digits followed by "ms", and the digits read back as index * 100 |
| Projects.FileLabelsDistinct | src/components/Projects.tsx:94 | the number in a card's label is its index + 1, so no two cards share a label |
| Projects.NoListedSourceLinks | src/components/Projects.tsx:33-52 | neither listed project has a repository link, so no card shows SOURCE |
| CustomCursor.Closest | src/components/CustomCursor.tsx:24-25 | `closest` finds the first element, from the target upwards, with the tag, or none when no element has it |
| CustomCursor.IsInteractiveIff | src/components/CustomCursor.tsx:21-27 | the target is interactive exactly when it or an ancestor is a link or button, or it has class hover-btn, role button, or data-interactive |
| CustomCursor.Cursor.constructor | src/components/CustomCursor.tsx:5-8 | the cursor starts at (-100, -100), not hovering, not clicking, not visible |
| CustomCursor.Cursor.HandleMouseMove | src/components/CustomCursor.tsx:14-17 | a move sets the position to the event's coordinates and makes the cursor visible |
| CustomCursor.Cursor.HandleMouseOver | src/components/CustomCursor.tsx:19-32 | hovering is set to the interactive-target test |
| CustomCursor.Cursor.HandleMouseOut | src/components/CustomCursor.tsx:34-36 | mouseout clears hovering |
| CustomCursor.Cursor.HandleMouseDown | src/components/CustomCursor.tsx:38-40 | mousedown sets clicking |
| CustomCursor.Cursor.HandleMouseUp | src/components/CustomCursor.tsx:42-44 | mouseup clears clicking |
| IndexPage.SectionIndex | src/pages/Index.tsx:38-39 | only single characters "0" to "5" give an index; the index is the digit's value and within the six sections |
| IndexPage.ScrollTarget | src/pages/Index.tsx:34-53 | a key scrolls to the section at its index exactly when that section's ref is set |
| IndexPage.DigitKeysInOrder | src/pages/Index.tsx:40-47 | keys 0 to 5 map in order to hero, about, experience, skills, projects and contact |
| IndexPage.OtherKeysIgnored | src/pages/Index.tsx:38 | "6", "a", "10" and the empty key scroll nowhere |
| IndexPage.KeyReachesSection | src/pages/Index.tsx:38-52 | each section's digit key reaches that section, if it is mounted |
| LoadingScreen.Increment | src/components/LoadingScreen.tsx:12 | each tick adds a whole number from 5 to 19 |
| LoadingScreen.NextProgressBounds | src/components/LoadingScreen.tsx:11-14 | a tick never decreases progress and never passes 100; below the cap it adds 5 to 19 |
| LoadingScreen.ProgressLowerBound | src/components/LoadingScreen.tsx:10-15 | after k ticks progress is at least min(100, start + 5k), at most 100, and not below the start |
| LoadingScreen.ReadyAfterTwentyTicks | src/components/LoadingScreen.tsx:10-15 | twenty ticks reach 100, whatever the draws |
| LoadingScreen.TwelveTicksMayStopShort | src/components/LoadingScreen.tsx:10-20 | twelve ticks, all the 1200 ms timeout leaves room for, can end at 60 with the smallest draws, so "SYSTEM READY" is not guaranteed to show |
| LoadingScreen.LoadingScreen.constructor | src/components/LoadingScreen.tsx:5-6 | progress starts at 0, loading |
| LoadingScreen.LoadingScreen.Tick | src/components/LoadingScreen.tsx:11-14 | the interval adds the increment and caps at 100; progress never decreases |
| LoadingScreen.LoadingScreen.FinishLoading | src/components/LoadingScreen.tsx:18-29 | the 1200 ms timeout ends loading; the screen then renders nothing, "SYSTEM READY" included |
| Progress.Segments | src/components/ui/progress.tsx:32-37 | there are exactly 10 segments, and segment i is lit exactly when value >= (i + 1) * 10 |
| Progress.LitIsPrefix | src/components/ui/progress.tsx:37 | lit segments form a prefix |
| Progress.CountLitPrefix | src/components/ui/progress.tsx:32-37 | a row lit on exactly its first k positions has k lit segments |
| Progress.LitCount | src/components/ui/progress.tsx:32-37 | the number of lit segments is the value's whole tens, clamped to 0..10 |
| Progress.MissingValue | src/components/ui/progress.tsx:27-37 | a missing value lights no segment and gives offset 100 |
| Progress.OffsetMatchesSegments | src/components/ui/progress.tsx:27-37 | for a value in 0..100 the indicator offset is in 0..100, and the lit segments are the whole tens of 100 minus the offset |
| Progress.ColorClass | src/components/ui/progress.tsx:13-14 | a non-empty given class is used as is; a missing or empty one gives "bg-primary"; the result is never empty |
| Utils.IncludesFrom | src/lib/utils.ts:10 | the left-to-right scan finds the substring exactly when it occurs at or after the start position |
| Utils.GetBasePath | src/lib/utils.ts:8-16 | the base is "/vinaymaurya_portfolio" exactly for a production build whose URL contains "github.io", and "" otherwise |
| Utils.GetImagePath | src/lib/utils.ts:19-21 | the image path is the base followed by the path, so it ends with the path; outside production it is the path itself |

## Left out

- Real time. Every `setTimeout`, `setInterval` and `requestAnimationFrame` callback is a method call (`Fire`, `Tick`, `HideTimerFires`, `FinishLoading`). The delays are recorded where the code sets them, but nothing orders timers against each other.
- Randomness. `Math.random()` is a parameter in [0, 1) of `Spinner.Fire` and `LoadingScreen.Tick`.
- The browser APIs: IntersectionObserver, `observe`/`unobserve`, the 0.1 threshold, MutationObserver, the cursor style changes, the touch-device test, `scrollIntoView`, and document title changes. The reveal latch starts from the callback's entries.
- The contact form's `fetch`, its JSON serialisation, the endpoint, `console.error`, and the toast texts. Only the request body, whether the transport threw, and the kind of toast are modelled.
- Pixelation canvas drawing (`drawImage`, `getImageData`, `fillRect`, `toDataURL`). A frame is reduced to its block size. The per-step delay `duration / steps` is a float and is not recorded.
- Pixelation.PixelSize: JavaScript computes `(steps - currentStep) / steps * 16` in floating point before `Math.ceil`. The model uses exact integer ceiling division, which rounding could differ from by one. Negative or fractional `steps` are not modelled (steps is a natural number).
- Typewriter.Resolve: JavaScript would accept negative or fractional speeds and delays; the model takes natural numbers.
- `useGlitchEffect` and `useStaticNoiseEffect` (random characters, fractional counters, float opacity), `useScanlineEffect` (empty), and `usePixelHoverEffect` (DOM node creation).
- Contact.ContactForm.HandleChange: an input whose `name` is not one of the three fields would add a new key to the draft in JavaScript. The form has only the three inputs, so the model uses an enumeration.
- RetroPopup.Spinner.HandleSpin: reads `isSpinning` as of the last render. Two clicks before React re-renders could both start a spin. The model reads the current value.
- Spinner wheel angles, the variant and position class tables, and all other class-name strings.
- Navbar.Navbar.HandleScroll: `scrollY` is a real number and the comparison is exact. Unmounting removes the listener; that step is not modelled.
- Progress.Segments: the value is an integer. A fractional or NaN value is not modelled.
- The skill icons and the experience records' other text fields are not modelled: logo, type, period, location, responsibilities, skills, URL.
- `cn` (clsx and tailwind-merge), the button variants, the toaster, the count-up animation hook, App, Hero, Footer, and the Tailwind configuration. These are library calls, rendering, or configuration.
- LoadingScreen.Increment: the draw is read as an exact real, so `Math.floor(draw * 15 + 5)` is at most 19. In double arithmetic the single draw 1 − 2^-53 makes `draw * 15` equal 15 − 2^-49, and adding 5 then rounds (half to even) to 20.0, so that tick adds 20. Every draw up to 1 − 2^-52 adds at most 19. The model also does not follow other rounding of `draw * 15 + 5` next to a whole number.
- LoadingScreen.NextProgressBounds: its bound of at most 19 per tick inherits the exact-real reading of `Increment`; with such a draw a tick can add 20.
- LoadingScreen.LoadingScreen.Tick: the interval and the 1200 ms timeout are separate calls, and the model does not order them. "At most twelve ticks before loading ends" is stated in words, not derived. The interval is cleared only on unmount, so ticks after loading ends are still allowed.
- CustomCursor.Cursor.HandleMouseMove: `clientX` and `clientY` are doubles; the model takes integers.
- CustomCursor.IsInteractive: tag names are compared with the upper-case HTML names "A" and "BUTTON". An SVG `<a>`, whose `tagName` is "a" and which `closest('a')` matches, is not treated as a link.
