# Hľadáme Dronom site components: a Dafny model

This project models the interactive components of the "Hľadáme Dronom" web
site. The site belongs to a drone search-and-rescue group that looks for lost
pets. The model covers these components:

- **coverage map** (`MapCoverage`): normalises district names from a
  GeoJSON feature collection and sorts the districts into three map layers:
  west region, covered, and the Bratislava no-drone region. It also holds
  the map's state slots: the loaded layers, the error line, the height, the
  mobile flag and the legend.
- **team carousel** (`TeamGrid`): wraps indices on the cycle of members,
  computes `getDelta` (the short-way distance to the active card), decides
  which cards are visible and how they look and sit, and holds the state
  that buttons, swipes and the auto-advance timer change.
- **photo gallery** (`PhotoCarousel`): slide index and direction, the
  keyboard, bullets, swipes, hover-gated auto-advance, the info panel that
  hides on every change of slide, and the aspect rule.
- **Rasty timeline** (`RastyTimeline`): a clamped swipe between six steps,
  the dots, and placement above or below the line.
- **contact form** (`ContactForm`): the phone key filter, phone cleaning,
  the phone pattern and the validation schema, and what a submission
  outcome does to the result line, the thanks dialog and the form values.
- **header** (`Navigbar`): the link list and call to action chosen by the
  path, the elevated look, and the mobile menu flag.
- **page transition** (`PageTransition`): the slide direction taken from
  the page order and the previous path, the entry and exit offsets, and the
  remembered previous path.
- **"how to proceed" section** (`Postup`): five steps anchored along a
  path, the step dialog, and the dialog's top clamped into the viewport.

Three support modules hold ECMAScript semantics the components depend on:

- `Wrappers`: `Option`.
- `JsNumber`: `Math.abs`, `Math.sign`, `Math.min`/`Math.max`, and the
  truncating `%`.
- `Text`: `\s` and `trim`, `startsWith`, string `<`, and the decimal
  rendering of a number inside a template literal.

Pure logic is modelled as functions with lemmas. Each component's React state
and refs are modelled as a class whose methods are the event handlers and
effects. Every method states the component's whole new state. Network
fetches, timers, the DOM and the browser are not modelled. Their results
(a fetch outcome, a tick, a window width, a scroll offset, a path's
geometry) arrive as method parameters.

The model follows the code. Two of its behaviours are easy to mistake:

- Name normalisation is not idempotent, and it strips only `okres` plus
  white space (no `district ` prefix), and only at the very start of the
  lower-cased string. Trimming happens last, so normalising
  `" Okres Nitra"` gives `"okres nitra"`, and normalising that again gives
  `"nitra"`. `MapCoverage.NotIdempotent` proves this.
- In `TeamGrid.tsx` the mobile view is a component declared inside
  `TeamGrid`. Every re-render of `TeamGrid` therefore mounts a fresh one,
  with a fresh `startX` ref. That happens on a tick, a button press, a new
  window width, and a selection that changes some state. Re-selecting the
  active card after an interaction changes nothing and keeps the ref. The
  model clears `startX` on exactly those events.

## Model

| member | source | states |
|---|---|---|
| JsNumber.Rem | src/components/TeamGrid.tsx:68-70 | JavaScript's `%` keeps the dividend's sign: the result is in `(-b, b)`, non-negative for a non-negative dividend and non-positive for a non-positive one |
| JsNumber.RemVersusMod | src/components/TeamGrid.tsx:68-70 | the truncating `%` agrees with the Euclidean one on non-negative dividends and is `b` less on negative non-multiples |
| JsNumber.Clamp | src/components/RastyTimeline.tsx:30 | `Math.min(Math.max(x, lo), hi)` never exceeds `hi`, is at least `lo` when `lo <= hi`, and keeps an `x` already in range |
| JsNumber.Sign | src/components/PageTransition.tsx:25 | `Math.sign` is 0, 1 or -1 exactly when its argument is zero, positive or negative |
| Text.TrimSpec | src/components/MapCoverage.tsx:17 | `trim` leaves no white space at either end, never lengthens, and gives `""` exactly for all-white-space strings |
| Text.TrimStartSpec | src/components/MapCoverage.tsx:17 | the leading white-space run is dropped, whole, and nothing else |
| Text.TrimEndSpec | src/components/MapCoverage.tsx:17 | the trailing white-space run is dropped, whole, and nothing else |
| Text.TrimIdempotent | src/components/MapCoverage.tsx:17 | trimming twice is trimming once |
| Text.TrimUnpadded | src/components/MapCoverage.tsx:17 | a string without white space at its ends is its own trim |
| Text.DecimalString | src/components/MapCoverage.tsx:147 | `${n}` is a non-empty run of digits without a leading zero, one digit exactly for `n < 10` |
| Text.DecimalRoundTrip | src/components/MapCoverage.tsx:147 | reading the digits of `${n}` back gives `n` |
| Text.DecimalInjective | src/components/MapCoverage.tsx:147 | different numbers render differently |
| MapCoverage.FoldCharSpec | src/components/MapCoverage.tsx:13-15 | NFD, stripping U+0300–U+036F and lower-casing turn a character into at most one character: none exactly for a combining mark, and never an upper-case letter or a mark; white space and `a`–`z` are kept |
| MapCoverage.FoldAllSpec | src/components/MapCoverage.tsx:13-15 | the folded string is no longer than the input, and none of its characters is a combining mark or an upper-case letter |
| MapCoverage.FoldAllAppend | src/components/MapCoverage.tsx:13-15 | folding works character by character: folding a concatenation concatenates the folds |
| MapCoverage.StripOkresSuffix | src/components/MapCoverage.tsx:16 | removing the `okres` prefix leaves a suffix of the string |
| MapCoverage.NormalizeSpec | src/components/MapCoverage.tsx:11-18 | a normalised name has no combining marks, no upper-case letters, and no white space at either end |
| MapCoverage.OkresOnlyAtStart | src/components/MapCoverage.tsx:16-17 | `okres` plus white space is removed only when it starts the folded string; otherwise normalising is folding and trimming |
| MapCoverage.NormalizeFirst | src/components/MapCoverage.tsx:11-18 | a name that starts with a character folding to a letter other than `o` keeps that letter in front |
| MapCoverage.NormalizeOkresWord | src/components/MapCoverage.tsx:16-17 | `"okres " + w` normalises to `w` for a lower-case ASCII word `w` |
| MapCoverage.SpacedOkresOnce | src/components/MapCoverage.tsx:16-17 | a leading space blocks the prefix removal: `" Okres " + t` normalises to `"okres " + fold(t)` |
| MapCoverage.NotIdempotent | src/components/MapCoverage.tsx:16-17 | normalising twice can differ from normalising once: `" Okres " + t` loses its `okres` only on the second pass |
| MapCoverage.NitraFirstPass | src/components/MapCoverage.tsx:11-18 | `" Okres Nitra"` normalises to `"okres nitra"` |
| MapCoverage.NitraSecondPass | src/components/MapCoverage.tsx:11-18 | `"okres nitra"` normalises to `"nitra"` |
| MapCoverage.CapitalNormalizesNonEmpty | src/components/MapCoverage.tsx:11-18 | a name that starts with a capital letter normalises to a non-empty string that starts with that letter folded |
| MapCoverage.UsableTrim | src/components/MapCoverage.tsx:25-28 | a property value is usable exactly when it is a string whose trim is non-empty |
| MapCoverage.KeyIndex | src/components/MapCoverage.tsx:24 | a property lookup finds the first entry with that key, or reports that there is none |
| MapCoverage.GetDistrictNameRaw | src/components/MapCoverage.tsx:20-31 | the raw name is `""` or a string that is not blank |
| MapCoverage.NameFromCandidate | src/components/MapCoverage.tsx:22-26 | when candidate key `j` is the first of the priority list with a usable value, that value is returned untrimmed |
| MapCoverage.NameFromScan | src/components/MapCoverage.tsx:27-29 | when no candidate key is usable, the first usable string in property order is returned |
| MapCoverage.NameEmptyIff | src/components/MapCoverage.tsx:22-30 | the raw name is `""` exactly when no property holds a non-blank string |
| MapCoverage.ScanPicks | src/components/MapCoverage.tsx:27-29 | the property scan returns the first usable entry |
| MapCoverage.KeysPick | src/components/MapCoverage.tsx:23-26 | the candidate loop returns the value of the first key with a usable value |
| MapCoverage.KeysFallThrough | src/components/MapCoverage.tsx:23-29 | with no usable candidate key, the candidate loop falls through to the property scan |
| MapCoverage.NormalizeAll | src/components/MapCoverage.tsx:106 | `.map(normalizeName)` keeps the list's length |
| MapCoverage.Filter | src/components/MapCoverage.tsx:160-181 | `filter` returns an order-preserving subsequence |
| MapCoverage.FilterCounts | src/components/MapCoverage.tsx:160-181 | `filter` keeps every kept element as often as it occurs and drops every other element |
| MapCoverage.LayerContents | src/components/MapCoverage.tsx:160-181 | each layer is an order-preserving subsequence of the features, holding exactly the features its predicate admits, each as often as in the input |
| MapCoverage.LayerMember | src/components/MapCoverage.tsx:160-181 | a feature is in a layer exactly when it is among the features and the layer admits its normalised name |
| MapCoverage.WestBratislavaDisjoint | src/components/MapCoverage.tsx:160-181 | no feature is in both the west layer and the Bratislava layer |
| MapCoverage.UnnamedInNoLayer | src/components/MapCoverage.tsx:160-181 | if no configured name is empty, a feature whose raw name is `""` is in no layer |
| MapCoverage.ConfiguredNamesNonEmpty | src/components/MapCoverage.tsx:91-158 | every configured west, covered and Bratislava name is non-empty after normalisation |
| MapCoverage.NormalizeAllNonEmpty | src/components/MapCoverage.tsx:91-139 | names that start with a capital letter all normalise to non-empty strings |
| MapCoverage.GalantaNormalized | src/components/MapCoverage.tsx:11-18 | `"Galanta"` normalises to `"galanta"` |
| MapCoverage.GalantaWest | src/components/MapCoverage.tsx:110-139 | `"galanta"` is a configured west name |
| MapCoverage.GalantaCovered | src/components/MapCoverage.tsx:91-108 | `"galanta"` is a configured covered name |
| MapCoverage.GalantaNotBratislava | src/components/MapCoverage.tsx:150-158 | `"galanta"` is not a Bratislava name |
| MapCoverage.InWestAndCovered | src/components/MapCoverage.tsx:160-174 | the covered layer is not filtered against Bratislava, so a feature whose name is a west and a covered name, and not a Bratislava name, is in both layers |
| MapCoverage.GalantaInWestAndCovered | src/components/MapCoverage.tsx:160-174 | a Galanta feature is drawn in both the west and the covered layer |
| MapCoverage.EnsurePaneSpec | src/components/MapCoverage.tsx:36-42 | `ensure` creates a missing pane with its z-index and leaves an existing pane and every other pane as they were |
| MapCoverage.SetupPanesIdempotent | src/components/MapCoverage.tsx:44-46 | running the pane setup again changes nothing |
| MapCoverage.SetupPanesOrder | src/components/MapCoverage.tsx:33-49 | on a fresh map the panes stack west under covered under no-drone, and existing panes are kept |
| MapCoverage.MapHeightSpec | src/components/MapCoverage.tsx:73-77 | the height is 380, 500 or 600, grows with the width, is 380 exactly on mobile widths (< 640) and 600 exactly from 1024 |
| MapCoverage.HttpErrorMessage | src/components/MapCoverage.tsx:147 | a failed HTTP status gives the message `HTTP ` followed by digits that read back as the status |
| MapCoverage.CoverageMap.constructor | src/components/MapCoverage.tsx:52-64 | the initial state: not mounted, height 380, not mobile, legend open, no layers, no error |
| MapCoverage.CoverageMap.Mount | src/components/MapCoverage.tsx:67-89 | mounting measures the width (height and mobile flag follow it), registers the resize listener, and opens the legend exactly off mobile |
| MapCoverage.CoverageMap.Resize | src/components/MapCoverage.tsx:70-89 | while listening, a resize recomputes height and mobile flag; the legend is reset only when the mobile flag changes |
| MapCoverage.CoverageMap.ToggleLegend | src/components/MapCoverage.tsx:278 | the legend button flips the legend and nothing else |
| MapCoverage.CoverageMap.DistrictsSettled | src/components/MapCoverage.tsx:142-197 | after cancellation nothing changes; a loaded collection sets the three layers and clears the error; a failure records its message |
| MapCoverage.CoverageMap.NoDroneSettled | src/components/MapCoverage.tsx:200-218 | after cancellation nothing changes; a loaded collection is stored whole; a failure never overwrites a recorded error |
| MapCoverage.CoverageMap.Unmount | src/components/MapCoverage.tsx:194-196 | unmounting cancels both loads and removes the resize listener |
| TeamGrid.Wrap | src/components/TeamGrid.tsx:68-70 | `((i % len) + len) % len` with the truncating `%` is the Euclidean residue of `i` |
| TeamGrid.WrapSpec | src/components/TeamGrid.tsx:68-70 | a wrapped index is in `[0, len)`, congruent to `i`, and `i` itself when already in range |
| TeamGrid.NextValue | src/components/TeamGrid.tsx:171-174 | `next` moves one card on, from the last back to the first |
| TeamGrid.PrevValue | src/components/TeamGrid.tsx:176-179 | `prev` moves one card back, from the first round to the last |
| TeamGrid.NextPrevInverse | src/components/TeamGrid.tsx:171-179 | `next` and `prev` stay in range and undo each other |
| TeamGrid.DeltaSpec | src/components/TeamGrid.tsx:213-217 | `getDelta` is congruent to `i - active`, lies in `(-len/2, len/2]` (a tie goes positive), and is 0 exactly when `i` is the active card modulo `len` |
| TeamGrid.DeltaUnique | src/components/TeamGrid.tsx:213-217 | any value with those two properties is the delta: an independent characterisation |
| TeamGrid.DeltaInjective | src/components/TeamGrid.tsx:213-217 | different cards have different deltas |
| TeamGrid.StepDelta | src/components/TeamGrid.tsx:213-217 | the card `k` steps away, for `|k| <= 2`, has delta `k` |
| TeamGrid.DrawnAmongSpec | src/components/TeamGrid.tsx:251-253 | the drawn cards are exactly the visible ones, in member order |
| TeamGrid.VisibleAtMost | src/components/TeamGrid.tsx:251-253 | at most `2·sideCount+1` cards are drawn |
| TeamGrid.VisibleAtLeast | src/components/TeamGrid.tsx:251-253 | at least `2·sideCount+1` cards are drawn |
| TeamGrid.ZeroDeltaIsActive | src/components/TeamGrid.tsx:213-217 | among the members, only the active card has delta 0 |
| TeamGrid.VisibleCount | src/components/TeamGrid.tsx:251-255 | exactly `2·sideCount+1` cards are drawn, in order, the active card among them and the only one with delta 0 |
| TeamGrid.CardLook | src/components/TeamGrid.tsx:264-266 | z-index 60, scale 1 and opacity 1 exactly for the active card; z-index never grows with distance |
| TeamGrid.PositionsSymmetric | src/components/TeamGrid.tsx:187-209 | the offset of delta `-d` is the negation of that of `d`, and the active card sits at 0 |
| TeamGrid.PositionsOrder | src/components/TeamGrid.tsx:187-209 | the near side cards are at least 620 px from the centre; the far cards lie beyond them exactly when the window is wider than 1532 px |
| TeamGrid.TeamCarousel.constructor | src/components/TeamGrid.tsx:73-77 | the first member is active, nothing has been interacted with, and no touch has started |
| TeamGrid.TeamCarousel.GoNext | src/components/TeamGrid.tsx:97-100 | next: the active card becomes `Next(active)` and `hasInteracted` is set |
| TeamGrid.TeamCarousel.GoPrev | src/components/TeamGrid.tsx:102-105 | prev: the active card becomes `Prev(active)` and `hasInteracted` is set |
| TeamGrid.TeamCarousel.Select | src/components/TeamGrid.tsx:306-309 | a dot or a side card selects that member and sets `hasInteracted`; the touch start is cleared by the re-render, and kept exactly when the card was already active after an interaction, since nothing then changes |
| TeamGrid.TeamCarousel.Tick | src/components/TeamGrid.tsx:79-87 | the timer advances one card with wrap only while nobody has interacted, and then does nothing at all |
| TeamGrid.TeamCarousel.Resize | src/components/TeamGrid.tsx:89-94 | a resize records the width and changes nothing else, except that a new width re-renders and so resets the touch start |
| TeamGrid.TeamCarousel.TouchStart | src/components/TeamGrid.tsx:108-110 | a touch records its start |
| TeamGrid.TeamCarousel.TouchEnd | src/components/TeamGrid.tsx:111-119 | without a start nothing changes; otherwise the start is cleared, a move of more than 40 px leftwards is next, rightwards is prev, and a shorter one changes nothing else |
| PhotoCarousel.StepsSpec | src/components/PhotoCarousel.tsx:97-105 | `next` and `prev` stay in `[0, slides.length)`, move one slide round the cycle, and undo each other |
| PhotoCarousel.SlideOffsets | src/components/PhotoCarousel.tsx:146-164 | a slide enters 40 px on the side of the direction and the old one leaves 40 px on the other side |
| PhotoCarousel.AspectByCrossMultiplying | src/components/PhotoCarousel.tsx:167-169 | the class is `aspect-[4/3]` exactly when `5h > 4w` |
| PhotoCarousel.GalleryIsWide | src/components/PhotoCarousel.tsx:167-169 | every slide of the gallery gets `aspect-[16/9]` |
| PhotoCarousel.Gallery.constructor | src/components/PhotoCarousel.tsx:89-95 | the first slide, forwards, no hover, info hidden, no touch |
| PhotoCarousel.Gallery.SetIndex | src/components/PhotoCarousel.tsx:126-128 | setting the index hides the info panel exactly when the index changes |
| PhotoCarousel.Gallery.GoNext | src/components/PhotoCarousel.tsx:97-100 | next: forwards, the following slide, info hidden |
| PhotoCarousel.Gallery.GoPrev | src/components/PhotoCarousel.tsx:102-105 | prev: backwards, the preceding slide, info hidden |
| PhotoCarousel.Gallery.Bullet | src/components/PhotoCarousel.tsx:327-330 | a bullet jumps to its slide, forwards exactly when the target is after the current slide (so the current bullet sets backwards) |
| PhotoCarousel.Gallery.Key | src/components/PhotoCarousel.tsx:115-123 | ArrowRight is next, ArrowLeft is prev, Escape hides the info panel, and any other key changes nothing |
| PhotoCarousel.Gallery.ToggleInfo | src/components/PhotoCarousel.tsx:218 | the info button flips the panel and nothing else |
| PhotoCarousel.Gallery.CloseInfo | src/components/PhotoCarousel.tsx:249 | each close control hides the panel and nothing else |
| PhotoCarousel.Gallery.MouseEnter | src/components/PhotoCarousel.tsx:174 | hovering stops the auto-advance timer |
| PhotoCarousel.Gallery.MouseLeave | src/components/PhotoCarousel.tsx:175 | leaving restarts the auto-advance timer |
| PhotoCarousel.Gallery.Tick | src/components/PhotoCarousel.tsx:107-113 | a tick is next while not hovering, and does nothing while hovering |
| PhotoCarousel.Gallery.TouchStart | src/components/PhotoCarousel.tsx:130-131 | a touch records its start |
| PhotoCarousel.Gallery.TouchEnd | src/components/PhotoCarousel.tsx:133-141 | without a start nothing changes; a move of more than 40 px leftwards is next and rightwards is prev; the start is cleared either way |
| RastyTimeline.DaysDistinct | src/components/RastyTimeline.tsx:12-19 | the day labels, used as keys, are distinct |
| RastyTimeline.SwipeTargetSpec | src/components/RastyTimeline.tsx:29-30 | a swipe stays within the steps and moves one step, forwards for a leftward swipe; at the end it pushes against it is a no-op |
| RastyTimeline.SwipeBackAndForth | src/components/RastyTimeline.tsx:30 | swiping back and then forwards returns to the step, except at the ends |
| RastyTimeline.PlacementAlternates | src/components/RastyTimeline.tsx:86-89 | on wide screens the first step is above the line and neighbouring steps are on opposite sides |
| RastyTimeline.Timeline.constructor | src/components/RastyTimeline.tsx:22-24 | the first step is active and no touch has started |
| RastyTimeline.Timeline.Dot | src/components/RastyTimeline.tsx:50 | a dot selects its step |
| RastyTimeline.Timeline.TouchStart | src/components/RastyTimeline.tsx:25 | a touch records its start |
| RastyTimeline.Timeline.TouchEnd | src/components/RastyTimeline.tsx:26-32 | without a start nothing changes; otherwise the step stays in range, moves to the clamped neighbour beyond the 40 px threshold, stays below it, and the start is cleared |
| ContactForm.DigitRangeIff | src/components/ContactForm.tsx:65 | `"0" <= key <= "9"` as strings admits a key that starts with `0`–`8`, whatever follows, and the key `"9"` |
| ContactForm.KeyBlockedIff | src/components/ContactForm.tsx:53-70 | a key is let through exactly when it is listed, in the digit range, `+` or a space |
| ContactForm.SingleCharKey | src/components/ContactForm.tsx:53-70 | of the one-character keys, exactly the digits, `+` and space pass |
| ContactForm.CleanPhoneSpec | src/components/ContactForm.tsx:73 | cleaning keeps only digits, `+` and white space, in order, and changes the input exactly when the input had something else |
| ContactForm.CleanPhoneIdempotent | src/components/ContactForm.tsx:73 | cleaning twice is cleaning once |
| ContactForm.CleanPhoneShorter | src/components/ContactForm.tsx:73 | cleaning never makes the phone longer in code units, so a cleaned value still fits the input's `maxLength` |
| ContactForm.JsLengthSpec | src/components/ContactForm.tsx:14-21 | `length` counts UTF-16 code units: at least one per character, and exactly one each inside the Basic Multilingual Plane |
| ContactForm.PhoneMatchesSpec | src/components/ContactForm.tsx:16-19 | an accepted phone has 7 to 21 characters, only phone characters, `+` at most once and only first; cleaning keeps it, and it meets `min(7)` |
| ContactForm.PhoneMatchesComplete | src/components/ContactForm.tsx:11 | 7 to 20 digits or spaces, with or without one leading `+`, are accepted |
| ContactForm.ValidateIff | src/components/ContactForm.tsx:13-22 | the form passes exactly when both names have at least 2 code units, the phone matches, the e-mail passes and the message has at least 10 |
| ContactForm.FieldErrorLocal | src/components/ContactForm.tsx:13-22 | each field's verdict depends only on that field, so revalidating just the edited field gives the verdict of the whole schema |
| ContactForm.FullNameSpec | src/components/ContactForm.tsx:86 | the full name has no surrounding white space, and for unpadded names it is the two joined by one space |
| ContactForm.DecideSpec | src/components/ContactForm.tsx:112-127 | thanks follow exactly an OK response that reports success, with an empty result line; every other outcome leaves a result that starts with `❌`; a non-OK status is written in digits that read back as the status, followed by ` – ` and the server's message when there is one and by nothing otherwise |
| ContactForm.RejectedReply | src/components/ContactForm.tsx:122-123 | an OK reply without success shows the server's message, or `Neznáma chyba servera` when it has none |
| ContactForm.Form.constructor | src/components/ContactForm.tsx:30-40 | empty fields, no errors, not yet submitted, an empty result line, no thanks dialog |
| ContactForm.Form.Edit | src/components/ContactForm.tsx:142-205 | typing stores the text in that field only; before the first submission the errors stay, afterwards that field's error is recomputed, so errors that matched the schema still match it |
| ContactForm.Form.PhoneInput | src/components/ContactForm.tsx:71-75 | the phone field always ends up holding the cleaned text (the typed text when nothing was removed) and stays within 20 code units; its error is recomputed when cleaning removed something or the form was submitted, and kept otherwise |
| ContactForm.Form.OnSubmit | src/components/ContactForm.tsx:77-128 | without a key: the key error, no request, values, errors and thanks unchanged; with one: the request carries the values, the result line follows the outcome, and an accepted request opens the thanks dialog and resets values and errors |
| ContactForm.Form.Submit | src/components/ContactForm.tsx:77-128 | the schema runs first and its errors are shown; a failing field blocks the request and changes nothing else; a passing form goes through `onSubmit` with all its effects on values, result and thanks; anything sent matches the phone pattern within 20 code units and has a message of at least 10; the form counts as submitted |
| ContactForm.Form.CloseThanks | src/components/ContactForm.tsx:246 | closing the thanks dialog hides it and nothing else |
| Navigbar.LinksSpec | src/components/Navigbar.tsx:18-46 | every list starts with Pokrytie and has distinct labels; team pages get five links, Rasty pages two with no Rasty link, and every other path the home page's three |
| Navigbar.CtaSpec | src/components/Navigbar.tsx:48-56 | the call to action stays in its section (`/#postup` outside the team and Rasty pages), and it repeats a header link exactly on the team pages |
| Navigbar.Header.constructor | src/components/Navigbar.tsx:13-16 | menu closed, not elevated, not mounted |
| Navigbar.Header.Mount | src/components/Navigbar.tsx:58-66 | mounting reads the scroll offset once (elevated exactly above 8) and marks the header mounted |
| Navigbar.Header.Scroll | src/components/Navigbar.tsx:59 | the header is elevated exactly when the scroll offset is above 8 |
| Navigbar.Header.ToggleMenu | src/components/Navigbar.tsx:121 | the menu button flips the menu |
| Navigbar.Header.LinkClick | src/components/Navigbar.tsx:68 | a menu link closes the menu |
| Navigbar.Header.Navigate | src/components/Navigbar.tsx:65 | a new path closes the menu; the same path leaves it |
| PageTransition.IndexOfSpec | src/components/PageTransition.tsx:23-24 | `indexOf` gives the first position of a listed path and -1 exactly for an unlisted one |
| PageTransition.OrderIndex | src/components/PageTransition.tsx:20-24 | `/` is at 0, `/nas-tim` at 1, and any other path at -1 |
| PageTransition.DirSpec | src/components/PageTransition.tsx:23-25 | the direction is 1 or -1, and -1 exactly when the new page comes before the previous one |
| PageTransition.DirBetweenPages | src/components/PageTransition.tsx:20-25 | `/` → `/nas-tim` is 1, `/nas-tim` → `/` is -1, staying on a page is 1 |
| PageTransition.DirUnlisted | src/components/PageTransition.tsx:23-25 | a listed page to an unlisted one is -1; with no previous path the previous index counts as 0 |
| PageTransition.PosesSpec | src/components/PageTransition.tsx:31-36 | with motion the exit offset negates the entry offset, which is 8 px towards the direction; with reduced motion no pose has an offset |
| PageTransition.Transition.constructor | src/components/PageTransition.tsx:9-18 | the first render remembers its path and reads the motion preference |
| PageTransition.Transition.Navigate | src/components/PageTransition.tsx:21-29 | a navigation slides by the direction from the remembered path, and afterwards the remembered path is the current one |
| PageTransition.Transition.MotionPreference | src/components/PageTransition.tsx:13-17 | a change of the media query updates the preference only |
| PageTransition.Transition.SettledDir | src/components/PageTransition.tsx:23-29 | once the path is remembered, every re-render without navigation slides forwards |
| Postup.StepsSpec | src/components/Postup.tsx:19-61 | the steps are numbered 1 to 5 in order, with anchors strictly increasing inside `(0, 1)` |
| Postup.ArrowsOnPath | src/components/Postup.tsx:174-176 | the eight arrows sit strictly inside the path, 0.11 apart, from the first step's anchor |
| Postup.Points | src/components/Postup.tsx:71-84 | one marker point per step |
| Postup.ModalTopSpec | src/components/Postup.tsx:93-96 | the dialog top is never above `scrollY + 80`; it is within `[scrollY+80, scrollY+innerHeight-80]` whenever that interval is non-empty, and keeps a centre already inside it |
| Postup.ToggleSpec | src/components/Postup.tsx:193 | a marker closes its step when it is open and opens it otherwise; pressing it twice restores the state unless another step was open |
| Postup.Section.constructor | src/components/Postup.tsx:67-69 | no points, no open step and no dialog top, so neither the markers nor the dialog show |
| Postup.Section.RecomputePts | src/components/Postup.tsx:71-84 | with a path, one point per step is stored and the markers show; without one nothing changes |
| Postup.Section.RecomputeModalTop | src/components/Postup.tsx:86-99 | with the section, the dialog top is the clamped centre; without it nothing changes |
| Postup.Section.ClickMarker | src/components/Postup.tsx:192-193 | a marker toggles its step |
| Postup.Section.Key | src/components/Postup.tsx:123-127 | Escape closes the dialog; any other key leaves the open step |
| Postup.Section.Close | src/components/Postup.tsx:250 | the overlay, the card and the close button all close the dialog |

## Left out

- Network I/O is an input. The two GeoJSON fetches, the form POST and its JSON parse arrive as `Fetched` and `Outcome` values. A body that fails to parse, or parses to `null`, arrives as `None`. `fetch` rejecting (as opposed to a non-OK status) carries its message.
- Timers and effect scheduling are events. `setInterval` ticks, effect runs and the order of the two asynchronous loads are modelled as separate method calls. Neither time nor the four-second interval is modelled.
- Rendering is not modelled. This covers React itself, framer-motion easing and durations, Leaflet maps and tile layers, portals, body scroll locking, and Tailwind classes other than the aspect class.
- DOM geometry is an input. The path's length and points, the section's box, and window sizes and offsets are parameters. The arrows' `atan2` angles and `ArrowAlongPath` are left out because they are floating-point trigonometry.
- MapCoverage.FoldCharSpec: Unicode NFD and `toLowerCase` are modelled for ASCII, the combining marks U+0300–U+036F, and the accented letters of the Slovak alphabet. Every other character passes through unchanged, among them Czech Ř Ě Ů, Hungarian Ö Ő Ü Ű, Polish Ł Ą Ę Ś Ż, ß and non-Latin letters.
- MapCoverage.FoldAllSpec: "no upper-case letter" means none of A–Z and none of the 17 accented Slovak capitals. A capital outside those, such as `Ö`, is kept by the model, whereas `toLowerCase` would lower it.
- MapCoverage.NormalizeSpec: the same limit applies. `Normalize("Ö")` is `"Ö"` in the model, so the promise of no upper-case letters covers only ASCII and the Slovak capitals.
- ContactForm.Validate: the e-mail check belongs to a validation library and enters the model as a flag. `Edit` takes the flag for the text it revalidates.
- ContactForm.Form.Submit: the form counts as submitted after every submission, including one that resets the form. How the form library orders its own `isSubmitted` bookkeeping around `reset()` is not modelled.
- ContactForm.Form.PhoneInput: the 20-code-unit cap is the browser's `maxLength`, so it is taken as a precondition on the typed text. The model does not describe how the browser truncates a longer paste.
- Number formatting: only non-negative integers are rendered (HTTP statuses). The `%` positions of `toLeftPct`/`toTopPct` are not modelled.
- Reals stand in for JavaScript's IEEE doubles in the positions, offsets, touch coordinates and dialog clamp. Rounding is not modelled.
- Static content is data only. Slide images, texts and team member details are left out; the team carousel keeps only the member count, and the gallery keeps only each slide's size.
- Mount states that render nothing are reduced to flags. These are MapCoverage's placeholder before mount and Navigbar's `null` before mount.
- The rest of the repository is not part of this model. That covers the site's static sections and pages (the hero, "how it works", contact block, footer and page files) and the configuration.
