# ngx-slider in Dafny

A Dafny model of `NgxSliderComponent`, the Angular discrete slider of ngx-slider. The component takes
a list of `SliderValue`s (a number plus a display label) and an options record. It lays out one
dash per value on a track, with a pixel offset proportional to the value. Every `step`-th dash stays
visible. A bar sits centred on the current value. The component marks the current label and widens
and colours the tick that opens the current step window. Clicks, drags and form writes move the
value between the listed positions.

The model has four modules:

- `SliderInterface` (`slider_interface.dfy`): the `SliderOptions` and `SliderValue` records,
  `defaultOptions()`, and the shallow `{ ...defaultOptions(), ...options }` merge. Every optional
  field is an `Option`, and `None` means the key is absent.
- `SliderGeometry` (`slider_geometry.dfy`): the pure computations:
  - the value range;
  - JavaScript `Math.round` and the pixel offsets;
  - `find`/`findIndex` as first-match searches;
  - `findClosest` as a seedless `reduce` with a strict `<`;
  - the step window `lowerLimit`/`upperLimit`;
  - the first matching indicator band;
  - the per-dash render state that the handlers' `forEach` loops rewrite (label colour, `active`
    class, tick background, and the widened tick's span).
- `SliderComponent` (`slider_component.dfy`): the component as a class, `NgxSlider`:
  - Fields: the inputs, the resolved options, `innerValue`, the dashes, the bar's CSS `left`,
    whether the bar is attached, the drag in progress, and the values reported to `onChange`.
  - Methods: one per lifecycle hook and event handler. Each is proved against a specification
    function (`Initialised`, `Reposition`, `NearestValue`, `ValueAtBar`) whose properties are
    lemmas.
  - Outcomes: a handler that throws in the source returns `Fail(...)` and leaves the partial state
    the source leaves.
- `SliderScenarios` (`slider_scenarios.dfy`): the demo application's inputs (font sizes 8 to 17,
  font weights 100 and 300 to 900, the dark theme), each stated as a lemma. This includes
  concrete instances of two quirks: the drift of a bare release and the insertion-index window.

Decisions about the source's behaviour:

- The page lookup of the window's ticks (`selectRootElement`) runs for both limits. A missing
  upper-limit tick throws inside the `try`, just as a missing lower one does. So the model widens a
  tick only when dashes stand at both limits, not merely at the lower one.
- `mouseup`/`touchend` are subscribed page-wide without any press. So `DragEnd` commits the value
  nearest to the bar's CSS `left` even when no drag is in progress.
- `init` throws on an unlisted value after it has laid out the dashes and before it attaches the
  bar. `Destroy` then fails on `removeChild` of the unattached bar. The model keeps that error path
  (`BarNotAttached`), and `Resize` stops on it.
- `value || min` treats a committed `0` like an unset value.
- An unset value is `None`.
- A zero `step` makes `index % step` NaN in the source. In the model every dash is then hidden and
  there is no window.

## Model

| member | source | states |
|---|---|---|
| SliderInterface.Defaults | projects/ngx-slider/src/lib/ngx-slider.interface.ts:33-63 | the default record sets every optional key of `SliderOptions`; the default step is positive; every numeric default is non-negative; the default bands are listed by ascending limit |
| SliderInterface.Overlay | projects/ngx-slider/src/lib/ngx-slider.component.ts:50 | one key of the spread: the later record's value when it has the key, the earlier one's otherwise (stated key by key in `SpreadByKey`) |
| SliderInterface.Spread2 | projects/ngx-slider/src/lib/ngx-slider.component.ts:50 | `{ ...base, ...top }` as a record, field by field; `SpreadByKey` states its result for every key |
| SliderInterface.SpreadByKey | projects/ngx-slider/src/lib/ngx-slider.component.ts:50 | for every key, the object spread takes the later record's value when it has one, and the earlier record's otherwise |
| SliderInterface.Merge | projects/ngx-slider/src/lib/ngx-slider.component.ts:50 | the resolved options carry a value for every key, whatever the user supplied |
| SliderInterface.MergeByKey | projects/ngx-slider/src/lib/ngx-slider.component.ts:55 | a key present in the user's options is taken from them unchanged; every absent key keeps its default |
| SliderInterface.MergeUndefined | projects/ngx-slider/src/lib/ngx-slider.component.ts:50 | undefined user options resolve to exactly the defaults |
| SliderInterface.MergeIdempotent | projects/ngx-slider/src/lib/ngx-slider.component.ts:55 | resolving an already resolved record yields the same record |
| SliderInterface.MergeReplacesBands | projects/ngx-slider/src/lib/ngx-slider.interface.ts:22-25 | a user band list replaces the default bands wholesale instead of being merged entry by entry |
| SliderGeometry.Round | projects/ngx-slider/src/lib/ngx-slider.component.ts:91 | the result is the integer nearest to x, with halves rounded up (JavaScript `Math.round`) |
| SliderGeometry.SeqMin | projects/ngx-slider/src/lib/ngx-slider.component.ts:86 | the minimum is one of the values and no value is below it |
| SliderGeometry.SeqMax | projects/ngx-slider/src/lib/ngx-slider.component.ts:86 | the maximum is one of the values and no value is above it |
| SliderGeometry.Offset | projects/ngx-slider/src/lib/ngx-slider.component.ts:90-91 | a dash's pixel offset: the value's percentage of the range, scaled to the track's width and rounded; `OffsetIsRatio`, `OffsetOfMin`, `OffsetOfMax`, `OffsetInTrack` and `OffsetMonotone` state its properties |
| SliderGeometry.OffsetIsRatio | projects/ngx-slider/src/lib/ngx-slider.component.ts:90-91 | the percentage detour cancels out: the offset is the rounded ratio width·(v−min)/(max−min) |
| SliderGeometry.OffsetOfMin | projects/ngx-slider/src/lib/ngx-slider.component.ts:90-91 | the smallest value lands at offset 0 |
| SliderGeometry.OffsetOfMax | projects/ngx-slider/src/lib/ngx-slider.component.ts:90-91 | the largest value lands at offset `width` |
| SliderGeometry.OffsetInTrack | projects/ngx-slider/src/lib/ngx-slider.component.ts:90-91 | every value in the range lands in [0, width] |
| SliderGeometry.OffsetMonotone | projects/ngx-slider/src/lib/ngx-slider.component.ts:90-91 | a larger value never lands further left |
| SliderGeometry.IndexOfValue | projects/ngx-slider/src/lib/ngx-slider.component.ts:163 | `findIndex` returns the first position holding x, or none when no entry holds it |
| SliderGeometry.FindDash | projects/ngx-slider/src/lib/ngx-slider.component.ts:160 | `find` on the dashes returns the first dash whose value is x, or none when no dash has it |
| SliderGeometry.FindDashIsFirst | projects/ngx-slider/src/lib/ngx-slider.component.ts:160 | `find` succeeds exactly when some dash has the value, and it returns dash i exactly when i is the first dash with it |
| SliderGeometry.FindDashOfValues | projects/ngx-slider/src/lib/ngx-slider.component.ts:160-163 | on dashes that carry the list's values in order, `find` on the dashes and `findIndex` on the values agree |
| SliderGeometry.BuildDashes | projects/ngx-slider/src/lib/ngx-slider.component.ts:87-121 | the `map` over the values: one dash per value with its offset, its hidden flag, the normal label colour and the dash background; `DashesCoverValues` states that every value gets a dash in list order and every dash lies on the track |
| SliderGeometry.OffStep | projects/ngx-slider/src/lib/ngx-slider.component.ts:103-106 | the test `index % step !== 0`, with a zero step hiding every dash (NaN is truthy against `!==`); `DashHiddenOffStep` states it on the layout |
| SliderGeometry.DashesCoverValues | projects/ngx-slider/src/lib/ngx-slider.component.ts:87-121 | `init` creates one dash per value, in list order, hidden ones included, and every dash lies on the track |
| SliderGeometry.DashesSpanTrack | projects/ngx-slider/src/lib/ngx-slider.component.ts:86-91 | the dash of the smallest value is at 0 and the dash of the largest is at `width` |
| SliderGeometry.DashesMonotone | projects/ngx-slider/src/lib/ngx-slider.component.ts:86-91 | dash offsets follow the order of the values, not the order of the list |
| SliderGeometry.DashesOrderIndependent | projects/ngx-slider/src/lib/ngx-slider.component.ts:86-91 | two lists with the same set of numbers place equal values at equal offsets, whatever the insertion order or labels |
| SliderGeometry.DashHiddenOffStep | projects/ngx-slider/src/lib/ngx-slider.component.ts:103-106 | the first dash is visible, and a dash is hidden exactly when its index is not a multiple of the step |
| SliderGeometry.ReduceClosest | projects/ngx-slider/src/lib/ngx-slider.component.ts:289 | each step of the reduction keeps a nearest dash; a later dash replaces the winner only when it is strictly nearer |
| SliderGeometry.FindClosest | projects/ngx-slider/src/lib/ngx-slider.component.ts:288-290 | on a non-empty dash list, the result minimises distance to x and every earlier dash is strictly further (the earliest minimiser wins ties) |
| SliderGeometry.ClosestAtTick | projects/ngx-slider/src/lib/ngx-slider.component.ts:288-290 | hitting a tick exactly selects the first dash at that offset |
| SliderGeometry.ClosestAtTickRoundTrip | projects/ngx-slider/src/lib/ngx-slider.component.ts:288-290 | with distinct offsets, `findClosest` of dash i's offset is dash i |
| SliderGeometry.Lefts | projects/ngx-slider/src/lib/ngx-slider.component.ts:256-257 | the dashes' CSS `left` values, in dash order |
| SliderGeometry.InReach | projects/ngx-slider/src/lib/ngx-slider.component.ts:255-260 | the drag's range test `left >= min && left <= max` over `Math.min`/`Math.max` of the dashes' offsets |
| SliderGeometry.InReachIff | projects/ngx-slider/src/lib/ngx-slider.component.ts:255-260 | a candidate passes the range test exactly when some dash lies at or left of it and some dash at or right of it; every dash's own offset passes |
| SliderGeometry.Gap | projects/ngx-slider/src/lib/ngx-slider.component.ts:164 | `gab` is non-negative, and n−1 gaps span exactly from min to max |
| SliderGeometry.StepWindow | projects/ngx-slider/src/lib/ngx-slider.component.ts:163-167 | there is no window exactly when step is 0; lowerLimit ≤ value; upperLimit ≤ max; lowerLimit = value when the index is a multiple of step; lowerLimit ≤ upperLimit for a positive step |
| SliderGeometry.WindowOnGrid | projects/ngx-slider/src/lib/ngx-slider.component.ts:163-167 | for a value on the evenly spaced grid, the window runs from the grid point that opens its group of `step` to the next group's grid point, capped at max |
| SliderGeometry.GridWindow | projects/ngx-slider/src/lib/ngx-slider.component.ts:163-167 | on an evenly spaced list, the window's limits are the values of the dash that opens the group and of the dash that opens the next group (or max) |
| SliderGeometry.WindowAlignsToGrid | projects/ngx-slider/src/lib/ngx-slider.component.ts:163-167 | the same for the list's own min and max: the window snaps to listed values on the step grid |
| SliderGeometry.FindBand | projects/ngx-slider/src/lib/ngx-slider.component.ts:187 | the band found is the first whose limit reaches the value; none is found exactly when every limit is below the value |
| SliderGeometry.AscendingBandBrackets | projects/ngx-slider/src/lib/ngx-slider.component.ts:187 | with ascending limits, the value lies above the limit of the band before the one found and below every later limit |
| SliderGeometry.IndicatorColorOf | projects/ngx-slider/src/lib/ngx-slider.component.ts:187 | `indicatorColor?.find(c => value <= c.limit)?.color`: the colour of the band `FindBand` returns, none without bands or without a band that reaches the value |
| SliderGeometry.Recolored | projects/ngx-slider/src/lib/ngx-slider.component.ts:158-161 | every label painted the normal colour, then the first dash with the value painted the selected colour; `RecoloredMarksFirst` states it dash by dash |
| SliderGeometry.Activated | projects/ngx-slider/src/lib/ngx-slider.component.ts:159-162 | `active` taken off every label and put on the first dash with the value; `ActivatedMarksFirst` states it dash by dash |
| SliderGeometry.RecoloredMarksFirst | projects/ngx-slider/src/lib/ngx-slider.component.ts:158-161 | the repaint gives the selected colour to exactly the first dash with the value and the normal colour to every other label, and changes nothing else |
| SliderGeometry.ActivatedMarksFirst | projects/ngx-slider/src/lib/ngx-slider.component.ts:159-162 | exactly the first dash with the value is `active` afterwards, and nothing else changes |
| SliderGeometry.WindowTicks | projects/ngx-slider/src/lib/ngx-slider.component.ts:179-181 | the looked-up ticks are dashes of the list |
| SliderGeometry.WindowTicksAreFirst | projects/ngx-slider/src/lib/ngx-slider.component.ts:179-181 | dash i is the tick to widen exactly when it is the first dash at the lower limit and some dash stands at the upper limit; its partner is the first dash at the upper limit |
| SliderGeometry.WithDashShape | projects/ngx-slider/src/lib/ngx-slider.component.ts:172-178 | every tick gets the dash background and the plain shape back |
| SliderGeometry.Emphasised | projects/ngx-slider/src/lib/ngx-slider.component.ts:179-190 | the reset ticks with the window's lower tick widened to the upper one and coloured when the band colour is truthy; `EmphasisedDraws` states it tick by tick |
| SliderGeometry.EmphasisedDraws | projects/ngx-slider/src/lib/ngx-slider.component.ts:172-190 | every tick but the widened one gets the dash background and shape back; the widened one spans to the upper-limit tick and takes the band colour when that is truthy |
| SliderGeometry.RedrawOnGeometry | projects/ngx-slider/src/lib/ngx-slider.component.ts:158-190 | the marking and window drawing depend on the dashes only through their values, offsets and visibility |
| SliderGeometry.MarkedGeometry | projects/ngx-slider/src/lib/ngx-slider.component.ts:158-162 | marking labels never moves a dash or changes its value or visibility |
| SliderGeometry.MarkingIdempotent | projects/ngx-slider/src/lib/ngx-slider.component.ts:158-162 | marking the labels a second time changes nothing |
| SliderGeometry.RedrawnDashes | projects/ngx-slider/src/lib/ngx-slider.component.ts:158-190 | per tick, in terms of the dashes before the redraw: geometry kept; only the first dash with the value is selected and active; the window is drawn as stated above |
| SliderGeometry.MarkingSteps | projects/ngx-slider/src/lib/ngx-slider.component.ts:158-162 | repaint all, deactivate all, then mark the dash that `find` returns on the repainted list: the same result as the declarative marking |
| SliderGeometry.LaidOutMarking | projects/ngx-slider/src/lib/ngx-slider.component.ts:142-145 | on a fresh layout (all labels normal), deactivating and then marking gives the same marking as `setBarPosition` |
| SliderGeometry.RecolorSteps | projects/ngx-slider/src/lib/ngx-slider.component.ts:264-266 | the drag repaint (all labels normal, then the found dash selected) equals the declarative recolouring |
| SliderGeometry.DrawSteps | projects/ngx-slider/src/lib/ngx-slider.component.ts:172-190 | resetting every tick, looking up both limits on the reset ticks, then widening the lower one equals the declarative window drawing |
| SliderComponent.EffectiveValue | projects/ngx-slider/src/lib/ngx-slider.component.ts:150 | the fallback of a falsy `this.value` to `min`, the same in `init` (line 131); `UnsetValueIsListed` states that the fallback is always listed |
| SliderComponent.Listed | projects/ngx-slider/src/lib/ngx-slider.component.ts:151 | `this.values.find(v => v.value === value)` is truthy, the same test as in `init` (line 132); `RepositionFailsIffUnlisted` and `InitialisedMarksCurrent` state that the handlers throw exactly when it fails |
| SliderComponent.Layout | projects/ngx-slider/src/lib/ngx-slider.component.ts:86-121 | `init`'s dashes for the resolved options; `DashesCoverValues`, `DashesSpanTrack` and `DashHiddenOffStep` state their properties |
| SliderComponent.BarLeft | projects/ngx-slider/src/lib/ngx-slider.component.ts:154-156 | the bar's CSS `left`: the value's tick offset less half the bar width, the same in `init` (lines 135-139); `InitialisedMarksCurrent` and `RepositionMarksCurrent` state that the bar is centred on the current tick |
| SliderComponent.Initialised | projects/ngx-slider/src/lib/ngx-slider.component.ts:73-146 | what `init` leaves: the fresh layout, then a throw on an unlisted value or the bar placed and the current dash marked; `InitialisedMarksCurrent` states it |
| SliderComponent.Reposition | projects/ngx-slider/src/lib/ngx-slider.component.ts:148-194 | what `setBarPosition` leaves on given dashes and bar; `RepositionFailsIffUnlisted`, `RepositionMarksCurrent`, `RepositionDrawsWindow`, `RepositionKeepsGeometry` and `RepositionIdempotent` state its properties |
| SliderComponent.Reaches | projects/ngx-slider/src/lib/ngx-slider.component.ts:255-260 | the drag's range test; with no dashes `Math.min()` is Infinity and nothing is within range; `InReachIff` characterises it otherwise |
| SliderComponent.Candidate | projects/ngx-slider/src/lib/ngx-slider.component.ts:229 | the candidate offset of a drag step: the CSS `left` remembered at the press plus the pointer's travel since (the same at line 243) |
| SliderComponent.NearestValue | projects/ngx-slider/src/lib/ngx-slider.component.ts:262-263 | the value of the dash `findClosest` picks; `FindClosest` states that it is a nearest dash, the earliest on a tie |
| SliderComponent.ValueAtBar | projects/ngx-slider/src/lib/ngx-slider.component.ts:279-280 | the value of the dash nearest to the bar's CSS `left`, the first dash's for a NaN `left`; `ClosestTo` states the pick |
| SliderComponent.ClosestTo | projects/ngx-slider/src/lib/ngx-slider.component.ts:279 | on a bar without a `left` (NaN) the first dash is kept; otherwise the pick is a nearest dash to the bar's `left` |
| SliderComponent.UnsetValueIsListed | projects/ngx-slider/src/lib/ngx-slider.component.ts:131 | an unset or zero value falls back to min, and min is always listed |
| SliderComponent.LayoutFindsValue | projects/ngx-slider/src/lib/ngx-slider.component.ts:143 | on `init`'s dashes, `find` on the dashes agrees with `findIndex` on the values |
| SliderComponent.ConsistentFindsValue | projects/ngx-slider/src/lib/ngx-slider.component.ts:160-163 | the same holds on any dashes that share the layout's geometry |
| SliderComponent.InitialisedMarksCurrent | projects/ngx-slider/src/lib/ngx-slider.component.ts:131-145 | `init` throws exactly when the value is unlisted, and then leaves the bar without `left`; otherwise it marks exactly the value's first dash as selected and active and centres the bar on that dash's tick |
| SliderComponent.RepositionDashes | projects/ngx-slider/src/lib/ngx-slider.component.ts:148-194 | on a listed value, `setBarPosition` succeeds exactly when the current dash exists; it keeps the geometry, marks the first dash with the value and draws the window, tick by tick |
| SliderComponent.RepositionFailsIffUnlisted | projects/ngx-slider/src/lib/ngx-slider.component.ts:150-153 | `setBarPosition` throws "not listed" exactly when the value is unlisted, and then changes neither the dashes nor the bar |
| SliderComponent.RepositionKeepsGeometry | projects/ngx-slider/src/lib/ngx-slider.component.ts:148-194 | `setBarPosition` never moves a dash or changes its value or visibility |
| SliderComponent.RepositionMarksCurrent | projects/ngx-slider/src/lib/ngx-slider.component.ts:154-162 | on laid-out dashes, a listed value never throws; the value's first position is the only selected and only active label, and the bar is centred on its tick |
| SliderComponent.RepositionDrawsWindow | projects/ngx-slider/src/lib/ngx-slider.component.ts:163-190 | after a successful `setBarPosition`, only the first dash at the lower limit is widened, and only when the upper limit has a dash; it spans to that dash and takes the band colour |
| SliderComponent.RepositionOnGeometry | projects/ngx-slider/src/lib/ngx-slider.component.ts:148-194 | when the current dash is found, the result depends on the dashes only through their geometry, and not on the old bar position |
| SliderComponent.RepositionIdempotent | projects/ngx-slider/src/lib/ngx-slider.component.ts:148-194 | running `setBarPosition` twice leaves what running it once leaves |
| SliderComponent.CommittedDashIsListed | projects/ngx-slider/src/lib/ngx-slider.component.ts:205-208 | a value taken from a laid-out dash (click, drag, release) is listed, and repositioning on it succeeds |
| SliderComponent.RepositionWithoutDashes | projects/ngx-slider/src/lib/ngx-slider.component.ts:160-161 | after `destroy` has emptied the dashes, a listed value moves the bar and then throws on the missing current dash |
| SliderComponent.LaidOut | projects/ngx-slider/src/lib/ngx-slider.component.ts:87-121 | the dashes are either none (after `destroy`, line 297) or carry the values, offsets and visibility of `init`'s layout |
| SliderComponent.MarkedLayoutLaidOut | projects/ngx-slider/src/lib/ngx-slider.component.ts:142-145 | `init`'s layout, marked or not, is laid out |
| SliderComponent.RepositionKeepsLaidOut | projects/ngx-slider/src/lib/ngx-slider.component.ts:148-194 | `setBarPosition` keeps the dashes laid out, on every path |
| SliderComponent.RecoloredKeepsLaidOut | projects/ngx-slider/src/lib/ngx-slider.component.ts:264-266 | the drag repaint keeps the dashes laid out |
| SliderComponent.DashValueListed | projects/ngx-slider/src/lib/ngx-slider.component.ts:262-263 | the value of any laid-out dash is listed in the input values |
| SliderComponent.NgxSlider.Consistent | projects/ngx-slider/src/lib/ngx-slider.component.ts:73-146 | the invariant the handlers keep: the values are spread, the options resolved, and the dashes laid out for the current values, options and track width |
| SliderComponent.NgxSlider.constructor | projects/ngx-slider/src/lib/ngx-slider.component.ts:23-38 | a fresh component has no options, no values, no value, no dashes, no bar, no drag and no reported changes |
| SliderComponent.NgxSlider.SetValue | projects/ngx-slider/src/lib/ngx-slider.component.ts:44-47 | the setter stores the value and reports it to `onChange` once |
| SliderComponent.NgxSlider.OnInit | projects/ngx-slider/src/lib/ngx-slider.component.ts:49-51 | `ngOnInit` resolves the options by the merge |
| SliderComponent.NgxSlider.PaintMarks | projects/ngx-slider/src/lib/ngx-slider.component.ts:158 | the loop paints every label with the given colour and changes nothing else |
| SliderComponent.NgxSlider.ClearActive | projects/ngx-slider/src/lib/ngx-slider.component.ts:159 | the loop takes `active` off every label and changes nothing else |
| SliderComponent.NgxSlider.ResetShapes | projects/ngx-slider/src/lib/ngx-slider.component.ts:172-178 | the loop gives every tick the dash colour and shape back and changes nothing else |
| SliderComponent.NgxSlider.LayOut | projects/ngx-slider/src/lib/ngx-slider.component.ts:87-121 | the `map` loop builds exactly `init`'s layout |
| SliderComponent.NgxSlider.MarkCurrent | projects/ngx-slider/src/lib/ngx-slider.component.ts:158-162 | the label loops and the marking of the found dash leave the declarative marking |
| SliderComponent.NgxSlider.MarkLaidOut | projects/ngx-slider/src/lib/ngx-slider.component.ts:142-145 | on a fresh layout, clearing `active` and marking the found dash leaves the same declarative marking |
| SliderComponent.NgxSlider.RepaintMarks | projects/ngx-slider/src/lib/ngx-slider.component.ts:264-266 | the drag repaint leaves the declarative recolouring, with `active` untouched |
| SliderComponent.NgxSlider.DrawWindow | projects/ngx-slider/src/lib/ngx-slider.component.ts:169-193 | the `try` block leaves the declarative window drawing; a missing limit tick stops it after the reset |
| SliderComponent.NgxSlider.Init | projects/ngx-slider/src/lib/ngx-slider.component.ts:73-146 | `init` leaves exactly `Initialised`'s outcome, dashes and bar; the bar is attached exactly when it succeeds; `Consistent` holds afterwards, on both paths |
| SliderComponent.NgxSlider.PlaceBar | projects/ngx-slider/src/lib/ngx-slider.component.ts:123-145 | on freshly laid-out dashes, the value check, the bar's placement and the marking leave exactly `Initialised`'s result, and `Consistent` holds |
| SliderComponent.NgxSlider.SetBarPosition | projects/ngx-slider/src/lib/ngx-slider.component.ts:148-194 | `setBarPosition` leaves exactly `Reposition`'s outcome, dashes and bar for the old dashes and bar, and keeps `Consistent` |
| SliderComponent.NgxSlider.Click | projects/ngx-slider/src/lib/ngx-slider.component.ts:196-211 | on no dashes the reduce throws and nothing changes; otherwise the nearest dash's value, which is listed, is committed, reported once, and the bar repositioned without a throw; `Consistent` is kept |
| SliderComponent.NgxSlider.CommitAtBar | projects/ngx-slider/src/lib/ngx-slider.component.ts:279-281 | the value of the dash nearest to the bar's CSS `left`, which is listed, is committed, reported once, and the bar repositioned without a throw; on no dashes the reduce throws and nothing changes; `Consistent` is kept |
| SliderComponent.NgxSlider.DragStart | projects/ngx-slider/src/lib/ngx-slider.component.ts:221-225 | a press remembers the pointer's page x and the bar's CSS `left` |
| SliderComponent.NgxSlider.Follow | projects/ngx-slider/src/lib/ngx-slider.component.ts:260-267 | inside the span, the bar's `left` becomes candidate − barWidth/2; the dash nearest to it is committed and reported; only label colours are repainted; `Consistent` is kept |
| SliderComponent.NgxSlider.DragMove | projects/ngx-slider/src/lib/ngx-slider.component.ts:250-272 | a candidate offset inside the span of dash offsets follows and commits a listed value; one outside it, or with no dashes, snaps back to the committed value without reporting; `Consistent` is kept |
| SliderComponent.NgxSlider.PointerMove | projects/ngx-slider/src/lib/ngx-slider.component.ts:221-234 | a move during a drag offers the candidate offset = remembered `left` + pointer travel; without a press, or from a NaN `left`, nothing changes; `Consistent` is kept |
| SliderComponent.NgxSlider.DragEnd | projects/ngx-slider/src/lib/ngx-slider.component.ts:274-282 | a release ends any drag and commits the value nearest to the bar's CSS `left`, press or no press; that value is listed and the reposition does not throw; `Consistent` is kept |
| SliderComponent.NgxSlider.WriteValue | projects/ngx-slider/src/lib/ngx-slider.component.ts:306-312 | a falsy value is ignored; any other value is stored without a report, and the bar is repositioned; `Consistent` is kept |
| SliderComponent.NgxSlider.Destroy | projects/ngx-slider/src/lib/ngx-slider.component.ts:292-299 | the dash list is emptied and the bar detached; it throws exactly when the bar was not attached; a consistent state stays consistent |
| SliderComponent.NgxSlider.OnDestroy | projects/ngx-slider/src/lib/ngx-slider.component.ts:65-68 | `ngOnDestroy` destroys the slider, with the same outcome; a consistent state stays consistent |
| SliderComponent.NgxSlider.Resize | projects/ngx-slider/src/lib/ngx-slider.component.ts:322-326 | resize re-runs `init` on the re-measured track when the bar was attached; otherwise it stops on the failing `destroy` with no dashes left |
| SliderComponent.NgxSlider.OnChanges | projects/ngx-slider/src/lib/ngx-slider.component.ts:53-63 | when either input changed, the options are resolved again and `init` runs, which makes the state consistent; otherwise nothing is re-rendered and a consistent state stays consistent |
| SliderScenarios.FontSizes | projects/demo/src/app/app.component.ts:12-14 | the demo's font sizes are the ten values 8 to 17, in order |
| SliderScenarios.Weights | projects/demo/src/app/app.component.ts:15-24 | the demo's weights are 100, 300, 400, ..., 900, in order |
| SliderScenarios.DarkMerge | projects/demo/src/app/app.component.ts:25-34 | the dark theme keeps all eight of its keys after the merge (grid, dash and label colours #4F545C, selected colour, font weight 900, font size 12, padding 12, bar colour); step, bar width and bands stay the defaults |
| SliderScenarios.SizeLayout | projects/ngx-slider/src/lib/ngx-slider.component.ts:90-91 | on a track 9·s wide, the font sizes stand s pixels apart from 0 |
| SliderScenarios.FontSizeTwelveAt400 | projects/ngx-slider/src/lib/ngx-slider.component.ts:90-91 | on a 900-pixel track the font size 12 sits at 400 |
| SliderScenarios.WeightLefts | projects/ngx-slider/src/lib/ngx-slider.component.ts:90-91 | on an 800-pixel track the weights sit at 0, 200, 300, ..., 800: the missing 200 leaves a gap |
| SliderScenarios.ClickNearWeight400 | projects/ngx-slider/src/lib/ngx-slider.component.ts:203-206 | a click 310 pixels along the weights' track picks 400 |
| SliderScenarios.DefaultBandColours | projects/ngx-slider/src/lib/ngx-slider.interface.ts:55-61 | under the default bands, values up to 12 are red, values in (12, 20] are yellow, and larger values have no colour |
| SliderScenarios.FontSizeFourteenWindow | projects/ngx-slider/src/lib/ngx-slider.component.ts:163-167 | with step 4, the font size 14 lies in the window from 12 to 16 |
| SliderScenarios.SizesWindow | projects/ngx-slider/src/lib/ngx-slider.component.ts:179-181 | on the font-size dashes, the window from 12 to 16 widens the tick at index 4 and no other |
| SliderScenarios.FontSizeFourteenMarked | projects/ngx-slider/src/lib/ngx-slider.component.ts:148-162 | setting 14 on a 900-pixel track succeeds, activates only the label of 14, and puts the bar's `left` at 585 |
| SliderScenarios.FontSizeFourteenWindowDrawn | projects/ngx-slider/src/lib/ngx-slider.component.ts:169-190 | the same call widens the tick of 12 by 400 pixels to the tick of 16, paints it yellow, and leaves every other tick plain |
| SliderScenarios.InsertionIndexWindow | projects/ngx-slider/src/lib/ngx-slider.component.ts:163-165 | the window uses the insertion index: with 9 listed before 8, the value 8 opens a window below min, where no tick stands; sorted, it would open at 8 |
| SliderScenarios.ClosestAtTwentyFive | projects/ngx-slider/src/lib/ngx-slider.component.ts:289 | midway between ticks at 20 and 30, the reduction keeps the earlier tick |
| SliderScenarios.ReleaseDriftsLeft | projects/ngx-slider/src/lib/ngx-slider.component.ts:279-281 | on a 90-pixel track with 12 set, the bar's `left` is 25, and a bare release commits 10: the value drifts left without the pointer moving |
| SliderScenarios.SpanOfTenPixelTicks | projects/ngx-slider/src/lib/ngx-slider.component.ts:255-260 | ticks ten pixels apart from 0 put 25 within the drag's range |
| SliderScenarios.ClosestAtTen | projects/ngx-slider/src/lib/ngx-slider.component.ts:262 | on those ticks the dash nearest to 10 is the second one, carrying 9 |
| SliderScenarios.ZeroTravelDragJumps | projects/ngx-slider/src/lib/ngx-slider.component.ts:260-263 | on the same track, a first drag step with no pointer travel offers 25 (line 229), moves the bar's `left` on to 10 and commits 9: the bar jumps half its width left |
| SliderScenarios.NaNBarTakesFirst | projects/ngx-slider/src/lib/ngx-slider.component.ts:279 | a bar without a `left` commits the first dash's value |
| SliderScenarios.ZeroDrawnAtMin | projects/ngx-slider/src/lib/ngx-slider.component.ts:150 | a committed 0 is treated as unset: with values −5, 0 and 5 it is drawn at −5 |

## Left out

- Rendering: the model omits every Renderer2 style, class and attribute write that does not feed
  back into behaviour. This includes element creation and `innerHTML` labels, dash and label
  sizes, `top` offsets, the bar's colour and size, and the track styling at the start of `init`
  (lines 74-84). The model keeps only what the handlers read back or write to ticks and labels:
  offsets, visibility, label colour, `active`, tick background and span, and the bar's `left`.
  Of these, only the offsets (lines 256-257 and 289) and the bar's `left` (lines 224 and 279)
  are read back.
- Measurement: `gridValues.clientWidth` is a `width` parameter, measured again by `Init` and
  `Resize`. `setBarPosition` measures `gridValues.clientWidth` again (line 155); the model uses
  the width of the last `Init`. The two agree because `init` fixes the track's CSS width
  (line 79) and only a resize changes it, which re-runs `init`. The click's `clientX - rect.left` is the `x` argument of `Click`. The pointer's page x
  is an argument of `DragStart` and `PointerMove`.
- DragMove: the source halves the measured `bar.clientWidth` (line 261). The model halves the
  `barWidth` option, which is the CSS width that `init` gives the bar.
- Event streams: the model leaves out rxjs (`fromEvent`, `merge`, `mergeMap`, `takeUntil`,
  `Subscription`). `DragStart`, `PointerMove`, `DragEnd` and `Click` model the subscriber bodies,
  one call per event. Each `ngOnChanges` and each resize subscribes anew without dropping older
  subscriptions, so one event can run a handler several times. The model omits that accumulation.
  It also omits concurrent drags under `mergeMap`, and a touch press anywhere on the slider
  versus a mouse press on the bar.
- Page-level effects: the model leaves out `selectstart` prevention, the body `touch-action` and
  `user-select` toggles, and `preventDefaultEvent`. None of them affects the slider's state.
- Debug output: `console.log` (line 182) is not modelled.
- The empty `draw()` hook is not modelled.
- Page lookup: `selectRootElement` searches the whole document by the `data-breakpoint`
  attribute. With several sliders on a page it can find another slider's tick. The text of a
  float also need not match the text of a limit computed with rounding error. The model looks the
  limits up among this slider's own dashes by exact value.
- Floating point: values are reals, and `Math.round` is JavaScript's rounding on exact reals.
  IEEE-754 rounding, NaN and Infinity are left out. A value list with fewer than two entries, or
  with all values equal, divides by zero in the source. The model requires such lists to be
  spread (`Spread`).
- SliderInterface.SliderOptions: `step` is an integer. A fractional step in the source would make
  `index % step` fractional.
- SliderInterface.Merge: the merge does not distinguish a key set explicitly to `undefined`, which
  JavaScript's spread copies.
- Stale DOM: `ngOnChanges` runs `init` without `destroy`, which leaves the old dashes and bar
  elements on the page. The model replaces the dash list and the bar state.
- Angular wiring: `registerOnChange` and `registerOnTouched` are not modelled. The `changes` field
  records every value that reaches the `onChange` callback.
