# Portfolio choreography and focus field, modelled in Dafny

This project models the three pieces of logic in a portfolio page's interactive sections:

- **Editorial highlight** (`EditorialHighlight.tsx`). This is a scroll-scrubbed explosion of twelve tech icons.
  - Each icon draws a random depth once. Its scale, blur and tween duration come from that depth.
  - Its resting place is a random scatter offset plus jitter, clamped to 60% of the viewport on each axis.
  - Every tween starts at timeline position 0. The anchor text gets a fixed "camera push" tween on the same timeline.
- **Featured projects** (`Projects.tsx`). Six cards are placed by a golden-angle rule and share one `hoveredId` field.
  - Enter sets the field to the card's id. Leave clears it.
  - Each card's animation target (scale, blur/opacity filter, lift, z-order, image zoom, shade, border) is a pure function of the field and the card's id.
  - So are the staggered reveals of brand, title and tags, and whether the description is rendered.
- **Selected works** (`SelectedWorks.tsx`). The same focus field runs over four numeric ids with fixed layout.
  - It adds a pointer-follow offset for the hovered work's image.
  - That offset resets to the origin when the pointer leaves.

All arithmetic is over exact `real`. Random draws, `Math.cos`/`Math.sin` and the viewport size are inputs with their stated ranges. The easing curves are function parameters. The only thing assumed about an easing curve is that it maps 0 to 0 and 1 to 1.

Files:

- `wrappers.dfy`: `Option`, the `null`-or-value hovered id.
- `tween_math.dfy` (module `TweenMath`): the library's `mapRange` and `clamp`, the tween blend `Lerp`, tween local time, and JavaScript's `%`.
- `editorial_highlight.dfy` (module `EditorialHighlight`): depth-derived parameters, the scatter target, the timeline builder and the icon/anchor frames.
- `focus_field.dfy` (module `FocusField`): the shared two-transition hover machine, the hovered/blurred predicates and the counting lemmas.
- `projects.dfy` (module `Projects`): the project catalogue, golden-angle layout, card targets, reveals and the rendered grid.
- `selected_works.dfy` (module `SelectedWorks`): the works, the pointer-follow offset, the event handler and the class-based visual state.

Facts about the code that the model keeps exactly:

- **Safe bound.** It is `0.6 × innerWidth` (and `0.6 × innerHeight`) with no lower limit, so a zero-sized viewport pins every icon to the centre.
- **Reveal delays.** The 0.1 / 0.15 / 0.25 s delays sit on the label transitions themselves, so hiding is staggered exactly like showing (`RevealStaggered`).
- **Scatter radius.** It is `150 + Math.random() × 300`, which lies in [150, 450).
- **Overlay and dimming in the projects grid.** These test `hoveredId` for JavaScript truthiness (`Projects.Truthy`), so under the id `""` no card is dimmed and there is no overlay. The catalogue's ids are all non-empty (`CatalogueIdsWellFormed`, `EventsKeepHoverOnCards`), so for the grid's own events a truthy id and a hovered id coincide.
- **Unknown ids.** An id that no card or work carries is simply never hovered. Under such a truthy id every card of the grid is blurred, and under such a non-null id every work is blurred.

## Model

| member | source | states |
|---|---|---|
| TweenMath.MapRange | src/components/sections/EditorialHighlight.tsx:60 | the linear map sends the input range's start to the output range's start and its end to the output's end |
| TweenMath.MapRangeStrictlyIncreasing | src/components/sections/EditorialHighlight.tsx:60 | with both ranges running upwards, a larger input gives a strictly larger output |
| TweenMath.MapRangeStrictlyDecreasing | src/components/sections/EditorialHighlight.tsx:66 | with a downward output range, a larger input gives a strictly smaller output |
| TweenMath.MapRangeRoundTrip | src/components/sections/EditorialHighlight.tsx:60 | mapping back through the swapped ranges returns the original value |
| TweenMath.Clamp | src/components/sections/EditorialHighlight.tsx:77-78 | the result lies in [lo, hi], values already in range are unchanged, and the result is the value or one of the bounds |
| TweenMath.ClampIdempotent | src/components/sections/EditorialHighlight.tsx:77-78 | clamping an already clamped value changes nothing |
| TweenMath.ClampMonotone | src/components/sections/EditorialHighlight.tsx:77-78 | clamping preserves the order of two values |
| TweenMath.Lerp | src/components/sections/EditorialHighlight.tsx:75-85 | a tween shows its start value at eased fraction 0 and its target at 1 |
| TweenMath.LerpSymmetric | src/components/sections/EditorialHighlight.tsx:75-85 | blending from the target back to the start with the complementary fraction gives the same value |
| TweenMath.LerpLinear | src/components/sections/EditorialHighlight.tsx:75-85 | equal steps of eased fraction move the shown value by equal amounts, (to - from) per unit |
| TweenMath.LerpBetween | src/components/sections/EditorialHighlight.tsx:75-85 | for an eased fraction in [0, 1] the shown value lies between start and target |
| TweenMath.LocalTime | src/components/sections/EditorialHighlight.tsx:83-85 | a tween's elapsed fraction is in [0, 1], is 0 up to its start and 1 from its end on, and between them is the elapsed time divided by the duration |
| TweenMath.JsRemainder | src/components/sections/Projects.tsx:74-75 | JavaScript `%` by a positive modulus: in [0, m) for non-negative operands, in (-m, 0] for non-positive ones, and differing from the operand by a whole multiple of m |
| TweenMath.JsRemainderIsFloorModOnNonNegatives | src/components/sections/Projects.tsx:74-75 | for non-negative operands JavaScript `%` equals `v - m * floor(v / m)` |
| EditorialHighlight.Scale | src/components/sections/EditorialHighlight.tsx:60 | scale is 0.5 at depth 0 and 3.5 at depth 1, and stays within [0.5, 3.5] for depth in [0, 1] |
| EditorialHighlight.ScaleStrictlyIncreasing | src/components/sections/EditorialHighlight.tsx:60 | a closer icon (larger depth) is strictly larger |
| EditorialHighlight.ScaleDepthRoundTrip | src/components/sections/EditorialHighlight.tsx:60 | the depth can be recovered from the scale |
| EditorialHighlight.Blur | src/components/sections/EditorialHighlight.tsx:63 | blur is always 0, 2 or 6; it is 6 iff depth > 0.8, 2 iff depth < 0.2, and 0 iff depth is in [0.2, 0.8], so both boundaries give 0 |
| EditorialHighlight.BlurFollowsScale | src/components/sections/EditorialHighlight.tsx:60-63 | the 6 px bokeh falls exactly on icons drawn larger than 2.9 and the 2 px softness exactly on those smaller than 1.1 |
| EditorialHighlight.Duration | src/components/sections/EditorialHighlight.tsx:66 | duration is 2 at depth 0 and 1 at depth 1, and stays within [1, 2] for depth in [0, 1] |
| EditorialHighlight.DurationStrictlyDecreasing | src/components/sections/EditorialHighlight.tsx:66 | a closer icon finishes strictly sooner |
| EditorialHighlight.NearerIsLargerAndFaster | src/components/sections/EditorialHighlight.tsx:59-66 | of two icons, the nearer one is both larger and faster (the parallax) |
| EditorialHighlight.Radius | src/components/sections/EditorialHighlight.tsx:71 | for a draw in [0, 1) the scatter radius lies in [150, 450) |
| EditorialHighlight.SafeBound | src/components/sections/EditorialHighlight.tsx:51-52 | the safe bound is non-negative and below the viewport extent whenever that extent is positive |
| EditorialHighlight.ScatterTarget | src/components/sections/EditorialHighlight.tsx:77-78 | for every offset and jitter the target lies in [-safe, safe]; in-range sums are kept, larger ones are cut to the bound on their side |
| EditorialHighlight.DeriveParams | src/components/sections/EditorialHighlight.tsx:57-71 | for draws from the random sources: scale in [0.5, 3.5), blur in {0, 2, 6}, duration in (1, 2], radius in [150, 450) |
| EditorialHighlight.IconTweenFor | src/components/sections/EditorialHighlight.tsx:55-85 | each icon's tween lands on offset plus jitter whenever that sum is inside the safe box, and on the bound on its own side when the sum lies beyond it; its rotation is the draw; opacity 1; the depth's scale, blur and duration; at position 0 |
| EditorialHighlight.IconStartsHiddenAndSettles | src/components/sections/EditorialHighlight.tsx:41-85 | until its tween starts an icon is centred at scale 0 and opacity 0; once the tween is over it rests on the tween's targets |
| EditorialHighlight.AnchorStartsNaturalAndSettles | src/components/sections/EditorialHighlight.tsx:89-95 | the anchor starts at scale 1 and offset 0 and ends at scale 1.15 and offset -50 after 1.5 s, whatever the icons drew |
| EditorialHighlight.BuildTimeline | src/components/sections/EditorialHighlight.tsx:55-95 | one tween per icon in order, all at position 0 with opacity 1, the depth's scale and a position in the safe box; the anchor tween is the fixed one |
| EditorialHighlight.TimelineEnd | src/components/sections/EditorialHighlight.tsx:85-95 | the timeline length is at least the end of every tween and equals the end of one of them |
| EditorialHighlight.TimelineEndBounds | src/components/sections/EditorialHighlight.tsx:66-95 | a timeline built from valid draws lasts between 1.5 s and 2 s |
| EditorialHighlight.AllHiddenThenAllSettled | src/components/sections/EditorialHighlight.tsx:41-85 | for a timeline built from valid draws: at time 0 every icon is centred at scale 0 and opacity 0, and at the end of the timeline every icon rests on its targets with opacity 1 and the scale its depth gave it |
| EditorialHighlight.IconSettlesByTimelineEnd | src/components/sections/EditorialHighlight.tsx:41-85 | one icon of a built timeline is hidden at time 0 and rests on its targets, with opacity 1 and its depth's scale, at the timeline's end |
| FocusField.Step | src/components/sections/Projects.tsx:119-120 | enter sets the hovered id to the entity's id whatever it was; leave clears it |
| FocusField.StepForgetsPrevious | src/components/sections/Projects.tsx:119-120 | the next state never depends on the previous one |
| FocusField.LastEventDecides | src/components/sections/Projects.tsx:119-120 | after any non-empty event sequence the hovered id is the last entered id, or none if the last event was a leave, so A then B goes straight to B |
| FocusField.HoveredWasEntered | src/components/sections/Projects.tsx:119-120 | a hovered id is the starting one or was set by some enter event |
| FocusField.FocusOf | src/components/sections/SelectedWorks.tsx:34-36 | an entity is focused iff it is hovered, dimmed iff something else is hovered, idle iff nothing is |
| FocusField.HoveredAndBlurredExclusive | src/components/sections/SelectedWorks.tsx:34-36 | hovered and blurred are never both true; nothing is either when idle; every entity is one of them otherwise |
| FocusField.AtMostOneHovered | src/components/sections/Projects.tsx:106-108 | with distinct ids at most one entity is hovered, and exactly one when a listed id is hovered |
| FocusField.BlurredComplementsHovered | src/components/sections/SelectedWorks.tsx:34-36 | while something is hovered, hovered plus blurred entities are all of them; when idle, none is either |
| Projects.CatalogueIdsWellFormed | src/components/sections/Projects.tsx:14-63 | the six project ids are pairwise distinct and non-empty |
| Projects.ProjectPosition | src/components/sections/Projects.tsx:72-77 | every card index gets x and y in [0, 100) |
| Projects.ProjectPositionIsFloorMod | src/components/sections/Projects.tsx:72-77 | the position is `v - 100 * floor(v / 100)` of `index * 137.508` and `index * 218.971` |
| Projects.CardTargetFor | src/components/sections/Projects.tsx:106-215 | the hovered card takes scale 1.1, y -20, z 50, image zoom 1.08, shade 0.6 and border 1, and each of these departs from rest iff the card is hovered; a card that is not hovered differs from rest only in its filter, which is blur 8 with opacity 0.4 iff a truthy id other than its own is hovered and blur 0 with opacity 1 otherwise; all at rest when nothing is hovered |
| Projects.DimmedIffOtherHovered | src/components/sections/Projects.tsx:123 | for non-empty ids a card has blur 8 and opacity 0.4 iff another card is hovered, and scale 1.1, y -20, z 50 iff it is hovered itself |
| Projects.RevealFor | src/components/sections/Projects.tsx:150-194 | a label has opacity 1 and y 0 iff its card is hovered, otherwise opacity 0 and y 10; the brand is delayed 0.1 s, the title 0.15 s and the tags 0.25 s |
| Projects.RevealStaggered | src/components/sections/Projects.tsx:150-194 | brand, title and tags are delayed in document order, and the delay is the same whether revealing or hiding |
| Projects.CardViewFor | src/components/sections/Projects.tsx:106-194 | the description is rendered iff the card is hovered; the card sits at its golden-angle position with its card target; brand, title and tags each take their reveal for the card's hover state, all three are visible iff it is hovered, and they are staggered |
| Projects.Render | src/components/sections/Projects.tsx:98-218 | the blur overlay exists iff the hovered id is truthy, and there is one card view per project in order |
| Projects.IdleGridAtRest | src/components/sections/Projects.tsx:100-125 | with nothing hovered there is no overlay, every card is at rest, no description is rendered and every label is hidden |
| Projects.HoveringOneCardDimsTheRest | src/components/sections/Projects.tsx:100-125 | hovering catalogue card k shows the overlay, enlarges card k and renders its description, and dims every other card without its description |
| Projects.AtMostOneCardFocused | src/components/sections/Projects.tsx:106-108 | for any hovered id at most one catalogue card is hovered and at most one renders its description |
| Projects.EventsKeepHoverOnCards | src/components/sections/Projects.tsx:119-123 | enter/leave events on cards with non-empty ids leave the field empty or on one of those ids, which is truthy |
| SelectedWorks.FollowOffset | src/components/sections/SelectedWorks.tsx:38-45 | the image offset is zero with the pointer at the centre and has the sign of the pointer's displacement on each axis |
| SelectedWorks.FollowOffsetRoundTrip | src/components/sections/SelectedWorks.tsx:44-45 | the pointer can be recovered from the offset as centre plus five times the offset |
| SelectedWorks.FollowOffsetLinear | src/components/sections/SelectedWorks.tsx:44-45 | moving the pointer moves the image target by 0.2 times the movement, on each axis |
| SelectedWorks.Handle | src/components/sections/SelectedWorks.tsx:55-80 | enter hovers the work without touching images; move retargets that work's image; leave clears the hovered id and resets that work's image to (0, 0); no other work's image changes |
| SelectedWorks.HoverFollowsFocusField | src/components/sections/SelectedWorks.tsx:55-80 | over any event sequence the hovered id is exactly the shared hover machine run on the enter/leave events; moves never change it |
| SelectedWorks.OnlyOwnEventsMoveImage | src/components/sections/SelectedWorks.tsx:38-60 | events on other works never change a work's image target |
| SelectedWorks.FromInitial | src/components/sections/SelectedWorks.tsx:15-80 | from the initial state (nothing hovered, no image moved) the hovered id is the hover machine run from `null`, and a work that received no event keeps its image at the origin |
| SelectedWorks.ClassesFor | src/components/sections/SelectedWorks.tsx:34-102 | a blurred work has opacity 40, scale 95, grey and 2 px blur, otherwise 100/100 with no blur; the hovered work has z 50, image scale 110 and label opacity 100, every other work z 10, image scale 100 and label opacity 0; the label is shown iff hovered; all at rest when nothing is hovered |
| SelectedWorks.RenderWorks | src/components/sections/SelectedWorks.tsx:136-143 | one class set per work, in order, each from the shared hovered id |
| SelectedWorks.AtMostOneWorkHovered | src/components/sections/SelectedWorks.tsx:15-36 | at most one of the four works is hovered and shows its label; while one is hovered every other work is blurred |

## Left out

- Scroll pinning and scrubbing are left out, because they are library behaviour. This covers the `scrollTrigger` options (`end: "+=1500"`, `scrub: 1`, `pin: true`) and the mapping from scroll position to timeline time. The model works with timeline time directly.
- Easing curves (`power3.out`, `power1.inOut`, `power2.out`, `easeOut`) are not modelled. They are parameters, and only their end points are assumed.
- Framer-motion's and CSS transition durations, and their interpolation of in-flight values, are not modelled.
- The `filter: blur(...)` and `letterSpacing` interpolations are not modelled. Only their targets are recorded (`IconTween.blur`, `AnchorTween.letterSpacingEm`). The anchor's frame covers scale and vertical offset.
- `Math.random`, `gsap.utils.random`, `Math.cos` and `Math.sin` are not modelled. Their results are inputs (`IconDraws`) with the ranges they produce. The identity cos² + sin² = 1 is not assumed, because the clamp does not depend on it.
- The `() =>` function-based values for x, y and rotation are evaluated once when the tween starts. The model takes that one draw per icon as given.
- TweenMath.MapRange: requires a non-empty input range. With IEEE numbers a degenerate range gives ±Infinity, or `outMin` where the library catches the resulting NaN; exact reals cannot represent either outcome faithfully. Every call in the component uses the range (0, 1).
- IEEE double rounding is not modelled: all values are exact reals. `% 100` on doubles is modelled as an exact truncating remainder.
- The DOM is not modelled. This covers refs and the `if (!imgRef.current) return` guards (refs are always attached after mount), `getBoundingClientRect` (the rectangle is an input), event delivery order, `window.innerWidth`/`innerHeight` lookup (an input), image URLs and all other styling.
- The `BlurText` component is not part of this model. The model records only whether the description or title is rendered.
- `AboutEditorial.tsx` and `App.tsx` are page composition and markup with no logic.
