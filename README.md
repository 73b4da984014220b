# Scrollytelling panels: a Dafny model

The page is a scroll-driven story built from panels that a page controller
(`MagicView`) owns. These are:

- a data table (`TableView`);
- a bar chart that turns into a choropleth map (`MapView`);
- a closing panel (`FinalView`).

Each panel keeps a threshold table: a list of named states, each with a scroll
offset, a multiple of the visible height, at which that state begins. An
inherited routine picks the current state from the scroll offset. On every
scroll or resize the controller resizes all panels and the page, then
forwards the update to the panels it concerns. Each panel then decides how to
lay itself out, whether to redraw and how opaque its parts should be.

The model covers that decision logic in exact real arithmetic:

- `BarRect` (`bar_rect.dfy`) generates the bar outline: a rectangle walked
  with as many points as the ring of the map region it will morph into.
- `MapPanel` (`map_view.dfy`) covers the map panel:
  - its dimension and threshold tables;
  - the redraw decision;
  - caption opacities, the map groups' fade and the vertical position;
  - the stacked-bar layout;
  - the selection-change detector, as the class `MapView`.
- `TablePanel` (`table_view.dfy`) covers the table panel:
  - its thresholds and caption fade;
  - the centred cell grid;
  - the per-row text masks;
  - `update`, as the class `TableView`.
- `FinalPanel` (`final_view.dfy`) covers the closing panel's threshold table,
  indicator point and opacity rule.
- `Orchestration` (`orchestration.dfy`) covers the controller:
  - the calls of `init` and `update`, recorded as a trace over an abstract
    list of views;
  - the `matches` filter;
  - the page height;
  - the concatenation of the scroll-indicator points.
- `Common` (`common.dfy`) holds the shared values:
  - points;
  - the `{from, to}` change record;
  - the viewport readings;
  - triggers;
  - indicator points.

The inherited state routine is not modelled. Its result is an input instead:
`None` when the state did not change, otherwise the `{from, to}` record. The
same goes for the window and container measurements (`Viewport`) and the d3
scales. Those enter as numbers: `scaledRating` is the x scale applied to the
selected row's rating, `top` the y scale of its ID and `bandwidth` the band
height.

## Model

| member | source | states |
|---|---|---|
| BarRect.BaseSideCounts | views/MapView.js:362-368 | the four counts sum to the ring's point count; each is the quotient by 4 or one more, and exactly the first `n mod 4` sides get the extra point |
| BarRect.SideCounts | views/MapView.js:370-379 | below six points the counts are exactly [1,1,1,0]; otherwise they are the even split with one point taken from side 0 (for the move) and one from side 3 (for the close), so they sum to `n - 2`, stay non-negative, and sides 0-2 keep at least one |
| BarRect.ThirteenPoints | views/MapView.js:365-367 | the worked example: 13 points give [4,3,3,3] before adjustment and [3,3,3,2] after |
| BarRect.StepsWithinSide | views/MapView.js:383-393 | `k` of the `c` equal steps along a side of non-negative length stay within the side |
| BarRect.SideEndsAtCorner | views/MapView.js:381-396 | after all its steps a side ends at the corner where the next side starts, so a side with `c > 0` steps covers exactly the width or the band height |
| BarRect.StepStride | views/MapView.js:386-394 | each step moves by the same amount: along x on even sides, along y on odd ones, forward on sides 0-1 and backward on sides 2-3 |
| BarRect.StepPointOnBoundary | views/MapView.js:381-396 | every point reached while walking a side lies on the rectangle's outline |
| BarRect.BarPathOnBoundary | views/MapView.js:357-399 | every point of a bar outline lies on the outline of `[left, left+width] x [top, top+bandwidth]` |
| BarRect.BarPathUnique | views/MapView.js:357-399 | the outline is determined by the rectangle and the point count alone |
| BarRect.WalkSide | views/MapView.js:381-396 | the inner loop emits the side's `k`-th step point for every `k`, and ends at the next corner (or where it began when the side has no steps) |
| BarRect.MakeBarRect | views/MapView.js:357-399 | the generated path is the move point at the top-left corner followed by each side's step points in order; it has 4 points below six ring points and `n - 1` (one move plus `n - 2` lines) otherwise |
| MapPanel.Dims | views/MapView.js:11-66 | every width, height and top fraction of the dimension table lies in (0, 1] |
| MapPanel.DimsByPhase | views/MapView.js:11-66 | off and splitbar share one entry and focused, hover and done another, with the map sitting lower than the bar |
| MapPanel.Thresholds | views/MapView.js:68-86 | the table is off with a null function, then splitbar, focused, hover and done; done is at twice the visible height, and the points strictly increase when the visible height is positive |
| MapPanel.IsMapState | views/MapView.js:247-249 | the map is shown exactly in the states the dimension table places lower than the bar, in either orientation |
| MapPanel.IsFixedState | views/MapView.js:251-257 | without a change it is isMapState; with one it holds iff both ends of the change are off, splitbar or focused |
| MapPanel.MapStatesFollowFocus | views/MapView.js:247-249 | isMapState holds exactly for the threshold entries from focused on |
| MapPanel.RedrawDecision | views/MapView.js:228-244 | a redraw happens iff the state changed or the trigger is resize or barSelected; it draws the map iff the state is focused, hover or done; it is animated along the change iff the change neither leaves nor enters hover or done |
| MapPanel.AnimatedIffFixed | views/MapView.js:251-257 | a change is animated exactly when isFixedState holds for it |
| MapPanel.GroupFade | views/MapView.js:230-235 | an opacity transition starts iff the state changed; it targets 0 iff the new state is off and 1 otherwise, starts at once iff the state is off, and ends within the one-second translate |
| MapPanel.LayoutFor | views/MapView.js:212-220 | the chart is sized from the dimension table and centred, with equal margins on both sides |
| MapPanel.CaptionOpacities | views/MapView.js:518-534 | [0,0,0] in off and splitbar, [1,1,0] in focused, [1,0,1] in hover; in done the second caption is hidden, the other two are equal and non-negative, at most 1 past the done point, and 0 once 0.15 visible heights past it |
| MapPanel.CaptionsContinuousAtDone | views/MapView.js:518-534 | at the done point the captions are exactly as hover left them |
| MapPanel.DoneCaptionsFadeMonotonically | views/MapView.js:526-533 | in done the fading captions never brighten as the scroll offset grows |
| MapPanel.BarArrivesAtSplitPoint | views/MapView.js:401-407 | in off the bar moves with the page and reaches its splitbar position exactly at the splitbar trigger point |
| MapPanel.BarTopPosition | views/MapView.js:401-407 | outside off the bar sits at its state's top fraction; in off it stays above its splitbar position until the splitbar trigger point, where it arrives exactly |
| MapPanel.MapTopPosition | views/MapView.js:303-314 | during the splitbar-to-focused change the map is placed where, on screen, it sits at the fixed top fraction; in done it sits the done point further down the page, less the visible offset; otherwise at the fixed top fraction |
| MapPanel.TopPosition | views/MapView.js:316-322 | in off the position minus the scroll offset is constant; outside off and the splitbar-to-focused change it is the state's top fraction, shifted in done as for mapTopPosition |
| MapPanel.TopPositionIgnoresScroll | views/MapView.js:303-322 | outside off and the splitbar-to-focused change the position does not depend on the scroll offset |
| MapPanel.OffBarFollowsScroll | views/MapView.js:401-407 | in off the position moves one-for-one with the scroll offset |
| MapPanel.SplitToFocusSeamless | views/MapView.js:276-280 | when the container turns fixed at the end of the splitbar-to-focused change, the repositioned map does not move on screen |
| MapPanel.TopPoints | views/MapView.js:122-143 | three indicator points whose on points are the splitbar, focused and hover trigger points; only the first is minor; each is drawn at its state's top fraction below its on point (the first below the visible offset) |
| MapPanel.DrawGroup | views/MapView.js:334-351 | each ring of the region gets a bar outline of the segment's rectangle with that ring's point count; the first is drawn at opacity 0.6 and the rest at 0 |
| MapPanel.DrawBar | views/MapView.js:324-354 | one segment per group; the first starts at `centerLeftOffset`; segment `i` is `scaledRating * percents[i]` wide and the next starts where it ends |
| MapPanel.StackedAppend | views/MapView.js:330-353 | appending a segment at the next left edge with the next scaled width keeps the bar stacked, and moves the next left edge to the segment's end |
| MapPanel.StackedBarClosedForm | views/MapView.js:330-353 | segment `i` starts at `centerLeftOffset` plus the scaled sum of the percentages before it |
| MapPanel.StackedBarOrdered | views/MapView.js:330-353 | with non-negative scale and percentages, segments do not overlap and are ordered left to right |
| MapPanel.MapView.constructor | views/MapView.js:115-119 | a new panel is in off with no row selected (-1) |
| MapPanel.MapView.UpdateSelected | views/MapView.js:481-489 | when the model's selection differs from the stored one, it stores it and returns `{from: old, to: new}`; otherwise it returns nothing and leaves the stored row unchanged |
| MapPanel.SelectTwice | views/MapView.js:481-489 | asking twice in a row with the same selection never reports a change the second time |
| MapPanel.MapView.Update | views/MapView.js:207-245 | stores the new state and selection and returns exactly the centred layout, the map groups' fade and the redraw decision for the new state |
| TablePanel.Dims | views/TableView.js:9-20 | both orientations put the table top at 0.6 visible heights, with fractions in (0, 1] |
| TablePanel.Thresholds | views/TableView.js:49-59 | on with a null function, fadetext at 0.25 and off at 0.45 visible heights; fadetext comes first whenever the visible height is positive |
| TablePanel.FadeTextThreshold | views/TableView.js:227-229 | equals the fadetext entry of the threshold table |
| TablePanel.OffThreshold | views/TableView.js:231-233 | equals the off entry of the threshold table |
| TablePanel.TopPoints | views/TableView.js:67-75 | one major point, on from offset 0, drawn at the fadetext point, inside the first screen |
| TablePanel.CaptionOpacity | views/TableView.js:219-225 | opacity 1 at the top of the page, within [0, 1] for non-negative offsets, and 0 beyond a quarter of the visible height |
| TablePanel.CaptionOpacityNonIncreasing | views/TableView.js:219-225 | the caption never brightens as the scroll offset grows |
| TablePanel.CaptionGoneAtFadeText | views/TableView.js:219-229 | the caption has faded out completely when the table starts fading its text |
| TablePanel.Layout | views/TableView.js:113-125 | the table is sized from the dimension table and centred in its container |
| TablePanel.CellBox | views/TableView.js:191-198 | a cell is a column's share of the table width and a row's share of its height; column 0 starts at `centerLeftOffset` and the header row ends at 0 |
| TablePanel.TextAnchor | views/TableView.js:200-205 | a text sits a tenth of its cell's width in from the cell's left edge and at the cell's vertical centre |
| TablePanel.CellsTileRow | views/TableView.js:191-198 | cell 0 starts at `centerLeftOffset`, each cell ends where the next begins, and the last ends at the table's right edge |
| TablePanel.RowsStack | views/TableView.js:194-198 | each row ends where the next begins, and the header (row -1) ends at 0 |
| TablePanel.TextInsideCell | views/TableView.js:200-206 | a cell's text anchor is a tenth of the cell width in and vertically centred |
| TablePanel.TextOpacity | views/TableView.js:207-211 | cell text opacity is 0 iff the scroll offset has reached the fadetext point, and 1 otherwise |
| TablePanel.RowCells | views/TableView.js:170-211 | one cell per datum, carrying the datum, its grid box and its text anchor; each text's opacity is 0 or 1, and 0 iff the scroll offset has reached the fadetext point |
| TablePanel.MovedTexts | views/TableView.js:278-288 | as written: a mask gains one text exactly when none carried the datum, and in that case the old texts stay as they were |
| TablePanel.AppendedTextUnplaced | views/TableView.js:278-288 | as written, a text appended for a value the mask lacked is left without a position |
| TablePanel.FreshMaskTextUnplaced | views/TableView.js:278-288 | as written, the first call for a fresh mask leaves its only text unpositioned |
| TablePanel.PlacedTexts | views/TableView.js:278-288 | corrected: a mask gains one text exactly when none carried the datum, every text carrying the datum (the new one included) sits at the cell's anchor, and texts of other values are untouched |
| TablePanel.RowMaskTextsPlaced | views/TableView.js:212-214 | after a row is drawn, its mask holds the value of the last of its first two columns at that cell's anchor, and the first column's value at its own anchor when the two differ |
| TablePanel.RowMaskTextsStable | views/TableView.js:212-214 | columns past the second leave the row's mask as the first two left it |
| TablePanel.PlacedTextsKeeps | views/TableView.js:278-288 | after the move the datum has a text, no datum loses its text, and data stay distinct |
| TablePanel.MaskTextsAt | views/TableView.js:260-276 | with one mask per row, looking a row up finds that row's mask |
| TablePanel.MaskTextsAbsent | views/TableView.js:260-276 | a row without a mask has no mask texts |
| TablePanel.PositionTexts | views/TableView.js:278-288 | the loop over a mask's texts finds whether the datum is present and, if so, positions exactly the matching texts |
| TablePanel.TableView.constructor | views/TableView.js:6-64 | a new table is in pageload with no masks |
| TablePanel.TableView.FindMask | views/TableView.js:262 | returns the index of the row's mask, or -1 exactly when the row has none |
| TablePanel.TableView.MoveTextMask | views/TableView.js:257-289 | the header and columns past the second leave the masks untouched; otherwise the row has exactly one mask afterwards, whose texts are the corrected move of the old ones, with no other row's mask changed |
| TablePanel.TableView.DrawRow | views/TableView.js:170-217 | returns the row's cells; for a data row, the row's mask becomes the corrected move of its old texts for the first two columns' values in column order, and holds both values; the header and every other row's mask are unchanged |
| TablePanel.OtherRowsKept | views/TableView.js:257-289 | extending one row's mask or appending one for it leaves every other row's mask texts as they were |
| TablePanel.TableView.Update | views/TableView.js:107-168 | caption opacity and table top follow the scroll and the dimension table; the layout is recomputed iff the state changed or the trigger is resize, and then the header and every row are drawn, each row's mask becoming the corrected move of its old texts; masks of rows not drawn are unchanged; the table fades to 0 iff the state is off; mask opacity is retargeted only on a change |
| FinalPanel.Thresholds | views/FinalView.js:9-15 | exactly [off with a null function, on], with on at a positive offset for positive heights and multipliers |
| FinalPanel.TopPoints | views/FinalView.js:18-27 | exactly one major point whose on point is the on threshold, drawn within its own height above the bottom of the page container |
| FinalPanel.ContainerOpacity | views/FinalView.js:36 | opacity 1 iff the state is on, 0 iff off |
| FinalPanel.FinalView.constructor | views/FinalView.js:6-16 | stores the initial state and the on multiplier |
| FinalPanel.FinalView.Update | views/FinalView.js:33-37 | stores the new state and returns opacity 1 iff it is on |
| Orchestration.BodyHeight | views/MagicView.js:124-128 | the page is at least one client height tall and at least the table and map together |
| Orchestration.InitPhaseClosedForm | views/MagicView.js:99-102 | the first loop of init sizes then initialises view after view, in list order |
| Orchestration.HeightPhaseClosedForm | views/MagicView.js:113-115 | the first loop of update sizes every view once, in list order |
| Orchestration.ReadyPhaseClosedForm | views/MagicView.js:105 | init readies every view once, in list order |
| Orchestration.DispatchAll | views/MagicView.js:117-121 | without matches every view is updated exactly once, in list order |
| Orchestration.DispatchExactly | views/MagicView.js:117-121 | only views the update is dispatched to are updated, each at most once and in list order, and every such view is updated |
| Orchestration.Dispatched | views/MagicView.js:118 | without matches every view takes part in the update; with matches exactly the views whose matches test accepts them |
| Orchestration.UpdatedIffDispatched | views/MagicView.js:118-120 | a view is updated iff there are no matches or its matches test accepts them |
| Orchestration.InitViews | views/MagicView.js:97-105 | the calls of init are exactly the observer registration, the size-and-init phase, the container height, then the ready phase |
| Orchestration.UpdateViews | views/MagicView.js:112-122 | the calls of update are exactly the sizing phase, the container height, then the dispatched updates |
| Orchestration.InitLayout | views/MagicView.js:97-105 | the observer registration comes first; view `v` is sized immediately before it is initialised; the container height sits between the phases; the views are readied in list order |
| Orchestration.InitBeforeReady | views/MagicView.js:99-105 | every ready comes after every init |
| Orchestration.UpdateOrder | views/MagicView.js:113-121 | every view is sized before any update; the container height is set once, between the two |
| Orchestration.ConcatFour | views/MagicView.js:78-81 | collecting four panels' points yields their concatenation in order |
| Orchestration.CollectPoints | views/MagicView.js:78-81 | the loop appends each panel's points in turn |
| Orchestration.ScrollPoints | views/MagicView.js:71-81 | the indicator gets the table's, the bar chart's, the map's and the closing panel's points, in that order, five plus the bar chart's |
| Orchestration.PanelsHandOver | views/MagicView.js:16-19 | the table is off before the map leaves off, and the closing panel (on at multiplier 4) turns on after the map is done (at 2) |
| Orchestration.ScrollPointsSorted | views/MagicView.js:71-81 | when the bar chart's points are ordered and lie within the first screen, the indicator's points are ordered by on point |

## Findings

| source | as written | input that shows it | evidently intended | confidence | as-written member | corrected member |
|---|---|---|---|---|---|---|
| views/TableView.js:278-288 | the selection of mask texts holding the value is taken before a text for it is appended, so the position and content set afterwards reach only the old texts | the first drawRow of a data row: the row's mask is new and empty, so the text appended for the first cell's value gets no position | the appended text is positioned at the cell's anchor in the same call | medium; not executed | TablePanel.FreshMaskTextUnplaced | TablePanel.PlacedTexts |

The mask model (`TablePanel.TableView.MoveTextMask` and `DrawRow`) uses the
corrected `PlacedTexts`.

## Left out

- MapPanel.CaptionOpacities: requires a positive visible height. With height 0 the source divides 0 by 0 in done, and exact reals have no NaN.
- TablePanel.CaptionOpacity: requires a positive visible height, for the same division by zero.
- TablePanel.TableView.Update: requires a positive visible height and at least one column and one row. With no columns or rows the source divides by zero in the cell geometry.
- TablePanel.CellsTileRow, TablePanel.RowsStack, TablePanel.TextInsideCell, TablePanel.RowCells, TablePanel.TableView.MoveTextMask, TablePanel.TableView.DrawRow: require at least one column and one row (`ValidPos`), for the same reason.
- FinalPanel.FinalView.constructor: the initial state comes from the inherited View class, which is not part of this model, so it is a parameter.
- The state routine `updateState` and the `matches` test of View.js are not part of this model. The change record and the test's answer are inputs.
- d3 scales (`xScale`, `yScale`, `bandwidth`), the choropleth opacity scale and `getCoordsByIndex` enter as numbers or ring point counts.
- `setProjection` is not modelled. It wraps the library's projection maths.
- `drawMap`, `translateMap` and `setCaptions` are not modelled. They pass computed values to d3 selections and transitions. The values they use (`TopPosition`, `CaptionOpacities`) are modelled, but not the container's switch between fixed and static positioning.
- Transitions, delays and durations are not modelled, apart from the map groups' opacity fade (`GroupFade`); nor are the per-group delay in drawBar or `scrollMatchingTween`. They are timing.
- Mask and gradient markup (`buildDefs`, `buildGradients`) and the other DOM, SVG and style writes are not modelled. The modelled writes appear as the values the `Update` methods return or the panels store; the container's `z-index` and `position` styles are not among them.
- Mouse, touch and tooltip handlers and the `addEventListener` registration in `init` are not modelled. They are event plumbing. The observer registration is recorded only as the `Observe` call of the trace; the notifications it leads to are not modelled.
- Orchestration.ScrollPointsSorted: assumes the bar chart's on points lie within the first screen. The bar chart panel is not part of this model; the page hands it the multipliers 1.7 and 2 (views/MagicView.js:30-38), so on the real page this hypothesis may fail, and the indicator's points then need not be ordered.
- The indicator points hold every on point as a number. In the source the table's on point is the number 0 (views/TableView.js:71), while the other panels give functions of the visible height; the model stores what those functions return.
- The SVG path string is not modelled. A path is the sequence of its points, with the move first and the close implicit.
- IEEE floating point is not modelled. All geometry is exact real arithmetic.
- The bar chart, slider, tooltip and scroll-indicator panels are not part of this model. The bar chart's indicator points are an input of `ScrollPoints`.
- The bundler configuration (webpack.config.js) has no logic and is not modelled.
