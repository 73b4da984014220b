/**
 * The map panel (MapView): a stacked bar that morphs into a choropleth map as
 * the reader scrolls through the states off, splitbar, focused, hover, done.
 * The panel's stored state and selected row are fields of `MapView`; what it
 * decides from them (layout, redraw, caption opacities, vertical position) is
 * written as functions of those values and of the viewport.
 */
module MapPanel {
  import opened Common
  import opened BarRect

  datatype MapState = Off | Splitbar | Focused | Hover | Done

  /** One entry of the dimension table, as fractions of the container width and visible height. */
  datatype PanelDims = PanelDims(width: real, height: real, top: real)

  /** The per-orientation dimension table. */
  function Dims(o: Orientation, s: MapState): (d: PanelDims)
    ensures 0.0 < d.width <= 1.0 && 0.0 < d.height <= 1.0 && 0.0 < d.top < 1.0
  {
    match o
    case Landscape =>
      if s == Off || s == Splitbar then PanelDims(0.7, 0.7, 0.1) else PanelDims(0.7, 0.6, 0.35)
    case Portrait =>
      if s == Off || s == Splitbar then PanelDims(0.9, 0.7, 0.1) else PanelDims(0.9, 0.5, 0.5)
  }

  /** The bar states share one entry of the table, and the map states another. */
  lemma DimsByPhase(o: Orientation)
    ensures Dims(o, Off) == Dims(o, Splitbar)
    ensures Dims(o, Focused) == Dims(o, Hover) == Dims(o, Done)
    ensures Dims(o, Focused).top > Dims(o, Splitbar).top
  {
  }

  /** The trigger point of the done state, twice the visible height. */
  function DonePoint(vh: real): real
  {
    vh * 2.0
  }

  /**
   * The threshold table: the baseline `off` with a null function, then splitbar,
   * focused, hover and done at 1, 1.3, 1.7 and 2 visible heights.
   */
  function Thresholds(vh: real): (t: seq<Threshold<MapState>>)
    ensures |t| == 5
    ensures t[0] == Threshold(Off, None)
    ensures forall i :: 1 <= i < 5 ==> t[i].point.Some?
    ensures [t[1].name, t[2].name, t[3].name, t[4].name] == [Splitbar, Focused, Hover, Done]
    ensures t[4].point.value == DonePoint(vh)
    ensures vh > 0.0 ==> forall i, j :: 1 <= i < j < 5 ==> t[i].point.value < t[j].point.value
  {
    [ Threshold(Off, None),
      Threshold(Splitbar, Some(vh)),
      Threshold(Focused, Some(vh * 1.3)),
      Threshold(Hover, Some(vh * 1.7)),
      Threshold(Done, Some(DonePoint(vh))) ]
  }

  /**
   * isMapState: the panel shows the map rather than the bar, which is exactly
   * when the dimension table places the panel at the map's lower position.
   */
  function IsMapState(s: MapState): (b: bool)
    ensures forall o :: b <==> Dims(o, s).top > Dims(o, Splitbar).top
  {
    s == Focused || s == Hover || s == Done
  }

  /**
   * isFixedState: without a change, a map state; with one, a change that
   * neither leaves nor enters hover or done, so one between off, splitbar and
   * focused.
   */
  function IsFixedState(s: MapState, change: Option<StateChange<MapState>>): (b: bool)
    ensures change.None? ==> (b <==> IsMapState(s))
    ensures change.Some? ==>
      (b <==>
         (change.value.from == Off || change.value.from == Splitbar || change.value.from == Focused) &&
         (change.value.to == Off || change.value.to == Splitbar || change.value.to == Focused))
  {
    if change.None? then IsMapState(s)
    else
      var c := change.value;
      assert c.from.Off? || c.from.Splitbar? || c.from.Focused? || c.from.Hover? || c.from.Done?;
      assert c.to.Off? || c.to.Splitbar? || c.to.Focused? || c.to.Hover? || c.to.Done?;
      !(Involves(c, Hover) || Involves(c, Done))
  }

  /** The map is drawn exactly in the states whose trigger point is at least the focused one. */
  lemma MapStatesFollowFocus(vh: real)
    ensures forall i :: 0 <= i < 5 ==> (IsMapState(Thresholds(vh)[i].name) <==> i >= 2)
  {
  }

  /** What `update` asks `draw` to do: nothing, or draw the map or the bar, animated along a change or not. */
  datatype Redraw = NoRedraw | Redraw(drawMap: bool, transition: Option<StateChange<MapState>>)

  /**
   * The redraw decision of `update`, with `s` the state after the change: a
   * change always redraws, animated unless it leaves or enters hover or done; no
   * change redraws without animation only for a resize or a bar selection.
   */
  function RedrawDecision(s: MapState, change: Option<StateChange<MapState>>, trigger: Trigger): (r: Redraw)
    ensures r.Redraw? <==> change.Some? || trigger == Resize || trigger == BarSelected
    ensures r.Redraw? ==> (r.drawMap <==> IsMapState(s))
    ensures r.Redraw? && r.transition.Some? ==> r.transition == change
    ensures r.Redraw? ==>
      (r.transition.Some? <==> change.Some? && !Involves(change.value, Hover) && !Involves(change.value, Done))
  {
    if change.Some? then
      var states := [change.value.from, change.value.to];
      if !(Hover in states || Done in states) then Redraw(IsMapState(s), change)
      else Redraw(IsMapState(s), None)
    else if trigger == Resize || trigger == BarSelected then Redraw(IsMapState(s), None)
    else NoRedraw
  }

  /** A change is animated exactly when it is "fixed" in the sense of isFixedState. */
  lemma AnimatedIffFixed(s: MapState, change: StateChange<MapState>, trigger: Trigger)
    ensures RedrawDecision(s, Some(change), trigger).transition.Some? <==> IsFixedState(s, Some(change))
  {
  }

  /** A transition of the map groups' opacity: its target, its duration and its delay, in milliseconds. */
  datatype Fade = Fade(opacity: real, duration: nat, delay: nat)

  /**
   * The opacity transition `update` starts on the map groups when the state
   * changed: entering off hides them at once and quickly, any other state shows
   * them after a delay; both end within the one second of the map's translate
   * transition.
   */
  function GroupFade(s: MapState, change: Option<StateChange<MapState>>): (r: Option<Fade>)
    ensures r.Some? <==> change.Some?
    ensures r.Some? ==> (r.value.opacity == 0.0 <==> s == Off) && (r.value.opacity == 1.0 <==> s != Off)
    ensures r.Some? ==> (r.value.delay == 0 <==> s == Off)
    ensures r.Some? ==> r.value.delay + r.value.duration <= 1000
  {
    if change.None? then None
    else if s == Off then Some(Fade(0.0, 200, 0))
    else Some(Fade(1.0, 500, 500))
  }

  /** The horizontal layout computed at the start of `update`. */
  datatype ChartLayout = ChartLayout(chartWidth: real, chartHeight: real, centerLeftOffset: real, barRight: real)

  /** The chart is centred in its container: equal margins on both sides. */
  function LayoutFor(env: Viewport, s: MapState): (l: ChartLayout)
    ensures l.chartWidth == env.containerWidth * Dims(env.orientation, s).width
    ensures l.chartHeight == env.visibleHeight * Dims(env.orientation, s).height
    ensures l.barRight - l.centerLeftOffset == l.chartWidth
    ensures l.centerLeftOffset == env.containerWidth - l.barRight
  {
    var d := Dims(env.orientation, s);
    var chartWidth := env.containerWidth * d.width;
    var centerLeftOffset := (env.containerWidth - chartWidth) / 2.0;
    ChartLayout(chartWidth, env.visibleHeight * d.height, centerLeftOffset, centerLeftOffset + chartWidth)
  }

  /**
   * captionOpacities: the three captions' opacities per state; in done the first
   * and third fade out linearly over 0.15 visible heights past the done point.
   */
  function CaptionOpacities(s: MapState, vh: real, scrollY: real): (r: seq<real>)
    requires vh > 0.0
    ensures |r| == 3
    ensures s == Off || s == Splitbar ==> r == [0.0, 0.0, 0.0]
    ensures s == Focused ==> r == [1.0, 1.0, 0.0]
    ensures s == Hover ==> r == [1.0, 0.0, 1.0]
    ensures s == Done ==> r[1] == 0.0 && r[0] == r[2] && r[0] >= 0.0
    ensures s == Done && scrollY >= DonePoint(vh) ==> r[0] <= 1.0
    ensures s == Done && scrollY >= DonePoint(vh) + vh * 0.15 ==> r[0] == 0.0
  {
    if s == Off || s == Splitbar then [0.0, 0.0, 0.0]
    else if s == Focused then [1.0, 1.0, 0.0]
    else if s == Hover then [1.0, 0.0, 1.0]
    else
      var fadeStartPoint := DonePoint(vh);
      var offset := vh * 0.15;
      var scrollFadeDiff := fadeStartPoint + offset - scrollY;
      if scrollFadeDiff < 0.0 then [0.0, 0.0, 0.0]
      else
        var fadingOpacity := scrollFadeDiff / offset;
        [fadingOpacity, 0.0, fadingOpacity]
  }

  /** Entering done leaves the captions as hover had them: no jump at the done point. */
  lemma CaptionsContinuousAtDone(vh: real)
    requires vh > 0.0
    ensures CaptionOpacities(Done, vh, Thresholds(vh)[4].point.value) == CaptionOpacities(Hover, vh, Thresholds(vh)[4].point.value)
  {
    var t := DonePoint(vh);
    assert (t + vh * 0.15 - t) / (vh * 0.15) == 1.0;
  }

  /** In done the fading captions never brighten as the reader scrolls further. */
  lemma DoneCaptionsFadeMonotonically(vh: real, s1: real, s2: real)
    requires vh > 0.0 && s1 <= s2
    ensures CaptionOpacities(Done, vh, s2)[0] <= CaptionOpacities(Done, vh, s1)[0]
  {
    var offset := vh * 0.15;
    var d1, d2 := DonePoint(vh) + offset - s1, DonePoint(vh) + offset - s2;
    if d2 >= 0.0 {
      assert d2 / offset <= d1 / offset by {
        assert d1 - d2 >= 0.0;
        assert d1 / offset - d2 / offset == (d1 - d2) / offset;
      }
    }
  }

  /** The change from splitbar to focused, during which the map container switches to fixed positioning. */
  predicate SplitToFocus(change: Option<StateChange<MapState>>)
  {
    change.Some? && change.value.from == Splitbar && change.value.to == Focused
  }

  /**
   * barTopPosition: in off the bar scrolls with the page and stays above its
   * splitbar position until the splitbar trigger point, where it arrives;
   * otherwise it sits at its state's fraction of the visible height.
   */
  function BarTopPosition(s: MapState, env: Viewport): (r: real)
    ensures s != Off ==> r == env.visibleHeight * Dims(env.orientation, s).top
    ensures s == Off && env.scrollY <= env.visibleHeight ==>
      r <= env.visibleHeight * Dims(env.orientation, Splitbar).top
    ensures s == Off && env.scrollY == env.visibleHeight ==>
      r == env.visibleHeight * Dims(env.orientation, Splitbar).top
  {
    var fixedTop := env.visibleHeight * Dims(env.orientation, s).top;
    if s == Off then fixedTop - (env.visibleHeight - env.scrollY) else fixedTop
  }

  /**
   * mapTopPosition: where the map sits in its container. While the container
   * changes from splitbar to focused it is still in the page, so the map is
   * placed where it appears on screen at its fixed position; in done the
   * container is back in the page, and the map is placed the done point
   * further down, less the visible offset.
   */
  function MapTopPosition(s: MapState, change: Option<StateChange<MapState>>, env: Viewport): (r: real)
    ensures SplitToFocus(change) ==>
      env.containerTop + r - env.scrollY == env.visibleHeight * Dims(env.orientation, s).top
    ensures !SplitToFocus(change) && s == Done ==>
      r + env.visibleOffset - Thresholds(env.visibleHeight)[4].point.value
        == env.visibleHeight * Dims(env.orientation, Hover).top
    ensures !SplitToFocus(change) && s != Done ==> r == env.visibleHeight * Dims(env.orientation, s).top
  {
    var fixedTop := env.visibleHeight * Dims(env.orientation, s).top;
    if change.Some? && change.value.from == Splitbar && change.value.to == Focused then
      fixedTop + env.scrollY - env.containerTop
    else if s == Done then fixedTop + DonePoint(env.visibleHeight) - env.visibleOffset
    else fixedTop
  }

  /**
   * topPosition: the bar's position in off and splitbar, the map's otherwise;
   * only in off, and during the change from splitbar to focused, does it
   * depend on the scroll offset.
   */
  function TopPosition(s: MapState, change: Option<StateChange<MapState>>, env: Viewport): (r: real)
    ensures s != Off && s != Done && !SplitToFocus(change) ==> r == env.visibleHeight * Dims(env.orientation, s).top
    ensures s == Done && !SplitToFocus(change) ==>
      r + env.visibleOffset - Thresholds(env.visibleHeight)[4].point.value
        == env.visibleHeight * Dims(env.orientation, Hover).top
    ensures s == Off ==> r - env.scrollY == env.visibleHeight * Dims(env.orientation, Splitbar).top - env.visibleHeight
  {
    if s == Off || s == Splitbar then BarTopPosition(s, env) else MapTopPosition(s, change, env)
  }

  /**
   * The bar slides in with the page in off and arrives exactly at its splitbar
   * position when the scroll offset reaches the splitbar trigger point.
   */
  lemma BarArrivesAtSplitPoint(env: Viewport)
    requires env.scrollY == Thresholds(env.visibleHeight)[1].point.value
    ensures TopPosition(Off, None, env) == TopPosition(Splitbar, None, env)
  {
  }

  /**
   * Outside off and the splitbar-to-focused change the container is fixed (or,
   * in done, static in the page), so the position does not follow the scroll.
   */
  lemma TopPositionIgnoresScroll(s: MapState, change: Option<StateChange<MapState>>, env: Viewport, y: real)
    requires s != Off && !SplitToFocus(change)
    ensures TopPosition(s, change, env) == TopPosition(s, change, env.(scrollY := y))
  {
  }

  /** In off the bar moves one-for-one with the scroll offset. */
  lemma OffBarFollowsScroll(change: Option<StateChange<MapState>>, env: Viewport, d: real)
    ensures TopPosition(Off, change, env.(scrollY := env.scrollY + d)) == TopPosition(Off, change, env) + d
  {
  }

  /**
   * At the end of the splitbar-to-focused change the container becomes fixed
   * and the map is repositioned without the scroll terms: on screen it does not
   * move.
   */
  lemma SplitToFocusSeamless(env: Viewport)
    ensures var c := Some(StateChange(Splitbar, Focused));
      env.containerTop + TopPosition(Focused, c, env) - env.scrollY == TopPosition(Focused, None, env)
  {
  }

  /**
   * topPoints: the three scroll-indicator points of the panel; their on points
   * are the splitbar, focused and hover trigger points.
   */
  function TopPoints(env: Viewport): (r: seq<IndicatorPoint>)
    ensures |r| == 3
    ensures forall i :: 0 <= i < 3 ==> r[i].onPoint == Thresholds(env.visibleHeight)[i + 1].point.value
    ensures !r[0].major && r[1].major && r[2].major
    ensures r[0].displayPoint == env.visibleOffset + env.visibleHeight * Dims(env.orientation, Splitbar).top
    ensures r[1].displayPoint - r[1].onPoint == env.visibleHeight * Dims(env.orientation, Focused).top
    ensures r[2].displayPoint - r[2].onPoint == env.visibleHeight * Dims(env.orientation, Hover).top
  {
    var vh := env.visibleHeight;
    var t := Thresholds(vh);
    [ IndicatorPoint(env.visibleOffset + vh * Dims(env.orientation, Splitbar).top, t[1].point.value, false),
      IndicatorPoint(t[2].point.value + vh * Dims(env.orientation, Focused).top, t[2].point.value, true),
      IndicatorPoint(t[3].point.value + vh * Dims(env.orientation, Hover).top, t[3].point.value, true) ]
  }

  function Min(a: int, b: int): int
  {
    if a <= b then a else b
  }

  /** Sum of the first `i` entries of `s`. */
  function PrefixSum(s: seq<real>, i: nat): real
    requires i <= |s|
  {
    if i == 0 then 0.0 else PrefixSum(s, i - 1) + s[i - 1]
  }

  /**
   * One group of the stacked bar: its left edge, its width, one outline per
   * ring of the region (each with that ring's point count) and each outline's
   * opacity (only the first ring's outline is visible).
   */
  datatype BarSegment = BarSegment(left: real, width: real, paths: seq<seq<Point>>, opacities: seq<real>)

  /**
   * The outlines of one group as drawBar draws them: for each ring of the
   * region, a bar outline of the segment's rectangle with that ring's point
   * count; the first is drawn at opacity 0.6 and the others hidden.
   */
  predicate GroupDrawn(seg: BarSegment, top: real, bandwidth: real, ringCounts: seq<nat>)
  {
    && |seg.paths| == |seg.opacities| == |ringCounts|
    && (forall q :: 0 <= q < |ringCounts| ==>
          IsBarPath(seg.paths[q], Rect(seg.left, top, seg.width, bandwidth), SideCounts(ringCounts[q])))
    && (forall q :: 0 <= q < |ringCounts| ==> seg.opacities[q] == if q == 0 then 0.6 else 0.0)
  }

  /** One group of drawBar: one bar outline per ring of the region. */
  method DrawGroup(left: real, width: real, top: real, bandwidth: real, ringCounts: seq<nat>)
    returns (seg: BarSegment)
    ensures seg.left == left && seg.width == width
    ensures GroupDrawn(seg, top, bandwidth, ringCounts)
  {
    var rect := Rect(left, top, width, bandwidth);
    var paths: seq<seq<Point>> := [];
    var opacities: seq<real> := [];
    var p := 0;
    while p < |ringCounts|
      invariant 0 <= p <= |ringCounts| && |paths| == |opacities| == p
      invariant forall q :: 0 <= q < p ==> IsBarPath(paths[q], rect, SideCounts(ringCounts[q]))
      invariant forall q :: 0 <= q < p ==> opacities[q] == if q == 0 then 0.6 else 0.0
    {
      var path := MakeBarRect(rect, ringCounts[p]);
      paths := paths + [path];
      opacities := opacities + [if p == 0 then 0.6 else 0.0];
      p := p + 1;
    }
    seg := BarSegment(left, width, paths, opacities);
  }

  /**
   * Segments laid out left to right from `centerLeftOffset`, segment `g` being
   * `scaledRating * percents[g]` wide and the next starting where it ends.
   */
  predicate Stacked(segments: seq<BarSegment>, centerLeftOffset: real, scaledRating: real, percents: seq<real>)
  {
    && |segments| <= |percents|
    && (|segments| > 0 ==> segments[0].left == centerLeftOffset)
    && (forall g :: 0 <= g < |segments| ==> segments[g].width == scaledRating * percents[g])
    && (forall g :: 0 <= g < |segments| - 1 ==> segments[g + 1].left == segments[g].left + segments[g].width)
  }

  /** Where the next segment of a stacked bar starts. */
  function NextLeft(segments: seq<BarSegment>, centerLeftOffset: real): real
  {
    if |segments| == 0 then centerLeftOffset else segments[|segments| - 1].left + segments[|segments| - 1].width
  }

  /** Appending a segment at the next left edge with the next width keeps a bar stacked. */
  lemma StackedAppend(segments: seq<BarSegment>, seg: BarSegment, centerLeftOffset: real,
                      scaledRating: real, percents: seq<real>)
    requires Stacked(segments, centerLeftOffset, scaledRating, percents) && |segments| < |percents|
    requires seg.left == NextLeft(segments, centerLeftOffset)
    requires seg.width == scaledRating * percents[|segments|]
    ensures Stacked(segments + [seg], centerLeftOffset, scaledRating, percents)
    ensures NextLeft(segments + [seg], centerLeftOffset) == seg.left + seg.width
  {
    var s := segments + [seg];
    assert forall g :: 0 <= g < |segments| ==> s[g] == segments[g];
  }

  /**
   * drawBar: lays out one segment per percentage of the selected row, left to
   * right from `centerLeftOffset`, segment `i` being `scaledRating * percents[i]`
   * wide (`scaledRating` is the x scale applied to the row's rating), and draws
   * each of region `i`'s rings as a bar outline of matching point count.
   * Only as many groups as there are both percentages and regions are drawn.
   */
  method DrawBar(centerLeftOffset: real, scaledRating: real, top: real, bandwidth: real,
                 percents: seq<real>, rings: seq<seq<nat>>)
    returns (segments: seq<BarSegment>)
    ensures |segments| == Min(|percents|, |rings|)
    ensures |segments| > 0 ==> segments[0].left == centerLeftOffset
    ensures forall i :: 0 <= i < |segments| ==> segments[i].width == scaledRating * percents[i]
    ensures forall i :: 0 <= i < |segments| - 1 ==>
              segments[i + 1].left == segments[i].left + segments[i].width
    ensures forall i :: 0 <= i < |segments| ==> GroupDrawn(segments[i], top, bandwidth, rings[i])
  {
    var count := Min(|percents|, |rings|);
    var nextLeft := centerLeftOffset;
    segments := [];
    var i := 0;
    while i < count
      invariant 0 <= i <= count && |segments| == i
      invariant Stacked(segments, centerLeftOffset, scaledRating, percents)
      invariant nextLeft == NextLeft(segments, centerLeftOffset)
      invariant forall g :: 0 <= g < i ==> GroupDrawn(segments[g], top, bandwidth, rings[g])
    {
      var width := scaledRating * percents[i];
      var seg := DrawGroup(nextLeft, width, top, bandwidth, rings[i]);
      StackedAppend(segments, seg, centerLeftOffset, scaledRating, percents);
      ghost var prev := segments;
      segments := segments + [seg];
      assert forall g :: 0 <= g < i ==> segments[g] == prev[g];
      nextLeft := nextLeft + width;
      i := i + 1;
    }
  }

  /**
   * The segments of a stacked bar laid out as drawBar promises start at
   * `centerLeftOffset` plus the scaled sum of the percentages before them.
   */
  lemma {:induction false} StackedBarClosedForm(segments: seq<BarSegment>, centerLeftOffset: real,
                                                 scaledRating: real, percents: seq<real>, i: nat)
    requires |segments| <= |percents| && i < |segments|
    requires segments[0].left == centerLeftOffset
    requires forall g :: 0 <= g < |segments| ==> segments[g].width == scaledRating * percents[g]
    requires forall g :: 0 <= g < |segments| - 1 ==> segments[g + 1].left == segments[g].left + segments[g].width
    ensures segments[i].left == centerLeftOffset + scaledRating * PrefixSum(percents, i)
  {
    if i > 0 {
      StackedBarClosedForm(segments, centerLeftOffset, scaledRating, percents, i - 1);
      assert segments[i].left == segments[i - 1].left + scaledRating * percents[i - 1];
    }
  }

  /**
   * With a non-negative scale and non-negative percentages, the segments do not
   * overlap: each starts where the previous one ends, and no segment lies to the
   * left of an earlier one.
   */
  lemma {:induction false} StackedBarOrdered(segments: seq<BarSegment>, scaledRating: real, percents: seq<real>, i: nat, j: nat)
    requires |segments| <= |percents| && i <= j < |segments|
    requires scaledRating >= 0.0 && forall g :: 0 <= g < |percents| ==> percents[g] >= 0.0
    requires forall g :: 0 <= g < |segments| ==> segments[g].width == scaledRating * percents[g]
    requires forall g :: 0 <= g < |segments| - 1 ==> segments[g + 1].left == segments[g].left + segments[g].width
    ensures i < j ==> segments[i].left + segments[i].width <= segments[j].left
    ensures segments[i].left <= segments[j].left
  {
    if i < j {
      StackedBarOrdered(segments, scaledRating, percents, i, j - 1);
      assert segments[j - 1].width >= 0.0;
    }
  }

  /** The map panel's own state: the stored threshold state and the selected row. */
  class MapView {
    var state: MapState
    var selected: int

    /** A fresh panel starts in off with no row selected. */
    constructor ()
      ensures state == Off && selected == -1
    {
      state := Off;
      selected := -1;
    }

    /**
     * updateSelected: stores the model's selected row and reports the
     * `{from, to}` change when it differs from the stored one; otherwise
     * reports nothing and keeps the stored row.
     */
    method UpdateSelected(modelSelected: int) returns (changed: Option<StateChange<int>>)
      modifies this
      ensures old(selected) != modelSelected ==> changed == Some(StateChange(old(selected), modelSelected))
      ensures old(selected) == modelSelected ==> changed == None
      ensures selected == modelSelected && state == old(state)
    {
      var oldSelected := selected;
      if selected != modelSelected {
        selected := modelSelected;
        changed := Some(StateChange(oldSelected, selected));
      } else {
        changed := None;
      }
    }

    /**
     * update: takes the change record the inherited state routine produced
     * (`None` when the state did not change), stores the new state and the
     * model's selected row, and returns the chart layout, the map groups'
     * opacity transition and the redraw decision.
     */
    method Update(trigger: Trigger, change: Option<StateChange<MapState>>, modelSelected: int, env: Viewport)
      returns (layout: ChartLayout, fade: Option<Fade>, redraw: Redraw)
      modifies this
      ensures state == if change.Some? then change.value.to else old(state)
      ensures selected == modelSelected
      ensures layout == LayoutFor(env, state)
      ensures fade == GroupFade(state, change)
      ensures redraw == RedrawDecision(state, change, trigger)
    {
      if change.Some? {
        state := change.value.to;
      }
      var selectedChanged := UpdateSelected(modelSelected);
      layout := LayoutFor(env, state);
      fade := GroupFade(state, change);
      redraw := RedrawDecision(state, change, trigger);
    }
  }

  /** Asking twice for the same selection reports a change at most the first time. */
  method SelectTwice(v: MapView, modelSelected: int)
    returns (first: Option<StateChange<int>>, second: Option<StateChange<int>>)
    modifies v
    ensures first.Some? <==> old(v.selected) != modelSelected
    ensures second == None && v.selected == modelSelected
  {
    first := v.UpdateSelected(modelSelected);
    second := v.UpdateSelected(modelSelected);
  }
}
