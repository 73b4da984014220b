/**
 * The page controller (MagicView): it owns the list of panels, sizes them and
 * the page container, and forwards every update to the panels it concerns.
 * The effects of its loops are recorded as a trace of calls on an abstract
 * list of views, each view named by its position in the list.
 */
module Orchestration {
  import opened Common
  import TablePanel
  import MapPanel
  import FinalPanel

  /** The scroll multipliers the controller hands to its panels. */
  const BarFadePoint: real := 1.7
  const MapFocusPoint: real := 2.0
  const MapHoverPoint: real := 3.0
  const MapDonePoint: real := 4.0

  /** One side-effecting call of the controller. */
  datatype Call =
    | Observe
    | SetHeight(view: nat, height: real)
    | Init(view: nat)
    | Ready(view: nat)
    | UpdateView(view: nat)
    | ContainerHeight(height: real)

  /** The parameters of an update: its trigger and, optionally, the tags of the views it is meant for. */
  datatype UpdateParams = UpdateParams(trigger: Trigger, matches: Option<seq<string>>)

  /**
   * bodyHeight: the page is as tall as the table and map panels plus one
   * client height, so that the last screen can scroll fully into view.
   */
  function BodyHeight(tableHeight: real, mapHeight: real, clientHeight: real): (h: real)
    ensures tableHeight >= 0.0 && mapHeight >= 0.0 ==> h >= clientHeight
    ensures clientHeight >= 0.0 ==> h >= tableHeight + mapHeight
    ensures tableHeight >= 0.0 && mapHeight >= 0.0 && clientHeight >= 0.0 ==> h >= 0.0
  {
    tableHeight + mapHeight + clientHeight
  }

  // ----- Specification of the call traces -----

  /** `setHeight(h)` then `init()` on each of the first `n` views, view by view. */
  function InitPhase(n: nat, h: real): seq<Call>
  {
    if n == 0 then [] else InitPhase(n - 1, h) + [SetHeight(n - 1, h), Init(n - 1)]
  }

  /** `setHeight(h)` on each of the first `n` views. */
  function HeightPhase(n: nat, h: real): seq<Call>
  {
    if n == 0 then [] else HeightPhase(n - 1, h) + [SetHeight(n - 1, h)]
  }

  /** `ready()` on each of the first `n` views. */
  function ReadyPhase(n: nat): seq<Call>
  {
    if n == 0 then [] else ReadyPhase(n - 1) + [Ready(n - 1)]
  }

  /**
   * A view takes part in an update when the parameters carry no `matches`, or
   * when the view's own `matches` test (inherited and not part of this model,
   * hence a parameter) accepts them.
   */
  function Dispatched(v: nat, params: UpdateParams, viewMatches: (nat, seq<string>) -> bool): (b: bool)
    ensures params.matches.None? ==> b
    ensures params.matches.Some? ==> (b <==> viewMatches(v, params.matches.value))
  {
    params.matches.None? || viewMatches(v, params.matches.value)
  }

  /** `update(params)` on those of the first `n` views the update is dispatched to. */
  function Dispatch(n: nat, params: UpdateParams, viewMatches: (nat, seq<string>) -> bool): seq<Call>
  {
    if n == 0 then []
    else Dispatch(n - 1, params, viewMatches) + (if Dispatched(n - 1, params, viewMatches) then [UpdateView(n - 1)] else [])
  }

  /**
   * The calls of `init` on `n` views, with `h` the client height and `bh` the
   * resulting body height; the first registers the controller as an observer
   * of the model.
   */
  function InitTrace(n: nat, h: real, bh: real): seq<Call>
  {
    [Observe] + InitPhase(n, h) + [ContainerHeight(bh)] + ReadyPhase(n)
  }

  /** The calls of `update(params)` on `n` views. */
  function UpdateTrace(n: nat, h: real, bh: real, params: UpdateParams, viewMatches: (nat, seq<string>) -> bool): seq<Call>
  {
    HeightPhase(n, h) + [ContainerHeight(bh)] + Dispatch(n, params, viewMatches)
  }

  // ----- Closed forms of the phases -----

  /** The init phase, position by position: even positions size view `i / 2`, odd ones initialise it. */
  lemma {:induction false} InitPhaseClosedForm(n: nat, h: real)
    ensures InitPhase(n, h) == seq(2 * n, i requires 0 <= i < 2 * n => if i % 2 == 0 then SetHeight(i / 2, h) else Init(i / 2))
  {
    if n > 0 {
      InitPhaseClosedForm(n - 1, h);
    }
  }

  /** The height phase sizes every view once, in list order. */
  lemma {:induction false} HeightPhaseClosedForm(n: nat, h: real)
    ensures HeightPhase(n, h) == seq(n, v requires 0 <= v < n => SetHeight(v, h))
  {
    if n > 0 {
      HeightPhaseClosedForm(n - 1, h);
    }
  }

  /** The ready phase readies every view once, in list order. */
  lemma {:induction false} ReadyPhaseClosedForm(n: nat)
    ensures ReadyPhase(n) == seq(n, v requires 0 <= v < n => Ready(v))
  {
    if n > 0 {
      ReadyPhaseClosedForm(n - 1);
    }
  }

  /** Without `matches`, every view is updated exactly once, in list order. */
  lemma {:induction false} DispatchAll(n: nat, params: UpdateParams, viewMatches: (nat, seq<string>) -> bool)
    requires params.matches.None?
    ensures Dispatch(n, params, viewMatches) == seq(n, v requires 0 <= v < n => UpdateView(v))
  {
    if n > 0 {
      DispatchAll(n - 1, params, viewMatches);
    }
  }

  /**
   * With or without `matches`, the updated views are exactly those the update
   * is dispatched to, each at most once and in list order.
   */
  lemma {:induction false} DispatchExactly(n: nat, params: UpdateParams, viewMatches: (nat, seq<string>) -> bool)
    ensures forall i :: 0 <= i < |Dispatch(n, params, viewMatches)| ==>
              var c := Dispatch(n, params, viewMatches)[i];
              c.UpdateView? && c.view < n && Dispatched(c.view, params, viewMatches)
    ensures forall v: nat :: v < n && Dispatched(v, params, viewMatches) ==> UpdateView(v) in Dispatch(n, params, viewMatches)
    ensures forall i, j :: 0 <= i < j < |Dispatch(n, params, viewMatches)| ==>
              Dispatch(n, params, viewMatches)[i].view < Dispatch(n, params, viewMatches)[j].view
  {
    if n > 0 {
      DispatchExactly(n - 1, params, viewMatches);
    }
  }

  /** A view is updated if and only if the update is dispatched to it. */
  lemma UpdatedIffDispatched(n: nat, params: UpdateParams, viewMatches: (nat, seq<string>) -> bool, v: nat)
    ensures UpdateView(v) in Dispatch(n, params, viewMatches) <==> v < n && Dispatched(v, params, viewMatches)
  {
    DispatchExactly(n, params, viewMatches);
  }

  // ----- The controller's loops -----

  /**
   * init: registers the controller with the model, sizes and initialises each
   * view in turn, sets the container height, then readies every view. The two
   * heights are those the table and map panels measure once they are
   * initialised.
   */
  method InitViews(count: nat, clientHeight: real, tableHeight: real, mapHeight: real) returns (trace: seq<Call>)
    ensures trace == InitTrace(count, clientHeight, BodyHeight(tableHeight, mapHeight, clientHeight))
  {
    trace := [Observe];
    var v := 0;
    while v < count
      invariant 0 <= v <= count
      invariant trace == [Observe] + InitPhase(v, clientHeight)
    {
      trace := trace + [SetHeight(v, clientHeight), Init(v)];
      v := v + 1;
    }
    trace := trace + [ContainerHeight(BodyHeight(tableHeight, mapHeight, clientHeight))];
    ghost var prefix := trace;
    v := 0;
    while v < count
      invariant 0 <= v <= count
      invariant trace == prefix + ReadyPhase(v)
    {
      trace := trace + [Ready(v)];
      v := v + 1;
    }
  }

  /**
   * update: sizes every view, sets the container height, then forwards the
   * parameters to each view the update is dispatched to.
   */
  method UpdateViews(count: nat, clientHeight: real, tableHeight: real, mapHeight: real,
                     params: UpdateParams, viewMatches: (nat, seq<string>) -> bool)
    returns (trace: seq<Call>)
    ensures trace == UpdateTrace(count, clientHeight, BodyHeight(tableHeight, mapHeight, clientHeight), params, viewMatches)
  {
    trace := [];
    var v := 0;
    while v < count
      invariant 0 <= v <= count
      invariant trace == HeightPhase(v, clientHeight)
    {
      trace := trace + [SetHeight(v, clientHeight)];
      v := v + 1;
    }
    trace := trace + [ContainerHeight(BodyHeight(tableHeight, mapHeight, clientHeight))];
    ghost var prefix := trace;
    v := 0;
    while v < count
      invariant 0 <= v <= count
      invariant trace == prefix + Dispatch(v, params, viewMatches)
    {
      if params.matches.None? || viewMatches(v, params.matches.value) {
        trace := trace + [UpdateView(v)];
      }
      v := v + 1;
    }
  }

  // ----- Ordering properties of the traces -----

  /**
   * The layout of `init`'s calls: first the observer registration, then view
   * `v` sized immediately before it is initialised, view by view, then the
   * container height, then every view readied in list order.
   */
  lemma InitLayout(n: nat, h: real, bh: real)
    ensures var t := InitTrace(n, h, bh);
            && |t| == 3 * n + 2
            && t[0] == Observe
            && (forall v :: 0 <= v < n ==> t[2 * v + 1] == SetHeight(v, h) && t[2 * v + 2] == Init(v))
            && t[2 * n + 1] == ContainerHeight(bh)
            && (forall v :: 0 <= v < n ==> t[2 * n + 2 + v] == Ready(v))
  {
    InitPhaseClosedForm(n, h);
    ReadyPhaseClosedForm(n);
    var t := InitTrace(n, h, bh);
    var phase := InitPhase(n, h);
    assert |phase| == 2 * n;
    forall v | 0 <= v < n
      ensures t[2 * v + 1] == SetHeight(v, h) && t[2 * v + 2] == Init(v)
    {
      assert t[2 * v + 1] == phase[2 * v];
      assert t[2 * v + 2] == phase[2 * v + 1];
    }
    forall v | 0 <= v < n
      ensures t[2 * n + 2 + v] == Ready(v)
    {
      assert t[2 * n + 2 + v] == ReadyPhase(n)[v];
    }
  }

  /** In `init`, every view is readied only after every view is initialised. */
  lemma InitBeforeReady(n: nat, h: real, bh: real)
    ensures var t := InitTrace(n, h, bh);
            forall i, j :: 0 <= i < |t| && 0 <= j < |t| && t[i].Init? && t[j].Ready? ==> i < j
  {
    InitLayout(n, h, bh);
    var t := InitTrace(n, h, bh);
    forall k | 2 * n + 1 <= k < |t|
      ensures !t[k].Init?
    {
      if k > 2 * n + 1 {
        assert t[k] == Ready(k - 2 * n - 2);
      }
    }
    forall k | 0 <= k < 2 * n + 2
      ensures !t[k].Ready?
    {
      if k == 0 || k == 2 * n + 1 {
      } else if k % 2 == 1 {
        assert t[k] == SetHeight((k - 1) / 2, h);
      } else {
        assert t[k] == Init((k - 2) / 2);
      }
    }
  }

  /**
   * In `update`, every view is sized before any view is updated, and the
   * container height is set once, between the two.
   */
  lemma UpdateOrder(n: nat, h: real, bh: real, params: UpdateParams, viewMatches: (nat, seq<string>) -> bool)
    ensures var t := UpdateTrace(n, h, bh, params, viewMatches);
            && |t| > n
            && (forall v :: 0 <= v < n ==> t[v] == SetHeight(v, h))
            && t[n] == ContainerHeight(bh)
            && (forall i :: n < i < |t| ==> t[i].UpdateView?)
    ensures var t := UpdateTrace(n, h, bh, params, viewMatches);
            forall i, j :: 0 <= i < |t| && 0 <= j < |t| && t[i].SetHeight? && t[j].UpdateView? ==> i < n < j
  {
    HeightPhaseClosedForm(n, h);
    DispatchExactly(n, params, viewMatches);
    var t := UpdateTrace(n, h, bh, params, viewMatches);
    assert forall i :: n < i < |t| ==> t[i] == Dispatch(n, params, viewMatches)[i - n - 1];
  }

  // ----- Scroll-indicator points -----

  /** The points of several panels, one panel after the other. */
  function Concat(groups: seq<seq<IndicatorPoint>>): seq<IndicatorPoint>
  {
    if |groups| == 0 then [] else Concat(groups[..|groups| - 1]) + groups[|groups| - 1]
  }

  /** The points of four panels are their concatenation in list order. */
  lemma ConcatFour(a: seq<IndicatorPoint>, b: seq<IndicatorPoint>, c: seq<IndicatorPoint>, d: seq<IndicatorPoint>)
    ensures Concat([a, b, c, d]) == a + b + c + d
  {
    assert [a][..0] == [];
    assert Concat([a]) == a;
    assert [a, b][..1] == [a];
    assert Concat([a, b]) == a + b;
    assert [a, b, c][..2] == [a, b];
    assert Concat([a, b, c]) == a + b + c;
    assert [a, b, c, d][..3] == [a, b, c];
  }

  /** Appends each panel's `topPoints()` in turn. */
  method CollectPoints(groups: seq<seq<IndicatorPoint>>) returns (points: seq<IndicatorPoint>)
    ensures points == Concat(groups)
  {
    points := [];
    var i := 0;
    while i < |groups|
      invariant 0 <= i <= |groups|
      invariant points == Concat(groups[..i])
    {
      assert groups[..i + 1][..i] == groups[..i];
      points := points + groups[i];
      i := i + 1;
    }
    assert groups[..|groups|] == groups;
  }

  /**
   * The points handed to the scroll indicator: those of the table, the bar
   * chart (whose panel is not part of this model, so its points are an input),
   * the map and the closing panel, in that order.
   */
  method ScrollPoints(env: Viewport, barPoints: seq<IndicatorPoint>, parentHeight: real, finalHeight: real)
    returns (points: seq<IndicatorPoint>)
    ensures points == TablePanel.TopPoints(env.orientation, env.visibleHeight) + barPoints
                      + MapPanel.TopPoints(env)
                      + FinalPanel.TopPoints(env.visibleHeight, MapDonePoint, parentHeight, finalHeight)
    ensures |points| == |barPoints| + 5
  {
    var table := TablePanel.TopPoints(env.orientation, env.visibleHeight);
    var mapPoints := MapPanel.TopPoints(env);
    var last := FinalPanel.TopPoints(env.visibleHeight, MapDonePoint, parentHeight, finalHeight);
    points := CollectPoints([table, barPoints, mapPoints, last]);
    ConcatFour(table, barPoints, mapPoints, last);
  }

  /** The on points of a list of indicator points never decrease along the list. */
  predicate OnPointsSorted(ps: seq<IndicatorPoint>)
  {
    forall i, j :: 0 <= i < j < |ps| ==> ps[i].onPoint <= ps[j].onPoint
  }

  /**
   * The panels hand over in scroll order: the table is off before the map
   * leaves its baseline, and the closing panel (on at the done multiplier the
   * controller passes it) turns on only after the map is done.
   */
  lemma PanelsHandOver(o: Orientation, vh: real)
    requires vh > 0.0
    ensures TablePanel.OffThreshold(o, vh) < MapPanel.Thresholds(vh)[1].point.value
    ensures MapPanel.Thresholds(vh)[4].point.value < FinalPanel.Thresholds(vh, MapDonePoint)[1].point.value
  {
  }

  /**
   * When the bar chart's points are in order and on within the first screen,
   * the scroll indicator's points are in order of their on points.
   */
  lemma ScrollPointsSorted(env: Viewport, barPoints: seq<IndicatorPoint>, parentHeight: real, finalHeight: real)
    requires env.visibleHeight > 0.0
    requires OnPointsSorted(barPoints)
    requires forall i :: 0 <= i < |barPoints| ==> 0.0 <= barPoints[i].onPoint <= env.visibleHeight
    ensures OnPointsSorted(TablePanel.TopPoints(env.orientation, env.visibleHeight) + barPoints
                           + MapPanel.TopPoints(env)
                           + FinalPanel.TopPoints(env.visibleHeight, MapDonePoint, parentHeight, finalHeight))
  {
    var vh := env.visibleHeight;
    var table := TablePanel.TopPoints(env.orientation, vh);
    var mapPoints := MapPanel.TopPoints(env);
    var last := FinalPanel.TopPoints(vh, MapDonePoint, parentHeight, finalHeight);
    var tail := mapPoints + last;
    assert OnPointsSorted(tail) by {
      var t := MapPanel.Thresholds(vh);
      assert mapPoints[0].onPoint == t[1].point.value == vh;
      assert mapPoints[1].onPoint == t[2].point.value;
      assert mapPoints[2].onPoint == t[3].point.value;
      assert last[0].onPoint == vh * MapDonePoint;
      assert t[3].point.value < t[4].point.value < vh * MapDonePoint;
    }
    assert forall i :: 0 <= i < |tail| ==> vh <= tail[i].onPoint;
    var ps := table + barPoints + tail;
    forall i, j | 0 <= i < j < |ps|
      ensures ps[i].onPoint <= ps[j].onPoint
    {
      var b := |barPoints|;
      if i == 0 {
        if j <= b {
          assert ps[j] == barPoints[j - 1];
        } else {
          assert ps[j] == tail[j - 1 - b];
        }
      } else if i <= b {
        if j <= b {
          assert ps[i] == barPoints[i - 1] && ps[j] == barPoints[j - 1];
        } else {
          assert ps[i] == barPoints[i - 1] && ps[j] == tail[j - 1 - b];
        }
      } else {
        assert ps[i] == tail[i - 1 - b] && ps[j] == tail[j - 1 - b];
      }
    }
    assert table + barPoints + mapPoints + last == ps;
  }
}
