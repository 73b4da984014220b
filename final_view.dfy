/**
 * The closing panel (FinalView): hidden until the reader scrolls past its on
 * point, a multiple of the visible height given by the page.
 */
module FinalPanel {
  import opened Common

  datatype FinalState = Off | On

  /** The threshold table: the baseline `off` with a null function, then `on` at `onPoint` visible heights. */
  function Thresholds(vh: real, onPoint: real): (t: seq<Threshold<FinalState>>)
    ensures |t| == 2
    ensures t[0] == Threshold(Off, None)
    ensures t[1].name == On && t[1].point.Some?
    ensures vh > 0.0 && onPoint > 0.0 ==> t[1].point.value > 0.0
    ensures vh > 0.0 && onPoint >= 1.0 ==> t[1].point.value >= vh
  {
    [Threshold(Off, None), Threshold(On, Some(vh * onPoint))]
  }

  /**
   * topPoints: a single major point, turned on at the on threshold and drawn a
   * third of the panel's own height above the bottom of the page container.
   */
  function TopPoints(vh: real, onPoint: real, parentHeight: real, ownHeight: real): (r: seq<IndicatorPoint>)
    ensures |r| == 1 && r[0].major
    ensures r[0].onPoint == Thresholds(vh, onPoint)[1].point.value
    ensures ownHeight >= 0.0 ==> r[0].displayPoint <= parentHeight
    ensures ownHeight >= 0.0 ==> parentHeight - r[0].displayPoint <= ownHeight
  {
    [IndicatorPoint(parentHeight - ownHeight / 3.0, Thresholds(vh, onPoint)[1].point.value, true)]
  }

  /** The container is fully visible in `on` and invisible otherwise. */
  function ContainerOpacity(s: FinalState): (r: real)
    ensures r == 1.0 <==> s == On
    ensures r == 0.0 <==> s.Off?
  {
    if s == On then 1.0 else 0.0
  }

  class FinalView {
    var state: FinalState
    const onPoint: real

    /** The initial state comes from the inherited constructor, which is not part of this model. */
    constructor (initial: FinalState, onPoint: real)
      ensures state == initial && this.onPoint == onPoint
    {
      state := initial;
      this.onPoint := onPoint;
    }

    /** update: stores the new state the change record reports and returns the container's opacity. */
    method Update(change: Option<StateChange<FinalState>>) returns (opacity: real)
      modifies this
      ensures state == if change.Some? then change.value.to else old(state)
      ensures opacity == ContainerOpacity(state)
      ensures opacity == 1.0 <==> state == On
    {
      if change.Some? {
        state := change.value.to;
      }
      opacity := if state == On then 1.0 else 0.0;
    }
  }
}
