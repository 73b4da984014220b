/** Values shared by the panels of the scrollytelling page. */
module Common {

  datatype Option<+T> = None | Some(value: T)

  /** A point of the drawing plane, in exact arithmetic. */
  datatype Point = Point(x: real, y: real)

  /** Viewport orientation; each panel keeps one dimension table per orientation. */
  datatype Orientation = Landscape | Portrait

  /**
   * The `{from, to}` record the inherited state routine returns when a panel's
   * state changes (the routine returns `false` otherwise, modelled as `None`).
   */
  datatype StateChange<S> = StateChange(from: S, to: S)

  /** `Object.values(changed).includes(s)`: the change leaves or enters `s`. */
  predicate Involves<S(==)>(change: StateChange<S>, s: S)
  {
    change.from == s || change.to == s
  }

  /**
   * One entry of a panel's threshold table: a state name and the value its
   * trigger function yields for the current viewport (`None` for the null
   * function of the baseline state).
   */
  datatype Threshold<S> = Threshold(name: S, point: Option<real>)

  /**
   * What a panel reads from its environment during one update: orientation,
   * visible height, the window's vertical scroll offset, its container's width,
   * its container's top in the document, and its visible offset.
   */
  datatype Viewport = Viewport(
    orientation: Orientation,
    visibleHeight: real,
    scrollY: real,
    containerWidth: real,
    containerTop: real,
    visibleOffset: real)

  /** The `trigger` tag of an update's parameters. */
  datatype Trigger = Absent | Scroll | Resize | BarSelected | Custom(tag: string)

  /**
   * One point of the scroll indicator: where it is drawn, the scroll offset at
   * which its state begins (the value of `onPoint`) and whether it is major.
   */
  datatype IndicatorPoint = IndicatorPoint(displayPoint: real, onPoint: real, major: bool)
}
