/**
 * The table panel (TableView): a centred grid of the data that fades its text
 * and then itself out as the reader scrolls through the states on, fadetext
 * and off. Each of the first two columns' texts of every data row is copied
 * into that row's text mask, which later panels use.
 */
module TablePanel {
  import opened Common

  datatype TableState = Pageload | On | FadeText | Off

  /** One entry of the per-orientation dimension table (fractions of width and visible height). */
  datatype TableDims = TableDims(width: real, height: real, top: real)

  function Dims(o: Orientation): (d: TableDims)
    ensures d.top == 0.6 && d.height == 0.7
    ensures 0.0 < d.width <= 1.0
  {
    match o
    case Landscape => TableDims(0.5, 0.7, 0.6)
    case Portrait => TableDims(0.9, 0.7, 0.6)
  }

  /**
   * The threshold table: the baseline `on` with a null function, then fadetext
   * at the table top less 0.35 and off at the table top less 0.15 visible heights.
   */
  function Thresholds(o: Orientation, vh: real): (t: seq<Threshold<TableState>>)
    ensures |t| == 3
    ensures t[0] == Threshold(On, None)
    ensures t[1] == Threshold(FadeText, Some(vh * 0.25))
    ensures t[2] == Threshold(Off, Some(vh * 0.45))
    ensures vh > 0.0 ==> t[1].point.value < t[2].point.value
  {
    var top := Dims(o).top;
    assert top - 0.35 == 0.25 && top - 0.15 == 0.45;
    [ Threshold(On, None),
      Threshold(FadeText, Some(vh * (top - 0.35))),
      Threshold(Off, Some(vh * (top - 0.15))) ]
  }

  /** fadeTextThreshold: the same point as the fadetext entry of the threshold table. */
  function FadeTextThreshold(o: Orientation, vh: real): (r: real)
    ensures Thresholds(o, vh)[1].point == Some(r)
  {
    vh * (Dims(o).top - 0.35)
  }

  /** offThreshold: the same point as the off entry of the threshold table. */
  function OffThreshold(o: Orientation, vh: real): (r: real)
    ensures Thresholds(o, vh)[2].point == Some(r)
  {
    vh * (Dims(o).top - 0.15)
  }

  /** Vertical position of the caption, as a fraction of the visible height. */
  const CaptionTop: real := 0.25

  /**
   * topPoints: the panel's single, major scroll-indicator point; it is on from
   * the top of the page and drawn where the table starts fading its text.
   */
  function TopPoints(o: Orientation, vh: real): (r: seq<IndicatorPoint>)
    ensures |r| == 1 && r[0].major && r[0].onPoint == 0.0
    ensures r[0].displayPoint == FadeTextThreshold(o, vh)
    ensures vh > 0.0 ==> 0.0 < r[0].displayPoint < vh
  {
    [IndicatorPoint(vh * 0.25, 0.0, true)]
  }

  /**
   * captionOpacity: full at the top of the page, falling linearly to zero at a
   * quarter of the visible height and zero beyond it.
   */
  function CaptionOpacity(vh: real, scrollY: real): (r: real)
    requires vh > 0.0
    ensures r >= 0.0
    ensures scrollY == 0.0 ==> r == 1.0
    ensures scrollY >= 0.0 ==> r <= 1.0
    ensures scrollY > CaptionTop * vh ==> r == 0.0
    ensures 0.0 < r ==> scrollY < CaptionTop * vh
  {
    var zeroPoint := CaptionTop * vh;
    var scrollDiff := zeroPoint - scrollY;
    if scrollDiff < 0.0 then 0.0
    else
      var r := scrollDiff / zeroPoint;
      assert r * zeroPoint == scrollDiff;
      assert zeroPoint / zeroPoint == 1.0;
      assert r == zeroPoint / zeroPoint - scrollY / zeroPoint;
      assert scrollY >= 0.0 ==> scrollY / zeroPoint >= 0.0;
      r
  }

  /** Scrolling further never makes the caption more opaque. */
  lemma CaptionOpacityNonIncreasing(vh: real, s1: real, s2: real)
    requires vh > 0.0 && s1 <= s2
    ensures CaptionOpacity(vh, s2) <= CaptionOpacity(vh, s1)
  {
    var z := CaptionTop * vh;
    if z - s2 >= 0.0 {
      assert (z - s1) / z - (z - s2) / z == (s2 - s1) / z;
    }
  }

  /** The caption has faded out completely by the time the cell texts start fading. */
  lemma CaptionGoneAtFadeText(o: Orientation, vh: real)
    requires vh > 0.0
    ensures CaptionOpacity(vh, FadeTextThreshold(o, vh)) == 0.0
  {
  }

  /** The layout parameters of `update`: column and row counts, table size and left margin. */
  datatype PosParams = PosParams(numCols: nat, numRows: nat, tableWidth: real, tableHeight: real,
                                 centerLeftOffset: real)

  /** The table is centred: its margins left and right are equal. */
  function Layout(env: Viewport, numCols: nat, numRows: nat): (p: PosParams)
    ensures p.numCols == numCols && p.numRows == numRows
    ensures p.tableWidth == env.containerWidth * Dims(env.orientation).width
    ensures p.tableHeight == env.visibleHeight * Dims(env.orientation).height
    ensures p.centerLeftOffset == env.containerWidth - (p.centerLeftOffset + p.tableWidth)
  {
    var tableWidth := env.containerWidth * Dims(env.orientation).width;
    PosParams(numCols, numRows, tableWidth, env.visibleHeight * Dims(env.orientation).height,
              (env.containerWidth - tableWidth) / 2.0)
  }

  predicate ValidPos(p: PosParams)
  {
    p.numCols > 0 && p.numRows > 0
  }

  datatype Box = Box(x: real, y: real, width: real, height: real)

  function CellWidth(p: PosParams): real
    requires ValidPos(p)
  {
    p.tableWidth / (p.numCols as real)
  }

  function RowHeight(p: PosParams): real
    requires ValidPos(p)
  {
    p.tableHeight / (p.numRows as real)
  }

  /** The box of cell `i` of row `rowIndex` (the header row is -1). */
  function CellBox(p: PosParams, rowIndex: int, i: nat): (b: Box)
    requires ValidPos(p)
    ensures b.width * (p.numCols as real) == p.tableWidth
    ensures b.height * (p.numRows as real) == p.tableHeight
    ensures i == 0 ==> b.x == p.centerLeftOffset
    ensures rowIndex == -1 ==> b.y + b.height == 0.0
  {
    Box(p.centerLeftOffset + CellWidth(p) * (i as real), RowHeight(p) * (rowIndex as real),
        CellWidth(p), RowHeight(p))
  }

  /** Where the text of a cell is anchored: a tenth of a cell in, half a row down. */
  function TextAnchor(p: PosParams, rowIndex: int, i: nat): (t: Point)
    requires ValidPos(p)
    ensures t.x == CellBox(p, rowIndex, i).x + CellBox(p, rowIndex, i).width / 10.0
    ensures t.y == CellBox(p, rowIndex, i).y + CellBox(p, rowIndex, i).height / 2.0
  {
    var w, h := CellWidth(p), RowHeight(p);
    assert w * ((i as real) + 0.1) == w * (i as real) + w / 10.0;
    assert h * ((rowIndex as real) + 0.5) == h * (rowIndex as real) + h / 2.0;
    Point(p.centerLeftOffset + w * ((i as real) + 0.1), h * ((rowIndex as real) + 0.5))
  }

  /**
   * The cells of a row tile the table's width: the first starts at the left
   * margin, each starts where the previous ends, and the last ends at the
   * right edge of the table.
   */
  lemma {:induction false} CellsTileRow(p: PosParams, rowIndex: int, i: nat)
    requires ValidPos(p) && i < p.numCols
    ensures CellBox(p, rowIndex, 0).x == p.centerLeftOffset
    ensures i + 1 < p.numCols ==>
      CellBox(p, rowIndex, i).x + CellBox(p, rowIndex, i).width == CellBox(p, rowIndex, i + 1).x
    ensures i + 1 == p.numCols ==>
      CellBox(p, rowIndex, i).x + CellBox(p, rowIndex, i).width == p.centerLeftOffset + p.tableWidth
  {
    var w := CellWidth(p);
    assert w * (i as real) + w == w * ((i + 1) as real);
    assert w * (p.numCols as real) == p.tableWidth;
  }

  /** Rows stack without gaps, the header directly above the first data row. */
  lemma RowsStack(p: PosParams, rowIndex: int, i: nat)
    requires ValidPos(p)
    ensures CellBox(p, rowIndex, i).y + CellBox(p, rowIndex, i).height == CellBox(p, rowIndex + 1, i).y
    ensures CellBox(p, -1, i).y + CellBox(p, -1, i).height == 0.0
  {
    var h := RowHeight(p);
    assert h * (rowIndex as real) + h == h * ((rowIndex + 1) as real);
  }

  /** A cell's text anchor lies inside its box, vertically centred. */
  lemma TextInsideCell(p: PosParams, rowIndex: int, i: nat)
    requires ValidPos(p) && p.tableWidth >= 0.0
    ensures var b, t := CellBox(p, rowIndex, i), TextAnchor(p, rowIndex, i);
            b.x <= t.x <= b.x + b.width && t.y == b.y + b.height / 2.0
  {
    var w := CellWidth(p);
    assert w >= 0.0;
    assert w * ((i as real) + 0.1) == w * (i as real) + w * 0.1;
    var h := RowHeight(p);
    assert h * ((rowIndex as real) + 0.5) == h * (rowIndex as real) + h / 2.0;
  }

  /** The target opacity of the cell texts: hidden from the fadetext point on. */
  function TextOpacity(env: Viewport): (r: real)
    ensures r == 0.0 <==> env.scrollY >= FadeTextThreshold(env.orientation, env.visibleHeight)
    ensures r == 0.0 || r == 1.0
  {
    if env.scrollY >= FadeTextThreshold(env.orientation, env.visibleHeight) then 0.0 else 1.0
  }

  /** One drawn cell: its box, its text, the text's anchor and the text's target opacity. */
  datatype Cell = Cell(box: Box, anchor: Point, text: string, textOpacity: real)

  /** The cells drawRow draws for the values `data` in row `rowIndex`. */
  function RowCells(data: seq<string>, rowIndex: int, p: PosParams, env: Viewport): (cells: seq<Cell>)
    requires ValidPos(p)
    ensures |cells| == |data|
    ensures forall i :: 0 <= i < |data| ==> cells[i].text == data[i] && cells[i].box == CellBox(p, rowIndex, i)
    ensures forall i :: 0 <= i < |data| ==> cells[i].anchor == TextAnchor(p, rowIndex, i)
    ensures forall i :: 0 <= i < |data| ==>
              (cells[i].textOpacity == 0.0 <==> env.scrollY >= FadeTextThreshold(env.orientation, env.visibleHeight))
    ensures forall i :: 0 <= i < |data| ==> cells[i].textOpacity == 0.0 || cells[i].textOpacity == 1.0
  {
    seq(|data|, i requires 0 <= i < |data| =>
      Cell(CellBox(p, rowIndex, i), TextAnchor(p, rowIndex, i), data[i], TextOpacity(env)))
  }

  /** A text of a row's mask: the value it copies and where it was last positioned, if ever. */
  datatype MaskText = MaskText(datum: string, pos: Option<Point>)

  /** The text mask of one data row. */
  datatype Mask = Mask(row: int, texts: seq<MaskText>)

  predicate HasDatum(texts: seq<MaskText>, d: string)
  {
    exists t :: 0 <= t < |texts| && texts[t].datum == d
  }

  predicate DistinctData(texts: seq<MaskText>)
  {
    forall a, b :: 0 <= a < b < |texts| ==> texts[a].datum != texts[b].datum
  }

  predicate HasMask(masks: seq<Mask>, row: int)
  {
    exists k :: 0 <= k < |masks| && masks[k].row == row
  }

  /** The texts of the first mask for `row` (none when there is no such mask). */
  function MaskTexts(masks: seq<Mask>, row: int): seq<MaskText>
  {
    if masks == [] then []
    else if masks[0].row == row then masks[0].texts
    else MaskTexts(masks[1..], row)
  }

  /**
   * The texts of a row's mask after moveTextMask for value `d`, as the source
   * writes it: the texts holding `d` are positioned at `anchor`; when there is
   * none, a text for `d` is appended, but the positioning step acts on the
   * selection taken before the append, so the new text gets no position.
   */
  function MovedTexts(texts: seq<MaskText>, d: string, anchor: Point): (r: seq<MaskText>)
    ensures |r| == |texts| + (if HasDatum(texts, d) then 0 else 1)
    ensures r[..|texts|] == texts || HasDatum(texts, d)
  {
    if HasDatum(texts, d) then
      seq(|texts|, t requires 0 <= t < |texts| => if texts[t].datum == d then MaskText(d, Some(anchor)) else texts[t])
    else
      texts + [MaskText(d, None)]
  }

  /** As written, a text appended for a value the mask lacked is left without a position. */
  lemma AppendedTextUnplaced(texts: seq<MaskText>, d: string, anchor: Point)
    requires !HasDatum(texts, d)
    ensures var r := MovedTexts(texts, d, anchor);
            exists t :: 0 <= t < |r| && r[t].datum == d && r[t].pos.None?
  {
    var r := MovedTexts(texts, d, anchor);
    assert r[|texts|] == MaskText(d, None);
  }

  /** The first call for a fresh row's mask: its only text is never positioned by that call. */
  lemma FreshMaskTextUnplaced(d: string, anchor: Point)
    ensures MovedTexts([], d, anchor) == [MaskText(d, None)]
  {
  }

  /**
   * The texts of a row's mask after moveTextMask as evidently intended: every
   * text holding `d`, including one appended for it, ends up at `anchor`.
   */
  function PlacedTexts(texts: seq<MaskText>, d: string, anchor: Point): (r: seq<MaskText>)
    ensures |r| == |texts| + (if HasDatum(texts, d) then 0 else 1)
    ensures forall t :: 0 <= t < |r| && r[t].datum == d ==> r[t].pos == Some(anchor)
    ensures forall t :: 0 <= t < |texts| && texts[t].datum != d ==> r[t] == texts[t]
    ensures forall t :: |texts| <= t < |r| ==> r[t].datum == d
  {
    if HasDatum(texts, d) then MovedTexts(texts, d, anchor)
    else texts + [MaskText(d, Some(anchor))]
  }

  /**
   * The texts of row `rowIndex`'s mask after drawRow has visited its first `n`
   * values: each of the first two columns' values is placed, in column order,
   * at its cell's text anchor; later columns leave the mask alone.
   */
  function RowMaskTexts(texts: seq<MaskText>, data: seq<string>, rowIndex: int, p: PosParams, n: nat): seq<MaskText>
    requires ValidPos(p) && n <= |data|
  {
    if n == 0 then texts
    else
      var prev := RowMaskTexts(texts, data, rowIndex, p, n - 1);
      if n - 1 <= 1 then PlacedTexts(prev, data[n - 1], TextAnchor(p, rowIndex, n - 1)) else prev
  }

  /**
   * After drawRow the value of the last of the first two columns sits at its
   * cell's anchor, and so does the first column's value when it differs.
   */
  lemma RowMaskTextsPlaced(texts: seq<MaskText>, data: seq<string>, rowIndex: int, p: PosParams)
    requires ValidPos(p) && |data| >= 1
    ensures var r := RowMaskTexts(texts, data, rowIndex, p, |data|);
            var last := if |data| == 1 then 0 else 1;
            forall t :: 0 <= t < |r| && r[t].datum == data[last] ==> r[t].pos == Some(TextAnchor(p, rowIndex, last))
    ensures var r := RowMaskTexts(texts, data, rowIndex, p, |data|);
            |data| >= 2 && data[0] != data[1] ==>
            forall t :: 0 <= t < |r| && r[t].datum == data[0] ==> r[t].pos == Some(TextAnchor(p, rowIndex, 0))
  {
    var last := if |data| == 1 then 0 else 1;
    RowMaskTextsStable(texts, data, rowIndex, p, last + 1, |data|);
    if |data| >= 2 {
      RowMaskTextsStable(texts, data, rowIndex, p, 2, |data|);
      var after0 := RowMaskTexts(texts, data, rowIndex, p, 1);
      var r := RowMaskTexts(texts, data, rowIndex, p, 2);
      assert r == PlacedTexts(after0, data[1], TextAnchor(p, rowIndex, 1));
      if data[0] != data[1] {
        forall t | 0 <= t < |r| && r[t].datum == data[0]
          ensures r[t].pos == Some(TextAnchor(p, rowIndex, 0))
        {
          assert t < |after0|;
          assert r[t] == after0[t];
        }
      }
    }
  }

  /** Columns past the second do not touch the mask. */
  lemma {:induction false} RowMaskTextsStable(texts: seq<MaskText>, data: seq<string>, rowIndex: int, p: PosParams, m: nat, n: nat)
    requires ValidPos(p) && m <= n <= |data| && (2 <= m || m == n)
    ensures RowMaskTexts(texts, data, rowIndex, p, n) == RowMaskTexts(texts, data, rowIndex, p, m)
    decreases n
  {
    if n > m {
      RowMaskTextsStable(texts, data, rowIndex, p, m, n - 1);
    }
  }

  /**
   * After moveTextMask the row's mask holds a text for `d`, still holds a text
   * for every value it held, and still holds each value at most once.
   */
  lemma PlacedTextsKeeps(texts: seq<MaskText>, d: string, anchor: Point)
    ensures HasDatum(PlacedTexts(texts, d, anchor), d)
    ensures forall e :: HasDatum(texts, e) ==> HasDatum(PlacedTexts(texts, d, anchor), e)
    ensures DistinctData(texts) ==> DistinctData(PlacedTexts(texts, d, anchor))
  {
    var r := PlacedTexts(texts, d, anchor);
    if HasDatum(texts, d) {
      var t :| 0 <= t < |texts| && texts[t].datum == d;
      assert r[t].datum == d;
    } else {
      assert r[|texts|].datum == d;
    }
    forall e | HasDatum(texts, e) ensures HasDatum(r, e) {
      var u :| 0 <= u < |texts| && texts[u].datum == e;
      assert r[u].datum == e;
    }
  }

  /** In masks with distinct rows, the mask found for a row is the one at its index. */
  lemma {:induction false} MaskTextsAt(masks: seq<Mask>, k: nat)
    requires k < |masks|
    requires forall a, b :: 0 <= a < b < |masks| ==> masks[a].row != masks[b].row
    ensures MaskTexts(masks, masks[k].row) == masks[k].texts
  {
    if k > 0 {
      assert masks[0].row != masks[k].row;
      MaskTextsAt(masks[1..], k - 1);
    }
  }

  /** A row without a mask has no mask texts. */
  lemma {:induction false} MaskTextsAbsent(masks: seq<Mask>, row: int)
    requires !HasMask(masks, row)
    ensures MaskTexts(masks, row) == []
  {
    if masks != [] {
      assert masks[0].row != row;
      assert !HasMask(masks[1..], row) by {
        forall k | 0 <= k < |masks| - 1 ensures masks[1..][k].row != row {
          assert masks[1..][k] == masks[k + 1];
        }
      }
      MaskTextsAbsent(masks[1..], row);
    }
  }

  /**
   * The filter-then-position step of moveTextMask: every text holding `d` gets
   * the anchor, and `found` says whether there was one.
   */
  method PositionTexts(texts: seq<MaskText>, d: string, anchor: Point)
    returns (out: seq<MaskText>, found: bool)
    ensures found == HasDatum(texts, d)
    ensures found ==> out == PlacedTexts(texts, d, anchor)
    ensures !found ==> out == texts
  {
    out := [];
    found := false;
    var t := 0;
    while t < |texts|
      invariant 0 <= t <= |texts| && |out| == t
      invariant found <==> exists u :: 0 <= u < t && texts[u].datum == d
      invariant forall u :: 0 <= u < t ==>
                  out[u] == if texts[u].datum == d then MaskText(d, Some(anchor)) else texts[u]
    {
      if texts[t].datum == d {
        out := out + [MaskText(d, Some(anchor))];
        found := true;
      } else {
        out := out + [texts[t]];
      }
      t := t + 1;
    }
  }

  /** The cell data, the row data and everything `update` decided in one call. */
  datatype TableFrame = TableFrame(
    captionOpacity: real,
    tableTop: real,
    layout: Option<PosParams>,
    header: seq<Cell>,
    rows: seq<seq<Cell>>,
    tableOpacity: Option<real>,
    maskOpacity: Option<real>)

  class TableView {
    var state: TableState
    var masks: seq<Mask>

    /** At most one mask per data row, and within a mask at most one text per value. */
    ghost predicate Valid()
      reads this
    {
      && (forall a, b :: 0 <= a < b < |masks| ==> masks[a].row != masks[b].row)
      && (forall k :: 0 <= k < |masks| ==> masks[k].row >= 0 && DistinctData(masks[k].texts))
    }

    /** A fresh table panel is in the page-load state with no masks. */
    constructor ()
      ensures Valid() && state == Pageload && masks == []
    {
      state := Pageload;
      masks := [];
    }

    /** The `#…-mask-<row>` lookup: the index of the mask for `row`, or -1. */
    method FindMask(row: int) returns (idx: int)
      ensures -1 <= idx < |masks|
      ensures idx >= 0 ==> masks[idx].row == row
      ensures idx == -1 <==> !HasMask(masks, row)
    {
      idx := 0;
      while idx < |masks|
        invariant 0 <= idx <= |masks|
        invariant forall k :: 0 <= k < idx ==> masks[k].row != row
      {
        if masks[idx].row == row {
          return;
        }
        idx := idx + 1;
      }
      idx := -1;
    }

    /**
     * moveTextMask: for data rows and the first two columns only, creates the
     * row's mask when it has none, appends a text for `d` when the mask holds
     * none, and positions the texts holding `d` at the cell's anchor; this is
     * the corrected behaviour, in which an appended text is positioned too.
     */
    method MoveTextMask(d: string, i: nat, rowIndex: int, p: PosParams)
      requires Valid() && ValidPos(p)
      modifies this
      ensures Valid() && state == old(state)
      ensures rowIndex < 0 || i > 1 ==> masks == old(masks)
      ensures rowIndex >= 0 && i <= 1 ==>
        && |masks| == |old(masks)| + (if HasMask(old(masks), rowIndex) then 0 else 1)
        && (forall k :: 0 <= k < |old(masks)| ==> masks[k].row == old(masks)[k].row)
        && (forall k :: 0 <= k < |old(masks)| && old(masks)[k].row != rowIndex ==> masks[k] == old(masks)[k])
        && (forall k :: |old(masks)| <= k < |masks| ==> masks[k].row == rowIndex)
        && MaskTexts(masks, rowIndex) == PlacedTexts(MaskTexts(old(masks), rowIndex), d, TextAnchor(p, rowIndex, i))
    {
      if rowIndex < 0 || i > 1 {
        return;
      }
      var idx := FindMask(rowIndex);
      if idx < 0 {
        MaskTextsAbsent(masks, rowIndex);
        masks := masks + [Mask(rowIndex, [])];
        idx := |masks| - 1;
      } else {
        MaskTextsAt(masks, idx);
      }
      ghost var before := masks;
      var anchor := TextAnchor(p, rowIndex, i);
      var texts, found := PositionTexts(masks[idx].texts, d, anchor);
      if !found {
        texts := texts + [MaskText(d, Some(anchor))];
      }
      assert texts == PlacedTexts(before[idx].texts, d, anchor);
      PlacedTextsKeeps(before[idx].texts, d, anchor);
      masks := masks[idx := Mask(rowIndex, texts)];
      assert masks[idx].texts == texts;
      assert forall k :: 0 <= k < |masks| && k != idx ==> masks[k] == before[k];
      MaskTextsAt(masks, idx);
    }

    /**
     * drawRow: the cells of row `rowIndex` (the header is -1), each text's
     * target opacity, and the text masks of the first two columns.
     */
    method DrawRow(data: seq<string>, rowIndex: int, p: PosParams, env: Viewport) returns (cells: seq<Cell>)
      requires Valid() && ValidPos(p)
      modifies this
      ensures Valid() && state == old(state)
      ensures cells == RowCells(data, rowIndex, p, env)
      ensures rowIndex < 0 ==> masks == old(masks)
      ensures rowIndex >= 0 ==>
        MaskTexts(masks, rowIndex) == RowMaskTexts(MaskTexts(old(masks), rowIndex), data, rowIndex, p, |data|)
      ensures rowIndex >= 0 ==>
        forall i :: 0 <= i < |data| && i <= 1 ==> HasDatum(MaskTexts(masks, rowIndex), data[i])
      ensures forall r :: r != rowIndex ==> MaskTexts(masks, r) == MaskTexts(old(masks), r)
    {
      cells := RowCells(data, rowIndex, p, env);
      var i := 0;
      while i < |data|
        invariant 0 <= i <= |data|
        invariant Valid() && state == old(state)
        invariant rowIndex < 0 ==> masks == old(masks)
        invariant rowIndex >= 0 ==>
          MaskTexts(masks, rowIndex) == RowMaskTexts(MaskTexts(old(masks), rowIndex), data, rowIndex, p, i)
        invariant rowIndex >= 0 ==>
          forall j :: 0 <= j < i && j <= 1 ==> HasDatum(MaskTexts(masks, rowIndex), data[j])
        invariant forall r :: r != rowIndex ==> MaskTexts(masks, r) == MaskTexts(old(masks), r)
      {
        ghost var before := masks;
        MoveTextMask(data[i], i, rowIndex, p);
        OtherRowsKept(before, masks, rowIndex);
        if rowIndex >= 0 && i <= 1 {
          PlacedTextsKeeps(MaskTexts(before, rowIndex), data[i], TextAnchor(p, rowIndex, i));
        }
        i := i + 1;
      }
    }

    /**
     * update: takes the change record of the inherited state routine, stores the
     * new state, and decides the frame: the caption opacity and table offset
     * always; the layout, header, rows and table opacity only when the state
     * changed or the window was resized; the mask opacity only on a change.
     */
    method Update(trigger: Trigger, change: Option<StateChange<TableState>>, env: Viewport,
                  columns: seq<string>, rows: seq<seq<string>>)
      returns (frame: TableFrame)
      requires Valid() && env.visibleHeight > 0.0 && |columns| > 0 && |rows| > 0
      modifies this
      ensures Valid()
      ensures state == if change.Some? then change.value.to else old(state)
      ensures frame.captionOpacity == CaptionOpacity(env.visibleHeight, env.scrollY)
      ensures frame.tableTop == Dims(env.orientation).top * env.visibleHeight
      ensures frame.layout.Some? <==> change.Some? || trigger == Resize
      ensures frame.tableOpacity == if frame.layout.Some? then Some(if state == Off then 0.0 else 1.0) else None
      ensures frame.maskOpacity == if change.Some? then Some(if state == Off then 0.0 else 1.0) else None
      ensures frame.layout.Some? ==>
        && frame.layout.value == Layout(env, |columns|, |rows|)
        && frame.header == RowCells(columns, -1, frame.layout.value, env)
        && |frame.rows| == |rows|
        && (forall r :: 0 <= r < |rows| ==> frame.rows[r] == RowCells(rows[r], r, frame.layout.value, env))
        && (forall r, i :: 0 <= r < |rows| && 0 <= i < |rows[r]| && i <= 1 ==>
              HasDatum(MaskTexts(masks, r), rows[r][i]))
        && (forall r :: 0 <= r < |rows| ==>
              MaskTexts(masks, r) == RowMaskTexts(MaskTexts(old(masks), r), rows[r], r, frame.layout.value, |rows[r]|))
      ensures forall r :: !(0 <= r < |rows|) ==> MaskTexts(masks, r) == MaskTexts(old(masks), r)
      ensures frame.layout.None? ==> masks == old(masks)
    {
      if change.Some? {
        state := change.value.to;
      }
      var captionOpacity := CaptionOpacity(env.visibleHeight, env.scrollY);
      var tableTop := Dims(env.orientation).top * env.visibleHeight;
      var layout: Option<PosParams> := None;
      var header: seq<Cell> := [];
      var drawn: seq<seq<Cell>> := [];
      var tableOpacity: Option<real> := None;
      if change.Some? || trigger == Resize {
        var p := Layout(env, |columns|, |rows|);
        layout := Some(p);
        header := DrawRow(columns, -1, p, env);
        var r := 0;
        while r < |rows|
          invariant 0 <= r <= |rows| && |drawn| == r
          invariant Valid() && state == (if change.Some? then change.value.to else old(state))
          invariant forall q :: 0 <= q < r ==> drawn[q] == RowCells(rows[q], q, p, env)
          invariant forall q, i :: 0 <= q < r && 0 <= i < |rows[q]| && i <= 1 ==>
                      HasDatum(MaskTexts(masks, q), rows[q][i])
          invariant forall q :: 0 <= q < r ==>
                      MaskTexts(masks, q) == RowMaskTexts(MaskTexts(old(masks), q), rows[q], q, p, |rows[q]|)
          invariant forall q :: !(0 <= q < r) ==> MaskTexts(masks, q) == MaskTexts(old(masks), q)
        {
          var cells := DrawRow(rows[r], r, p, env);
          drawn := drawn + [cells];
          r := r + 1;
        }
        tableOpacity := Some(if state == Off then 0.0 else 1.0);
      }
      var maskOpacity: Option<real> := if change.Some? then Some(if state == Off then 0.0 else 1.0) else None;
      frame := TableFrame(captionOpacity, tableTop, layout, header, drawn, tableOpacity, maskOpacity);
    }
  }

  /** moveTextMask leaves every other row's mask texts as they were. */
  lemma OtherRowsKept(before: seq<Mask>, after: seq<Mask>, row: int)
    requires |after| >= |before|
    requires forall a, b :: 0 <= a < b < |after| ==> after[a].row != after[b].row
    requires forall k :: 0 <= k < |before| ==> after[k].row == before[k].row
    requires forall k :: 0 <= k < |before| && before[k].row != row ==> after[k] == before[k]
    requires forall k :: |before| <= k < |after| ==> after[k].row == row
    ensures forall r :: r != row ==> MaskTexts(after, r) == MaskTexts(before, r)
  {
    forall r | r != row
      ensures MaskTexts(after, r) == MaskTexts(before, r)
    {
      if HasMask(before, r) {
        var k :| 0 <= k < |before| && before[k].row == r;
        MaskTextsAt(after, k);
        assert forall a, b :: 0 <= a < b < |before| ==> before[a].row != before[b].row by {
          forall a, b | 0 <= a < b < |before| ensures before[a].row != before[b].row {
            assert after[a].row != after[b].row;
          }
        }
        MaskTextsAt(before, k);
      } else {
        MaskTextsAbsent(before, r);
        assert !HasMask(after, r);
        MaskTextsAbsent(after, r);
      }
    }
  }
}
