/** The scroll arithmetic of src/widgets/logs_widget.rs: the clamp applied
    when the log list is drawn, the scrollbar click and drag, the content
    click, and the narrow-terminal branch of line wrapping. The number of log
    lines of the selected category is passed in; the layout engine's areas
    are passed in as rectangles. */
module LogsWidget {
  import opened Wrappers
  import opened Num

  /** A terminal rectangle, as ratatui's `Rect`. */
  datatype Rect = Rect(x: u16, y: u16, width: u16, height: u16)

  /** The indent put in front of every displayed log line. */
  const INDENT: string := "    "

  // ---------------------------------------------------------------- clamp

  /** The largest offset that still fills the list: the line count less the
      lines that fit inside the list's two borders. */
  function MaxScroll(total: nat, listHeight: u16): nat
  {
    SatSub(total, SatSub(listHeight, 2))
  }

  /** The position `render_log_content` scrolls to, and returns as the new
      offset: the requested offset, clamped to the largest useful one. */
  function ScrollPosition(offset: u16, total: nat, listHeight: u16): (r: u16)
    ensures r <= offset && r <= MaxScroll(total, listHeight)
    ensures r == offset || r == MaxScroll(total, listHeight)
  {
    if offset <= MaxScroll(total, listHeight) then offset else MaxScroll(total, listHeight)
  }

  /** The clamp is exactly `min`: an offset in range is kept, one beyond the
      range lands on the last full page. Clamping twice changes nothing. */
  lemma ScrollPositionMeaning(offset: u16, total: nat, listHeight: u16)
    ensures offset <= MaxScroll(total, listHeight) ==> ScrollPosition(offset, total, listHeight) == offset
    ensures offset > MaxScroll(total, listHeight) ==> ScrollPosition(offset, total, listHeight) == MaxScroll(total, listHeight)
    ensures ScrollPosition(ScrollPosition(offset, total, listHeight), total, listHeight) == ScrollPosition(offset, total, listHeight)
  {
  }

  /** The clamped view never leaves an empty tail: from the returned position
      the remaining lines fill the list, or the list shows everything. */
  lemma {:induction false} ScrollPositionFillsView(offset: u16, total: nat, listHeight: u16)
    ensures var p := ScrollPosition(offset, total, listHeight);
      p + SatSub(listHeight, 2) >= total || p == offset
    ensures total <= SatSub(listHeight, 2) ==> ScrollPosition(offset, total, listHeight) == 0
  {
  }

  // ---------------------------------------------------------------- scrollbar

  /** The height of the area inside the list's borders. */
  function ContentHeight(area: Rect): nat
  {
    SatSub(area.height, 2)
  }

  /** The row of the pointer below the top border, zero above it. */
  function ClickRow(area: Rect, row: u16): nat
  {
    SatSub(row, area.y + 1)
  }

  /** `handle_scrollbar_drag`: no offset without lines or without room;
      otherwise the pointer's share of the content height, applied to the
      largest offset, floored and cast to `u16`. The column is not read. */
  function ScrollbarDrag(area: Rect, column: u16, row: u16, total: nat): (r: Option<u16>)
    ensures r.None? <==> total == 0 || ContentHeight(area) == 0
  {
    var contentHeight := ContentHeight(area);
    if total == 0 || contentHeight == 0 then None
    else
      var maxOffset := SatSub(total, contentHeight);
      MulNat(ClickRow(area, row), maxOffset);
      Some(TruncU16(ClickRow(area, row) * maxOffset / contentHeight))
  }

  /** Where the pointer lies on the bar, the offset is the floor of its share
      of the largest offset, so it never passes that offset. */
  lemma DragWithinRange(area: Rect, column: u16, row: u16, total: nat)
    requires total > 0 && ContentHeight(area) > 0
    requires ClickRow(area, row) <= ContentHeight(area)
    requires SatSub(total, ContentHeight(area)) < U16_LIMIT
    ensures var o := ScrollbarDrag(area, column, row, total).value;
      var h := ContentHeight(area);
      var m := SatSub(total, h);
      && o <= m
      && o * h <= ClickRow(area, row) * m < (o + 1) * h
  {
    var h := ContentHeight(area);
    var m := SatSub(total, h);
    var c := ClickRow(area, row);
    MulLe(c, h, m);
    DivBelow(c * m, h * m, h, m);
    FloorBounds(c * m, h);
  }

  lemma FloorBounds(a: nat, h: nat)
    requires h > 0
    ensures (a / h) * h <= a < (a / h + 1) * h
  {
    var q, r := a / h, a % h;
    assert a == q * h + r;
    assert (q + 1) * h == q * h + h;
  }

  lemma MulNat(a: nat, b: nat)
    ensures a * b >= 0
  {
  }

  lemma MulLe(c: nat, h: nat, m: nat)
    requires c <= h
    ensures c * m <= h * m
  {
    var d := h - c;
    assert h * m == c * m + d * m;
  }

  lemma DivBelow(a: nat, b: nat, h: nat, m: nat)
    requires h > 0 && a <= b && b == h * m
    ensures a / h <= m
  {
    FloorBounds(a, h);
  }

  /** The top of the bar, or anything above it, scrolls to the first line. */
  lemma DragAtTop(area: Rect, column: u16, row: u16, total: nat)
    requires total > 0 && ContentHeight(area) > 0
    requires row <= area.y + 1
    ensures ScrollbarDrag(area, column, row, total) == Some(0)
  {
  }

  /** The bottom of the bar scrolls to the largest offset. */
  lemma DragAtBottom(area: Rect, column: u16, row: u16, total: nat)
    requires total > 0 && ContentHeight(area) > 0
    requires row == area.y + 1 + ContentHeight(area)
    requires SatSub(total, ContentHeight(area)) < U16_LIMIT
    ensures ScrollbarDrag(area, column, row, total) == Some(SatSub(total, ContentHeight(area)))
  {
    var h := ContentHeight(area);
    var m := SatSub(total, h);
    assert ClickRow(area, row) == h;
    DivExact(h, m);
  }

  lemma DivExact(h: nat, m: nat)
    requires h > 0
    ensures h * m / h == m
  {
    FloorBounds(h * m, h);
  }

  /** Dragging further down never scrolls up, while the offsets stay in range. */
  lemma DragMonotone(area: Rect, column: u16, row1: u16, row2: u16, total: nat)
    requires total > 0 && ContentHeight(area) > 0
    requires row1 <= row2
    requires ClickRow(area, row2) <= ContentHeight(area)
    requires SatSub(total, ContentHeight(area)) < U16_LIMIT
    ensures ScrollbarDrag(area, column, row1, total).value <= ScrollbarDrag(area, column, row2, total).value
  {
    var h := ContentHeight(area);
    var m := SatSub(total, h);
    var c1, c2 := ClickRow(area, row1), ClickRow(area, row2);
    MulLe(c1, c2, m);
    MulLe(c2, h, m);
    DivMonotone(c1 * m, c2 * m, h);
    DivBelow(c2 * m, h * m, h, m);
  }

  lemma DivMonotone(a: nat, b: nat, h: nat)
    requires h > 0 && a <= b
    ensures a / h <= b / h
  {
    FloorBounds(a, h);
    FloorBounds(b, h);
    if a / h > b / h {
      MulLe(b / h + 1, a / h, h);
    }
  }

  /** `handle_scrollbar_click`: the drag mapping; the current offset is not
      read. */
  function ScrollbarClick(area: Rect, column: u16, row: u16, total: nat, currentOffset: u16): (r: Option<u16>)
    ensures r.None? <==> total == 0 || ContentHeight(area) == 0
  {
    ScrollbarDrag(area, column, row, total)
  }

  /** A click lands where a drag to the same point would, whatever the current
      offset and wherever in the row the click is. */
  lemma ClickIsDrag(area: Rect, column1: u16, column2: u16, row: u16, total: nat, offset1: u16, offset2: u16)
    ensures ScrollbarClick(area, column1, row, total, offset1) == ScrollbarDrag(area, column2, row, total)
    ensures ScrollbarClick(area, column1, row, total, offset1) == ScrollbarClick(area, column2, row, total, offset2)
  {
  }

  // ---------------------------------------------------------------- content

  /** `handle_content_click`: the clicked line is located, but no path yields
      an offset. */
  function ContentClick(area: Rect, column: u16, row: u16, total: nat, currentOffset: u16): (r: Option<u16>)
    ensures r == None
  {
    if column < area.x + 1 || column >= area.x + area.width - 1 then None
    else if row < area.y + 1 || row >= area.y + area.height - 1 then None
    else
      var clickRow := row - area.y - 1;
      var target := currentOffset + clickRow;
      if target >= total then None else None
  }

  // ---------------------------------------------------------------- wrapping

  /** `wrap_log_line`. On a terminal at most eight columns wide the line stays
      whole; wider, the wrapping library's pieces (`pieces`, for the width
      less the indent) are each indented. */
  function WrapLogLine(line: string, width: nat, pieces: seq<string>): (r: seq<string>)
  {
    if width <= 8 then [INDENT + line]
    else seq(|pieces|, i requires 0 <= i < |pieces| => INDENT + pieces[i])
  }

  /** A narrow terminal shows each log line as one indented row. */
  lemma NarrowWrapKeepsLine(line: string, width: nat, pieces: seq<string>)
    requires width <= 8
    ensures |WrapLogLine(line, width, pieces)| == 1
    ensures WrapLogLine(line, width, pieces)[0][..|INDENT|] == INDENT
    ensures WrapLogLine(line, width, pieces)[0][|INDENT|..] == line
  {
  }

  /** Wider, every row is one piece behind the same indent, in order. */
  lemma WideWrapIndents(line: string, width: nat, pieces: seq<string>)
    requires width > 8
    ensures |WrapLogLine(line, width, pieces)| == |pieces|
    ensures forall i :: 0 <= i < |pieces| ==>
      WrapLogLine(line, width, pieces)[i][..|INDENT|] == INDENT && WrapLogLine(line, width, pieces)[i][|INDENT|..] == pieces[i]
  {
  }
}
