/** The input handling of src/main.rs: the key arms of the main loop, the
    mouse handler with its tab-bar and log-category-bar hit tests, and the
    write-back of the clamped scroll offset after the log view is drawn.

    Each handler is specified by a function from the interface state before
    the event to the state after it. The screen areas come from the layout
    engine and are inputs: the whole terminal, and the content area below the
    three-row tab bar. */
module Input {
  import opened Wrappers
  import opened Num
  import opened Tabs
  import opened AppState
  import opened LogsWidget
  import Logs

  /** Where `End` puts the log offset; drawing clamps it to the last page. */
  const MAX_SCROLL_OFFSET: u16 := 9999
  /** The number of tabs in both bars. */
  const TAB_COUNT: nat := 6
  /** The step of PageUp and PageDown. */
  const PAGE: nat := 10

  datatype Key = Esc | Char(c: char) | Tab | Up | Down | PageUp | PageDown | Home | End | Right | Left | OtherKey

  predicate IsQuitKey(k: Key)
  {
    k == Esc || k == Char('q') || k == Char('Q')
  }

  /** The tab a digit key selects: `1` to `6` are the six tabs in order. */
  function DigitTab(c: char): (r: Option<ActiveTab>)
    ensures r.Some? <==> '1' <= c <= '6'
    ensures r.Some? ==> r.value.Index() == c as int - '1' as int
  {
    if '1' <= c <= '6' then Some(TabAt(c as int - '1' as int)) else None
  }

  /** The offset additions of Down and PageDown stay within `u16`. */
  predicate KeyDefined(s: UiState, k: Key)
  {
    s.activeTab == Logs ==>
      (k == Down ==> s.logsScrollOffset + 1 < U16_LIMIT) && (k == PageDown ==> s.logsScrollOffset + PAGE < U16_LIMIT)
  }

  /** The interface state after one key press. The scrolling keys act only on
      the log tab; Left and Right move the category there and the tab
      elsewhere; a quit key changes nothing (the loop ends). */
  function KeyStep(s: UiState, k: Key): UiState
    requires KeyDefined(s, k)
  {
    var onLogs := s.activeTab == Logs;
    match k
    case Esc => s
    case OtherKey => s
    case Tab => s.(activeTab := s.activeTab.Next())
    case Char(c) =>
      if DigitTab(c).Some? then s.(activeTab := DigitTab(c).value) else s
    case Up =>
      if onLogs && s.logsScrollOffset > 0 then s.(logsScrollOffset := s.logsScrollOffset - 1) else s
    case Down =>
      if onLogs then s.(logsScrollOffset := s.logsScrollOffset + 1) else s
    case PageUp =>
      if onLogs && s.logsScrollOffset >= PAGE then s.(logsScrollOffset := s.logsScrollOffset - PAGE)
      else if onLogs then s.(logsScrollOffset := 0)
      else s
    case PageDown =>
      if onLogs then s.(logsScrollOffset := s.logsScrollOffset + PAGE) else s
    case Home =>
      if onLogs then s.(logsScrollOffset := 0) else s
    case End =>
      if onLogs then s.(logsScrollOffset := MAX_SCROLL_OFFSET) else s
    case Right =>
      if onLogs then s.(activeLogCategory := s.activeLogCategory.Next(), logsScrollOffset := 0)
      else s.(activeTab := s.activeTab.Next())
    case Left =>
      if onLogs then s.(activeLogCategory := s.activeLogCategory.Previous(), logsScrollOffset := 0)
      else s.(activeTab := s.activeTab.Previous())
  }

  /** One key event of the main loop; `quit` when the loop ends. */
  method HandleKey(app: App, k: Key) returns (quit: bool)
    requires KeyDefined(app.Ui(), k)
    modifies app
    ensures quit <==> IsQuitKey(k)
    ensures app.Ui() == KeyStep(old(app.Ui()), k)
  {
    quit := false;
    match k {
      case Esc =>
        quit := true;
      case OtherKey =>
      case Tab =>
        app.NextTab();
      case Char(c) =>
        if c == 'q' || c == 'Q' {
          quit := true;
        } else if c == '1' {
          app.activeTab := Cpu;
        } else if c == '2' {
          app.activeTab := Memory;
        } else if c == '3' {
          app.activeTab := Disk;
        } else if c == '4' {
          app.activeTab := Network;
        } else if c == '5' {
          app.activeTab := ActiveTab.Docker;
        } else if c == '6' {
          app.activeTab := Logs;
        }
      case Up =>
        if app.activeTab == Logs && app.logsScrollOffset > 0 {
          app.logsScrollOffset := app.logsScrollOffset - 1;
        }
      case Down =>
        if app.activeTab == Logs {
          app.logsScrollOffset := app.logsScrollOffset + 1;
        }
      case PageUp =>
        if app.activeTab == Logs && app.logsScrollOffset >= PAGE {
          app.logsScrollOffset := app.logsScrollOffset - PAGE;
        } else if app.activeTab == Logs {
          app.logsScrollOffset := 0;
        }
      case PageDown =>
        if app.activeTab == Logs {
          app.logsScrollOffset := app.logsScrollOffset + PAGE;
        }
      case Home =>
        if app.activeTab == Logs {
          app.logsScrollOffset := 0;
        }
      case End =>
        if app.activeTab == Logs {
          app.logsScrollOffset := MAX_SCROLL_OFFSET;
        }
      case Right =>
        if app.activeTab == Logs {
          app.activeLogCategory := app.activeLogCategory.Next();
          app.logsScrollOffset := 0;
        } else {
          app.NextTab();
        }
      case Left =>
        if app.activeTab == Logs {
          app.activeLogCategory := app.activeLogCategory.Previous();
          app.logsScrollOffset := 0;
        } else {
          app.PreviousTab();
        }
    }
  }

  // ---------------------------------------------------------------- keys

  /** Off the log tab no key touches the offset or the category, and no key
      ever touches the drag flag. */
  lemma KeysOffLogsKeepScroll(s: UiState, k: Key)
    requires KeyDefined(s, k)
    ensures KeyStep(s, k).isDraggingScrollbar == s.isDraggingScrollbar
    ensures s.activeTab != Logs ==>
      KeyStep(s, k).logsScrollOffset == s.logsScrollOffset && KeyStep(s, k).activeLogCategory == s.activeLogCategory
  {
  }

  /** On the log tab, Up, PageUp and Home move towards the top and stop at
      it: never below zero. */
  lemma ScrollUpKeysSaturate(s: UiState)
    requires s.activeTab == Logs
    ensures KeyStep(s, Up) == s.(logsScrollOffset := SatSub(s.logsScrollOffset, 1))
    ensures KeyStep(s, PageUp) == s.(logsScrollOffset := SatSub(s.logsScrollOffset, PAGE))
    ensures KeyStep(s, Home) == s.(logsScrollOffset := 0)
    ensures KeyStep(s, End) == s.(logsScrollOffset := MAX_SCROLL_OFFSET)
  {
  }

  /** Down then Up, and PageDown then PageUp, come back to the same line. */
  lemma ScrollDownUndone(s: UiState)
    requires s.activeTab == Logs && s.logsScrollOffset + PAGE < U16_LIMIT
    ensures KeyStep(KeyStep(s, Down), Up) == s
    ensures KeyStep(KeyStep(s, PageDown), PageUp) == s
  {
  }

  /** Left and Right: the category cycles (back to the top of the log) on the
      log tab, the tab cycles elsewhere. */
  lemma ArrowKeys(s: UiState)
    ensures s.activeTab == Logs ==>
      && KeyStep(s, Right) == s.(activeLogCategory := s.activeLogCategory.Next(), logsScrollOffset := 0)
      && KeyStep(s, Left) == s.(activeLogCategory := s.activeLogCategory.Previous(), logsScrollOffset := 0)
    ensures s.activeTab != Logs ==>
      && KeyStep(s, Right) == s.(activeTab := s.activeTab.Next())
      && KeyStep(s, Left) == s.(activeTab := s.activeTab.Previous())
  {
  }

  /** Right then Left undoes itself, except for the reset of the offset, and
      except from the container tab: Right lands on the log tab, where Left
      moves the category instead of going back. */
  lemma {:induction false} RightLeftRoundTrip(s: UiState)
    ensures s.activeTab == Logs ==> KeyStep(KeyStep(s, Right), Left) == s.(logsScrollOffset := 0)
    ensures s.activeTab != Logs && s.activeTab != ActiveTab.Docker ==> KeyStep(KeyStep(s, Right), Left) == s
    ensures s.activeTab == ActiveTab.Docker ==>
      KeyStep(KeyStep(s, Right), Left) ==
        s.(activeTab := Logs, activeLogCategory := s.activeLogCategory.Previous(), logsScrollOffset := 0)
  {
    TabNextPreviousInverse(s.activeTab);
    CategoryNextPreviousInverse(s.activeLogCategory);
  }

  /** The digit keys select the tabs by position; `Tab` cycles; quitting
      changes nothing. */
  lemma {:induction false} DirectTabKeys(s: UiState, i: nat)
    requires i < TAB_COUNT
    ensures KeyStep(s, Char(('1' as int + i) as char)) == s.(activeTab := TabAt(i))
    ensures KeyStep(s, Tab) == s.(activeTab := s.activeTab.Next())
    ensures KeyStep(s, Esc) == s && KeyStep(s, Char('q')) == s && KeyStep(s, Char('Q')) == s
  {
    var t := DigitTab(('1' as int + i) as char).value;
    TabIndexInjective(t, TabAt(i));
  }

  // ---------------------------------------------------------------- tab bars

  /** The hit test both tab bars share, for a click in the bar's text row:
      inside the side borders the bar is cut into six equal slots of a sixth
      of the inner width; a click past the sixth slot hits nothing. */
  function SlotAt(column: u16, area: Rect): (r: Option<nat>)
    requires SlotDefined(column, area)
    ensures r.Some? ==> r.value < TAB_COUNT
  {
    if column < area.x + 1 || column >= area.x + area.width - 1 then None
    else
      var slotWidth := (area.width - 2) / TAB_COUNT;
      var index := (column - (area.x + 1)) / slotWidth;
      if index < TAB_COUNT then Some(index) else None
  }

  /** A click inside the borders needs a slot at least one column wide, or the
      division fails. */
  predicate SlotDefined(column: u16, area: Rect)
  {
    area.x + 1 <= column < area.x + area.width - 1 ==> (area.width - 2) / TAB_COUNT > 0
  }

  /** `handle_tab_click`: only row 1 of the terminal, the text row of the top
      bar, can hit a tab. */
  function TabClick(column: u16, row: u16, terminal: Rect): Option<nat>
    requires row == 1 ==> SlotDefined(column, terminal)
  {
    if row != 1 then None else SlotAt(column, terminal)
  }

  /** `handle_log_tab_click`: the category bar is the first three rows of the
      content area, and only its middle row can hit a category. */
  function LogTabClick(column: u16, row: u16, content: Rect): Option<nat>
    requires row == content.y + 1 ==> SlotDefined(column, content)
  {
    if row < content.y || row >= content.y + 3 then None
    else if row != content.y + 1 then None
    else SlotAt(column, content)
  }

  /** The hit test in closed form: a click hits slot `i` exactly when it is in
      the text row, strictly inside the borders, and `i` is its distance from
      the left border in slot widths. */
  lemma SlotMeaning(column: u16, area: Rect)
    requires SlotDefined(column, area)
    ensures SlotAt(column, area).Some? <==>
      (area.x + 1 <= column < area.x + area.width - 1 &&
       (column - area.x - 1) / ((area.width - 2) / TAB_COUNT) < TAB_COUNT)
    ensures SlotAt(column, area).Some? ==>
      SlotAt(column, area).value == (column - area.x - 1) / ((area.width - 2) / TAB_COUNT)
  {
  }

  /** Every column of slot `i` hits slot `i`. */
  lemma SlotSpan(column: u16, area: Rect, i: nat)
    requires i < TAB_COUNT && (area.width - 2) / TAB_COUNT > 0
    requires area.x + 1 + i * ((area.width - 2) / TAB_COUNT) <= column < area.x + 1 + (i + 1) * ((area.width - 2) / TAB_COUNT)
    requires column < area.x + area.width - 1
    ensures SlotAt(column, area) == Some(i)
  {
    var w := (area.width - 2) / TAB_COUNT;
    var d := column - area.x - 1;
    assert i * w <= d < i * w + w;
    DivInSlot(d, w, i);
  }

  lemma DivInSlot(d: nat, w: nat, i: nat)
    requires w > 0 && i * w <= d < i * w + w
    ensures d / w == i
  {
    FloorBounds(d, w);
    assert (i + 1) * w == i * w + w;
    MulLtCancel(d / w, i + 1, w);
    MulLtCancel(i, d / w + 1, w);
  }

  lemma MulLtCancel(a: nat, b: nat, w: nat)
    requires a * w < b * w
    ensures a < b
  {
    if a >= b {
      MulMono(b, a, w);
    }
  }

  lemma MulMono(a: nat, b: nat, w: nat)
    requires a <= b
    ensures a * w <= b * w
  {
    var d := b - a;
    assert b * w == a * w + d * w;
  }

  /** Where `ui` draws tab `i` of the top bar: slots of a sixth of the inner
      width less the five separators, each followed by its separator. */
  function DrawnTabStart(terminal: Rect, i: nat): int
  {
    terminal.x + 1 + i * ((terminal.width - 2 - 5) / TAB_COUNT + 1)
  }

  function DrawnTabWidth(terminal: Rect): int
  {
    (terminal.width - 2 - 5) / TAB_COUNT
  }

  /** The hit test and the drawing do not agree on slot widths: on a
      terminal 79 columns wide, column 25 is drawn as part of the second tab
      but selects the third, and column 73, inside the drawn sixth tab,
      selects nothing. */
  lemma ClickAndDrawDisagree(height: u16)
    ensures var t := Rect(0, 0, 79, height);
      && DrawnTabStart(t, 1) <= 25 < DrawnTabStart(t, 1) + DrawnTabWidth(t)
      && TabClick(25, 1, t) == Some(2)
      && DrawnTabStart(t, 5) <= 73 < DrawnTabStart(t, 5) + DrawnTabWidth(t)
      && TabClick(73, 1, t) == None
  {
  }

  // ---------------------------------------------------------------- mouse

  datatype MouseKind = LeftDown | LeftDrag | LeftUp | ScrollUp | ScrollDown | OtherMouse

  datatype MouseEvent = MouseEvent(kind: MouseKind, column: u16, row: u16)

  /** What the mouse handler needs of its event: the two hit tests must not
      divide by zero, and the wheel must not overflow the offset. */
  predicate MouseDefined(s: UiState, e: MouseEvent, terminal: Rect, content: Rect)
  {
    && (e.kind == LeftDown && e.row == 1 ==> SlotDefined(e.column, terminal))
    && (e.kind == LeftDown && s.activeTab == Logs && e.row == content.y + 1 ==> SlotDefined(e.column, content))
    && (e.kind == ScrollDown && s.activeTab == Logs ==> s.logsScrollOffset + 1 < U16_LIMIT)
  }

  /** The interface state after one mouse event, with `total` the number of
      lines of the shown category. A press first tries the top bar, then, on
      the log tab, the category bar and then the scrollbar, which also starts
      a drag; a content click changes nothing. A drag moves the offset only
      while a drag is on, on the log tab; a release ends the drag; the wheel
      scrolls like Up and Down. */
  function MouseStep(s: UiState, e: MouseEvent, terminal: Rect, content: Rect, total: nat): UiState
    requires MouseDefined(s, e, terminal, content)
  {
    var onLogs := s.activeTab == Logs;
    match e.kind
    case LeftDown =>
      if TabClick(e.column, e.row, terminal).Some? then
        s.(activeTab := TabAt(TabClick(e.column, e.row, terminal).value))
      else if !onLogs then s
      else if LogTabClick(e.column, e.row, content).Some? then
        s.(activeLogCategory := CategoryAt(LogTabClick(e.column, e.row, content).value), logsScrollOffset := 0)
      else if ScrollbarClick(content, e.column, e.row, total, s.logsScrollOffset).Some? then
        s.(logsScrollOffset := ScrollbarClick(content, e.column, e.row, total, s.logsScrollOffset).value,
           isDraggingScrollbar := true)
      else s
    case LeftDrag =>
      if onLogs && s.isDraggingScrollbar && ScrollbarDrag(content, e.column, e.row, total).Some? then
        s.(logsScrollOffset := ScrollbarDrag(content, e.column, e.row, total).value)
      else s
    case LeftUp => s.(isDraggingScrollbar := false)
    case ScrollUp =>
      if onLogs && s.logsScrollOffset > 0 then s.(logsScrollOffset := s.logsScrollOffset - 1) else s
    case ScrollDown =>
      if onLogs then s.(logsScrollOffset := s.logsScrollOffset + 1) else s
    case OtherMouse => s
  }

  /** The number of lines the log view of a category shows. */
  function ShownLines(app: App, category: LogCategory): nat
    reads app, app.logs
  {
    |Logs.ViewOf(app.logs.cachedLogs, category)|
  }

  /** `handle_mouse_event` */
  method HandleMouseEvent(app: App, e: MouseEvent, terminal: Rect, content: Rect)
    requires MouseDefined(app.Ui(), e, terminal, content)
    modifies app
    ensures app.Ui() == MouseStep(old(app.Ui()), e, terminal, content, ShownLines(app, old(app.activeLogCategory)))
  {
    match e.kind {
      case LeftDown =>
        var tab := TabClick(e.column, e.row, terminal);
        if tab.Some? {
          app.activeTab := TabAt(tab.value);
          return;
        }
        if app.activeTab == Logs {
          var category := LogTabClick(e.column, e.row, content);
          if category.Some? {
            app.activeLogCategory := CategoryAt(category.value);
            app.logsScrollOffset := 0;
            return;
          }
          var lines := app.logs.GetLogsByCategory(app.activeLogCategory);
          var newOffset := ScrollbarClick(content, e.column, e.row, |lines|, app.logsScrollOffset);
          if newOffset.Some? {
            app.logsScrollOffset := newOffset.value;
            app.isDraggingScrollbar := true;
            return;
          }
          var ignored := ContentClick(content, e.column, e.row, |lines|, app.logsScrollOffset);
        }
      case LeftDrag =>
        if app.activeTab == Logs && app.isDraggingScrollbar {
          var lines := app.logs.GetLogsByCategory(app.activeLogCategory);
          var newOffset := ScrollbarDrag(content, e.column, e.row, |lines|);
          if newOffset.Some? {
            app.logsScrollOffset := newOffset.value;
          }
        }
      case LeftUp =>
        app.isDraggingScrollbar := false;
      case ScrollUp =>
        if app.activeTab == Logs && app.logsScrollOffset > 0 {
          app.logsScrollOffset := app.logsScrollOffset - 1;
        }
      case ScrollDown =>
        if app.activeTab == Logs {
          app.logsScrollOffset := app.logsScrollOffset + 1;
        }
      case OtherMouse =>
    }
  }

  /** A release always ends a drag and changes nothing else. */
  lemma ReleaseEndsDrag(s: UiState, e: MouseEvent, terminal: Rect, content: Rect, total: nat)
    requires e.kind == LeftUp
    ensures MouseStep(s, e, terminal, content, total) == s.(isDraggingScrollbar := false)
  {
  }

  /** Without a drag in progress on the log tab, a drag event changes nothing;
      with one, it changes at most the offset, to the scrollbar's reading. */
  lemma DragNeedsPress(s: UiState, e: MouseEvent, terminal: Rect, content: Rect, total: nat)
    requires e.kind == LeftDrag
    ensures !(s.activeTab == Logs && s.isDraggingScrollbar) ==> MouseStep(s, e, terminal, content, total) == s
    ensures var t := MouseStep(s, e, terminal, content, total);
      && t.activeTab == s.activeTab && t.activeLogCategory == s.activeLogCategory
      && t.isDraggingScrollbar == s.isDraggingScrollbar
      && (ScrollbarDrag(content, e.column, e.row, total).Some? && s.activeTab == Logs && s.isDraggingScrollbar ==>
            t.logsScrollOffset == ScrollbarDrag(content, e.column, e.row, total).value)
  {
  }

  /** The top bar takes precedence: a press on a tab selects it, on any tab,
      and changes nothing else. */
  lemma TabBarFirst(s: UiState, e: MouseEvent, terminal: Rect, content: Rect, total: nat, i: nat)
    requires e.kind == LeftDown && MouseDefined(s, e, terminal, content)
    requires TabClick(e.column, e.row, terminal) == Some(i)
    ensures MouseStep(s, e, terminal, content, total) == s.(activeTab := TabAt(i))
  {
  }

  /** On the log tab, a press on the category bar selects the category and
      goes back to the top of the log. */
  lemma CategoryBarResets(s: UiState, e: MouseEvent, terminal: Rect, content: Rect, total: nat, i: nat)
    requires e.kind == LeftDown && MouseDefined(s, e, terminal, content) && s.activeTab == Logs
    requires TabClick(e.column, e.row, terminal).None?
    requires LogTabClick(e.column, e.row, content) == Some(i)
    ensures MouseStep(s, e, terminal, content, total) ==
      s.(activeLogCategory := CategoryAt(i), logsScrollOffset := 0)
  {
  }

  /** On the log tab, a press outside both bars with lines to show and room
      to show them starts a drag at the scrollbar's reading. */
  lemma PressStartsDrag(s: UiState, e: MouseEvent, terminal: Rect, content: Rect, total: nat)
    requires e.kind == LeftDown && MouseDefined(s, e, terminal, content) && s.activeTab == Logs
    requires TabClick(e.column, e.row, terminal).None? && LogTabClick(e.column, e.row, content).None?
    requires total > 0 && ContentHeight(content) > 0
    ensures MouseStep(s, e, terminal, content, total).isDraggingScrollbar
    ensures MouseStep(s, e, terminal, content, total).logsScrollOffset == ScrollbarDrag(content, e.column, e.row, total).value
  {
  }

  /** The wheel scrolls like the arrow keys: up stops at the top. */
  lemma WheelIsArrows(s: UiState, column: u16, row: u16, terminal: Rect, content: Rect, total: nat)
    requires MouseDefined(s, MouseEvent(ScrollDown, column, row), terminal, content)
    ensures MouseStep(s, MouseEvent(ScrollUp, column, row), terminal, content, total) == KeyStep(s, Up)
    ensures MouseStep(s, MouseEvent(ScrollDown, column, row), terminal, content, total) == KeyStep(s, Down)
  {
  }

  // ---------------------------------------------------------------- drawing

  /** After the log view is drawn, `ui` stores the clamped position back as
      the offset; on other tabs nothing changes. `listHeight` is the height
      of the list area the layout gives. */
  method SyncScroll(app: App, listHeight: u16)
    modifies app`logsScrollOffset
    ensures app.activeTab == Logs ==>
      app.logsScrollOffset == ScrollPosition(old(app.logsScrollOffset), ShownLines(app, app.activeLogCategory), listHeight)
    ensures app.activeTab != Logs ==> app.logsScrollOffset == old(app.logsScrollOffset)
  {
    if app.activeTab == Logs {
      var lines := app.logs.GetLogsByCategory(app.activeLogCategory);
      app.logsScrollOffset := ScrollPosition(app.logsScrollOffset, |lines|, listHeight);
    }
  }

  /** `End` followed by a redraw shows the last page, when the log is not
      longer than the `End` offset plus a page. */
  lemma EndShowsLastPage(s: UiState, total: nat, listHeight: u16)
    requires s.activeTab == Logs
    requires MaxScroll(total, listHeight) <= MAX_SCROLL_OFFSET
    ensures ScrollPosition(KeyStep(s, End).logsScrollOffset, total, listHeight) == MaxScroll(total, listHeight)
  {
  }
}
