/** The layout state of src/Page.cpp: a bounded style stack, a bounded array of widgets (runs
    of text placed on the page), a bounded text buffer collecting the current widget's text,
    and the cursor that places the next widget. The capacities (MAX_PAGE_STYLE_STACK_SIZE,
    MAX_PAGE_WIDGETS, MAX_TEXT_BUFFER_SIZE), the window width and the font metrics come
    from the video driver and headers outside this model, so they are parameters. */
module PageLayout {
  import opened Wrappers
  import DataPack

  datatype WidgetStyle = WidgetStyle(fontStyle: set<DataPack.FontStyleFlag>, fontSize: int, center: bool)

  datatype Widget = Widget(style: WidgetStyle, x: int, y: int, width: int, height: int, text: Option<string>)

  /** The capacities and the window width. */
  datatype Limits = Limits(maxStyles: nat, maxWidgets: nat, maxText: nat, windowWidth: int)

  /** `GetLineHeight` and `GetGlyphWidth(' ', ...)` of the video driver, by font size. */
  datatype Metrics = Metrics(lineHeight: int -> int, spaceWidth: int -> int)

  /** The page as the operations see it: the used part of the style stack, the widgets made
      so far, the current widget and the first widget of the current line (-1 for none),
      the cursor, and the buffered text of the current widget. */
  datatype PageState = PageState(
    styles: seq<WidgetStyle>,
    widgets: seq<Widget>,
    current: int,
    lineStart: int,
    cursorX: int,
    cursorY: int,
    pageHeight: int,
    needLeadingWhiteSpace: bool,
    pendingVerticalPadding: int,
    text: seq<char>)

  /** What every operation keeps: the stack is never empty nor over its capacity, the
      widgets and the buffer stay within theirs, and the indices name existing widgets. */
  predicate Inv(s: PageState, lim: Limits)
  {
    && 1 <= |s.styles| <= lim.maxStyles
    && |s.widgets| <= lim.maxWidgets
    && (s.current == -1 || 0 <= s.current < |s.widgets|)
    && (s.lineStart == -1 || 0 <= s.lineStart < |s.widgets|)
    && |s.text| <= lim.maxText
  }

  /** `Page()`: one regular style of size 1, no widgets, the cursor at the top left. */
  function Initial(): PageState
  {
    PageState([WidgetStyle({}, 1, false)], [], -1, -1, 0, 0, 0, false, 0, [])
  }

  /** `GetStyleStackTop`. */
  function Top(s: PageState): WidgetStyle
    requires |s.styles| >= 1
  {
    s.styles[|s.styles| - 1]
  }

  /** `FinishCurrentWidget`: the current widget takes the buffered text, the cursor moves
      past it, and there is no current widget any more. */
  function FinishedWidget(s: PageState): PageState
    requires s.current == -1 || 0 <= s.current < |s.widgets|
  {
    if s.current == -1 then s
    else
      var w := s.widgets[s.current];
      s.(cursorX := s.cursorX + w.width,
         widgets := s.widgets[s.current := w.(text := Some(s.text))],
         text := [],
         current := -1)
  }

  /** `PushStyle`: only with room on the stack; then the current widget is finished. */
  function Pushed(s: PageState, style: WidgetStyle, lim: Limits): PageState
    requires s.current == -1 || 0 <= s.current < |s.widgets|
  {
    if |s.styles| < lim.maxStyles then FinishedWidget(s.(styles := s.styles + [style])) else s
  }

  /** `PopStyle`: the bottom style is never popped; the current widget is finished either way. */
  function Popped(s: PageState): PageState
    requires s.current == -1 || 0 <= s.current < |s.widgets|
  {
    FinishedWidget(if |s.styles| > 1 then s.(styles := s.styles[..|s.styles| - 1]) else s)
  }

  /** `CreateWidget`: finish the current widget, then start a new one. */
  function Created(s: PageState, lim: Limits, m: Metrics): (PageState, int)
    requires Inv(s, lim)
  {
    Started(if s.current != -1 then FinishedWidget(s) else s, lim, m)
  }

  /** With room, a new empty widget in the top style at the cursor, after the pending
      padding (and a space when asked for and not at the start of the line), which becomes
      current; without, no widget is current and -1 stands for NULL. */
  function Started(t: PageState, lim: Limits, m: Metrics): (PageState, int)
    requires 1 <= |t.styles|
  {
    if |t.widgets| < lim.maxWidgets then
      var idx := |t.widgets|;
      var style := Top(t);
      var x := if t.needLeadingWhiteSpace && t.cursorX > 0 then t.cursorX + m.spaceWidth(style.fontSize) else t.cursorX;
      var y := t.cursorY + t.pendingVerticalPadding;
      var w := Widget(style, x, y, 0, m.lineHeight(style.fontSize), None);
      (t.(widgets := t.widgets + [w], current := idx, cursorX := x, cursorY := y,
          needLeadingWhiteSpace := false, pendingVerticalPadding := 0,
          lineStart := if t.lineStart == -1 then idx else t.lineStart), idx)
    else (t.(current := -1), -1)
  }

  /** The tallest widget from `from` up to `end`, at least 0. */
  function MaxHeight(ws: seq<Widget>, from: int, end: int): int
    requires 0 <= from && end <= |ws|
    decreases end - from
  {
    if end <= from then 0
    else
      var h := MaxHeight(ws, from, end - 1);
      if ws[end - 1].height > h then ws[end - 1].height else h
  }

  /** The furthest right edge of the widgets from `from` up to `end`, at least 0. */
  function MaxRight(ws: seq<Widget>, from: int, end: int): int
    requires 0 <= from && end <= |ws|
    decreases end - from
  {
    if end <= from then 0
    else
      var r := MaxRight(ws, from, end - 1);
      if ws[end - 1].x + ws[end - 1].width > r then ws[end - 1].x + ws[end - 1].width else r
  }

  /** A widget of a finished line moved down so its bottom meets the line's bottom, and
      right by half the free width when its style is centred. */
  function Aligned(w: Widget, lineHeight: int, centerAdjust: int): Widget
  {
    w.(y := w.y + lineHeight - w.height, x := if w.style.center then w.x + centerAdjust else w.x)
  }

  function AlignedFrom(ws: seq<Widget>, from: int, lineHeight: int, centerAdjust: int): seq<Widget>
  {
    seq(|ws|, n requires 0 <= n < |ws| => if n < from then ws[n] else Aligned(ws[n], lineHeight, centerAdjust))
  }

  /** `FinishCurrentLine` (without drawing): finish the widget; if a line is open, align it,
      move the cursor below it and make that the page height; the cursor goes back to the
      left edge in any case. `>> 1` is halving rounded down, which Dafny's `/ 2` is. */
  function FinishedLine(s: PageState, lim: Limits): PageState
    requires Inv(s, lim)
  {
    var t := FinishedWidget(s);
    (if t.lineStart == -1 then t else ClosedLine(t, lim)).(cursorX := 0)
  }

  /** The open line aligned, the cursor below it, and no line open. */
  function ClosedLine(t: PageState, lim: Limits): PageState
    requires 0 <= t.lineStart <= |t.widgets|
  {
    var lineHeight := MaxHeight(t.widgets, t.lineStart, |t.widgets|);
    var lineWidth := MaxRight(t.widgets, t.lineStart, |t.widgets|);
    var centerAdjust := (lim.windowWidth - lineWidth) / 2;
    t.(widgets := AlignedFrom(t.widgets, t.lineStart, lineHeight, centerAdjust),
       cursorY := t.cursorY + lineHeight,
       pageHeight := t.cursorY + lineHeight,
       lineStart := -1)
  }

  /** `BreakLine`: finish the line; the padding before the next one is the larger of the
      pending one and `padding`. */
  function BrokenLine(s: PageState, lim: Limits, padding: int): PageState
    requires Inv(s, lim)
  {
    var t := FinishedLine(s, lim);
    if padding > t.pendingVerticalPadding then t.(pendingVerticalPadding := padding) else t
  }

  /** The text buffer after the guarded appends of `AppendText`: characters that do not fit
      are dropped. */
  function Buffered(text: seq<char>, more: seq<char>, maxText: nat): (r: seq<char>)
    requires |text| <= maxText
    ensures |r| <= maxText
    decreases |more|
  {
    if more == [] then text
    else if |text| < maxText then Buffered(text + [more[0]], more[1..], maxText)
    else Buffered(text, more[1..], maxText)
  }

  // ---------------------------------------------------------------- properties

  /** The line height is that of the tallest widget of the line, or 0 for none. */
  lemma {:induction false} MaxHeightIsMax(ws: seq<Widget>, from: int, end: int)
    requires 0 <= from && end <= |ws|
    ensures var h := MaxHeight(ws, from, end);
      && h >= 0
      && (forall n :: from <= n < end ==> ws[n].height <= h)
      && (h == 0 || exists n :: from <= n < end && ws[n].height == h)
    decreases end - from
  {
    if from < end {
      MaxHeightIsMax(ws, from, end - 1);
    }
  }

  /** The line width is the furthest right edge of the line, or 0 for none. */
  lemma {:induction false} MaxRightIsMax(ws: seq<Widget>, from: int, end: int)
    requires 0 <= from && end <= |ws|
    ensures var r := MaxRight(ws, from, end);
      && r >= 0
      && (forall n :: from <= n < end ==> ws[n].x + ws[n].width <= r)
      && (r == 0 || exists n :: from <= n < end && ws[n].x + ws[n].width == r)
    decreases end - from
  {
    if from < end {
      MaxRightIsMax(ws, from, end - 1);
    }
  }

  lemma FinishedWidgetKeepsInv(s: PageState, lim: Limits)
    requires Inv(s, lim)
    ensures Inv(FinishedWidget(s), lim)
    ensures FinishedWidget(s).current == -1
    ensures s.current != -1 ==> FinishedWidget(s).text == []
    ensures s.current == -1 ==> FinishedWidget(s) == s
  {
  }

  /** The style stack stays within 1 and its capacity, so the top is always there. */
  lemma StyleStackStaysInRange(s: PageState, style: WidgetStyle, lim: Limits)
    requires Inv(s, lim)
    ensures Inv(Pushed(s, style, lim), lim) && Inv(Popped(s), lim)
    ensures |s.styles| < lim.maxStyles ==> Top(Pushed(s, style, lim)) == style
    ensures |s.styles| == lim.maxStyles ==> Pushed(s, style, lim) == s
    ensures |Popped(s).styles| == if |s.styles| > 1 then |s.styles| - 1 else 1
  {
    FinishedWidgetKeepsInv(s, lim);
    if |s.styles| < lim.maxStyles {
      FinishedWidgetKeepsInv(s.(styles := s.styles + [style]), lim);
    }
    if |s.styles| > 1 {
      FinishedWidgetKeepsInv(s.(styles := s.styles[..|s.styles| - 1]), lim);
    }
  }

  /** A pop undoes a push. */
  lemma PopUndoesPush(s: PageState, style: WidgetStyle, lim: Limits)
    requires Inv(s, lim) && |s.styles| < lim.maxStyles
    ensures Popped(Pushed(s, style, lim)).styles == s.styles
  {
    assert (s.styles + [style])[..|s.styles|] == s.styles;
  }

  /** With room, the new widget is the next one, empty, in the top style at the cursor
      after the pending padding, and nothing else is pending; when full, no widget is
      current and the count stays. */
  lemma CreatedWidget(s: PageState, lim: Limits, m: Metrics)
    requires Inv(s, lim)
    ensures var (t, idx) := Created(s, lim, m);
      var f := FinishedWidget(s);
      && Inv(t, lim)
      && (|s.widgets| < lim.maxWidgets ==>
            && idx == |s.widgets| && |t.widgets| == |s.widgets| + 1 && t.current == idx
            && t.widgets[idx].style == Top(s) && t.widgets[idx].width == 0 && t.widgets[idx].text.None?
            && t.widgets[idx].x == t.cursorX && t.widgets[idx].y == t.cursorY
            && t.cursorY == s.cursorY + s.pendingVerticalPadding && t.pendingVerticalPadding == 0
            && t.widgets[..idx] == f.widgets)
      && (|s.widgets| == lim.maxWidgets ==> idx == -1 && t.current == -1 && t.widgets == f.widgets)
  {
    FinishedWidgetKeepsInv(s, lim);
  }

  /** Finishing a line bottom-aligns it: each of its widgets moves down by the line height
      less its own, the line height is that of its tallest widget, widgets of earlier lines
      stay, and the cursor goes below the line, which is where the page now ends. */
  lemma FinishedLineAligns(s: PageState, lim: Limits)
    requires Inv(s, lim) && s.lineStart != -1
    ensures var f := FinishedWidget(s);
      var t := FinishedLine(s, lim);
      var lineHeight := MaxHeight(f.widgets, s.lineStart, |f.widgets|);
      && Inv(t, lim) && t.lineStart == -1 && t.cursorX == 0 && t.current == -1
      && |t.widgets| == |s.widgets|
      && (forall n :: 0 <= n < s.lineStart ==> t.widgets[n] == f.widgets[n])
      && (forall n :: s.lineStart <= n < |s.widgets| ==>
            && t.widgets[n].y == f.widgets[n].y + lineHeight - f.widgets[n].height
            && f.widgets[n].height <= lineHeight
            && t.widgets[n].height == f.widgets[n].height)
      && (lineHeight == 0 || exists n :: s.lineStart <= n < |s.widgets| && f.widgets[n].height == lineHeight)
      && t.cursorY == s.cursorY + lineHeight && t.pageHeight == t.cursorY
  {
    FinishedWidgetKeepsInv(s, lim);
    var f := FinishedWidget(s);
    MaxHeightIsMax(f.widgets, s.lineStart, |f.widgets|);
  }

  /** Widgets placed on one line at the same height end with their bottoms level. */
  lemma SameRowSameBottom(s: PageState, lim: Limits, i: int, j: int)
    requires Inv(s, lim) && s.lineStart != -1
    requires s.lineStart <= i < |s.widgets| && s.lineStart <= j < |s.widgets|
    requires FinishedWidget(s).widgets[i].y == FinishedWidget(s).widgets[j].y
    ensures var t := FinishedLine(s, lim);
      t.widgets[i].y + t.widgets[i].height == t.widgets[j].y + t.widgets[j].height
  {
    FinishedLineAligns(s, lim);
  }

  /** Breaking a line keeps the larger padding. */
  lemma BrokenLinePadding(s: PageState, lim: Limits, padding: int)
    requires Inv(s, lim)
    ensures var t := BrokenLine(s, lim, padding);
      && t.pendingVerticalPadding == (if padding > s.pendingVerticalPadding then padding else s.pendingVerticalPadding)
      && t.cursorX == 0 && t.lineStart == -1 && Inv(t, lim)
  {
    FinishedWidgetKeepsInv(s, lim);
  }

  /** The buffer keeps what it had and takes as much of the new text as fits: it fills up to
      the capacity and never beyond. */
  lemma {:induction false} BufferedIsTruncation(text: seq<char>, more: seq<char>, maxText: nat)
    requires |text| <= maxText
    ensures var n := if |text| + |more| <= maxText then |text| + |more| else maxText;
      Buffered(text, more, maxText) == (text + more)[..n]
    decreases |more|
  {
    if more != [] {
      if |text| < maxText {
        BufferedIsTruncation(text + [more[0]], more[1..], maxText);
        assert text + [more[0]] + more[1..] == text + more;
      } else {
        BufferedIsTruncation(text, more[1..], maxText);
        assert (text + more[1..])[..maxText] == text == (text + more)[..maxText];
      }
    } else {
      assert text + more == text;
    }
  }

  // ---------------------------------------------------------------- the Page object

  class Page {
    const lim: Limits
    const metrics: Metrics
    const styleStack: array<WidgetStyle>
    var styleStackSize: int
    const widgets: array<Widget>
    var numWidgets: int
    var currentWidgetIndex: int
    var currentLineStartWidgetIndex: int
    var cursorX: int
    var cursorY: int
    var pageWidth: int
    var pageHeight: int
    var needLeadingWhiteSpace: bool
    var pendingVerticalPadding: int
    const textBuffer: array<char>
    var textBufferSize: int

    predicate Valid()
      reads this
    {
      && styleStack.Length == lim.maxStyles && widgets.Length == lim.maxWidgets && textBuffer.Length == lim.maxText
      && 1 <= styleStackSize <= lim.maxStyles
      && 0 <= numWidgets <= lim.maxWidgets
      && (currentWidgetIndex == -1 || 0 <= currentWidgetIndex < numWidgets)
      && (currentLineStartWidgetIndex == -1 || 0 <= currentLineStartWidgetIndex < numWidgets)
      && 0 <= textBufferSize <= lim.maxText
    }

    function State(): PageState
      requires Valid()
      reads this, styleStack, widgets, textBuffer
    {
      PageState(styleStack[..styleStackSize], widgets[..numWidgets], currentWidgetIndex,
                currentLineStartWidgetIndex, cursorX, cursorY, pageHeight, needLeadingWhiteSpace,
                pendingVerticalPadding, textBuffer[..textBufferSize])
    }

    lemma StateInv()
      requires Valid()
      ensures Inv(State(), lim)
    {
    }

    constructor (lim: Limits, metrics: Metrics)
      requires lim.maxStyles >= 1
      ensures Valid() && State() == Initial() && pageWidth == lim.windowWidth
      ensures this.lim == lim && this.metrics == metrics
      ensures fresh(styleStack) && fresh(widgets) && fresh(textBuffer)
    {
      this.lim := lim;
      this.metrics := metrics;
      currentLineStartWidgetIndex := -1;
      currentWidgetIndex := -1;
      pageWidth := lim.windowWidth;
      pageHeight := 0;
      numWidgets := 0;
      cursorX := 0;
      cursorY := 0;
      needLeadingWhiteSpace := false;
      pendingVerticalPadding := 0;
      var regular := WidgetStyle({}, 1, false);
      styleStack := new WidgetStyle[lim.maxStyles](_ => regular);
      widgets := new Widget[lim.maxWidgets](_ => Widget(regular, 0, 0, 0, 0, None));
      textBuffer := new char[lim.maxText](_ => ' ');
      textBufferSize := 0;
      styleStackSize := 1;
      new;
      assert styleStack[..1] == [regular];
    }

    function GetStyleStackTop(): (style: WidgetStyle)
      requires Valid()
      reads this, styleStack
      ensures style == Top(State())
    {
      styleStack[styleStackSize - 1]
    }

    method FinishCurrentWidget()
      requires Valid()
      modifies this`cursorX, this`textBufferSize, this`currentWidgetIndex, widgets
      ensures Valid() && State() == FinishedWidget(old(State()))
    {
      if currentWidgetIndex != -1 {
        var current := widgets[currentWidgetIndex];
        cursorX := cursorX + current.width;
        var text := textBuffer[..textBufferSize];
        widgets[currentWidgetIndex] := current.(text := Some(text));
        textBufferSize := 0;
        currentWidgetIndex := -1;
      }
    }

    method PushStyle(style: WidgetStyle)
      requires Valid()
      modifies this`styleStackSize, this`cursorX, this`textBufferSize, this`currentWidgetIndex, styleStack, widgets
      ensures Valid() && State() == Pushed(old(State()), style, lim)
    {
      if styleStackSize < lim.maxStyles {
        styleStack[styleStackSize] := style;
        styleStackSize := styleStackSize + 1;
        FinishCurrentWidget();
      }
    }

    method PopStyle()
      requires Valid()
      modifies this`styleStackSize, this`cursorX, this`textBufferSize, this`currentWidgetIndex, widgets
      ensures Valid() && State() == Popped(old(State()))
    {
      if styleStackSize > 1 {
        styleStackSize := styleStackSize - 1;
      }
      FinishCurrentWidget();
    }

    /** `CreateWidget`; -1 stands for NULL. */
    method CreateWidget() returns (index: int)
      requires Valid()
      modifies this, widgets
      ensures Valid() && (State(), index) == Created(old(State()), lim, metrics)
      ensures pageWidth == old(pageWidth)
    {
      if currentWidgetIndex != -1 {
        FinishCurrentWidget();
      }
      index := StartWidget();
    }

    method StartWidget() returns (index: int)
      requires Valid()
      modifies this, widgets
      ensures Valid() && (State(), index) == Started(old(State()), lim, metrics)
      ensures pageWidth == old(pageWidth)
    {
      if numWidgets < lim.maxWidgets {
        var style := GetStyleStackTop();
        PlaceCursor(style);
        index := AppendWidget(Widget(style, cursorX, cursorY, 0, metrics.lineHeight(style.fontSize), None));
      } else {
        currentWidgetIndex := -1;
        index := -1;
      }
    }

    /** The cursor of a new widget: past a space when one is asked for and the line is not
        empty, and below the pending padding, which is then used up. */
    method PlaceCursor(style: WidgetStyle)
      requires Valid()
      modifies this`cursorX, this`cursorY, this`needLeadingWhiteSpace, this`pendingVerticalPadding
      ensures Valid()
      ensures State() == old(State()).(
        cursorX := if old(needLeadingWhiteSpace) && old(cursorX) > 0 then old(cursorX) + metrics.spaceWidth(style.fontSize) else old(cursorX),
        cursorY := old(cursorY) + old(pendingVerticalPadding),
        needLeadingWhiteSpace := false,
        pendingVerticalPadding := 0)
    {
      if needLeadingWhiteSpace {
        if cursorX > 0 {
          cursorX := cursorX + metrics.spaceWidth(style.fontSize);
        }
        needLeadingWhiteSpace := false;
      }
      cursorY := cursorY + pendingVerticalPadding;
      pendingVerticalPadding := 0;
    }

    /** The new widget goes at the end, becomes current, and opens a line if none is open. */
    method AppendWidget(w: Widget) returns (index: int)
      requires Valid() && numWidgets < lim.maxWidgets
      modifies this`numWidgets, this`currentWidgetIndex, this`currentLineStartWidgetIndex, widgets
      ensures Valid() && index == old(numWidgets)
      ensures State() == old(State()).(widgets := old(State()).widgets + [w], current := index,
                                       lineStart := if old(currentLineStartWidgetIndex) == -1 then index else old(currentLineStartWidgetIndex))
    {
      ghost var before := widgets[..numWidgets];
      widgets[numWidgets] := w;
      assert widgets[..numWidgets + 1] == before + [w];
      index := numWidgets;
      currentWidgetIndex := numWidgets;
      numWidgets := numWidgets + 1;
      if currentLineStartWidgetIndex == -1 {
        currentLineStartWidgetIndex := index;
      }
    }

    /** The first loop of `FinishCurrentLine`: the height and right edge of the line. */
    method MeasureLine(from: int) returns (lineHeight: int, lineWidth: int)
      requires Valid() && 0 <= from <= numWidgets
      ensures lineHeight == MaxHeight(widgets[..numWidgets], from, numWidgets)
      ensures lineWidth == MaxRight(widgets[..numWidgets], from, numWidgets)
    {
      lineHeight := 0;
      lineWidth := 0;
      var n := from;
      while n < numWidgets
        invariant from <= n <= numWidgets
        invariant lineHeight == MaxHeight(widgets[..numWidgets], from, n)
        invariant lineWidth == MaxRight(widgets[..numWidgets], from, n)
      {
        if widgets[n].height > lineHeight {
          lineHeight := widgets[n].height;
        }
        if widgets[n].x + widgets[n].width > lineWidth {
          lineWidth := widgets[n].x + widgets[n].width;
        }
        n := n + 1;
      }
    }

    /** The second loop of `FinishCurrentLine`: align every widget of the line. */
    method AlignLine(from: int, lineHeight: int, centerAdjust: int)
      requires Valid() && 0 <= from <= numWidgets
      modifies widgets
      ensures State() == old(State()).(widgets := AlignedFrom(old(widgets[..numWidgets]), from, lineHeight, centerAdjust))
    {
      var n := from;
      while n < numWidgets
        invariant from <= n <= numWidgets
        invariant forall k :: 0 <= k < numWidgets ==>
          widgets[k] == if from <= k < n then Aligned(old(widgets[k]), lineHeight, centerAdjust) else old(widgets[k])
      {
        widgets[n] := Aligned(widgets[n], lineHeight, centerAdjust);
        n := n + 1;
      }
    }

    method FinishCurrentLine()
      requires Valid()
      modifies this, widgets
      ensures Valid() && State() == FinishedLine(old(State()), lim)
      ensures pageWidth == old(pageWidth)
    {
      FinishCurrentWidget();
      if currentLineStartWidgetIndex != -1 {
        CloseLine();
      }
      cursorX := 0;
    }

    method CloseLine()
      requires Valid() && currentLineStartWidgetIndex != -1
      modifies this`cursorY, this`pageHeight, this`currentLineStartWidgetIndex, widgets
      ensures Valid() && State() == ClosedLine(old(State()), lim)
    {
      var lineHeight, lineWidth := MeasureLine(currentLineStartWidgetIndex);
      var centerAdjust := (lim.windowWidth - lineWidth) / 2;
      AlignLine(currentLineStartWidgetIndex, lineHeight, centerAdjust);
      MoveBelowLine(lineHeight);
    }

    /** The cursor goes below the line, the page ends there, and no line is open. */
    method MoveBelowLine(lineHeight: int)
      requires Valid()
      modifies this`cursorY, this`pageHeight, this`currentLineStartWidgetIndex
      ensures Valid()
      ensures State() == old(State()).(cursorY := old(cursorY) + lineHeight, pageHeight := old(cursorY) + lineHeight, lineStart := -1)
    {
      cursorY := cursorY + lineHeight;
      pageHeight := cursorY;
      currentLineStartWidgetIndex := -1;
    }

    method BreakLine(padding: int)
      requires Valid()
      modifies this, widgets
      ensures Valid() && State() == BrokenLine(old(State()), lim, padding)
      ensures pageWidth == old(pageWidth)
    {
      FinishCurrentLine();
      if padding > pendingVerticalPadding {
        pendingVerticalPadding := padding;
      }
    }

    /** The guarded copy loops of `AppendText`: `text[from..end]` into the buffer, each
        character only while there is room. */
    method BufferText(text: string, from: int, end: int)
      requires Valid() && 0 <= from <= end <= |text|
      modifies this`textBufferSize, textBuffer
      ensures Valid()
      ensures textBuffer[..textBufferSize] == Buffered(old(textBuffer[..textBufferSize]), text[from..end], lim.maxText)
    {
      ghost var start := textBuffer[..textBufferSize];
      var n := from;
      while n < end
        invariant from <= n <= end
        invariant 0 <= textBufferSize <= lim.maxText
        invariant Buffered(textBuffer[..textBufferSize], text[n..end], lim.maxText)
                  == Buffered(start, text[from..end], lim.maxText)
      {
        assert text[n..end][0] == text[n] && text[n..end][1..] == text[n + 1..end];
        ghost var before := textBuffer[..textBufferSize];
        if textBufferSize < lim.maxText {
          textBuffer[textBufferSize] := text[n];
          textBufferSize := textBufferSize + 1;
          assert textBuffer[..textBufferSize] == before + [text[n]];
        }
        n := n + 1;
      }
    }
  }
}
