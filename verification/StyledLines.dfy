/** Styled lines: run-length coding of styled characters, as the desktop's `render_line`
    (apps/desktop/cucoudle_desktop/render.py) and the phone's `cellsToRuns`
    (apps/mobile/src/features/session/terminalPresentation.ts) both do it. */
module StyledLines {
  import opened Options
  import opened Sequences

  datatype Style = Style(fg: Option<string>, bg: Option<string>, b: bool, i: bool, u: bool, d: bool)

  const PLAIN := Style(None, None, false, false, false, false)

  /** A stretch of text in one style; a cell is a run of one character. */
  datatype Run = Run(t: string, style: Style)

  type Line = seq<Run>

  datatype Glyph = Glyph(c: char, style: Style)

  function Glyphs(t: string, style: Style): (g: seq<Glyph>)
    ensures |g| == |t|
  {
    seq(|t|, i requires 0 <= i < |t| => Glyph(t[i], style))
  }

  /** What a line shows, character by character. */
  function Expand(line: Line): seq<Glyph> {
    if line == [] then [] else Glyphs(line[0].t, line[0].style) + Expand(line[1..])
  }

  function Push(runs: Line, cell: Run): Line {
    if runs != [] && runs[|runs| - 1].style == cell.style then
      runs[..|runs| - 1] + [Run(runs[|runs| - 1].t + cell.t, cell.style)]
    else
      runs + [cell]
  }

  function RunsOf(cells: Line): Line {
    if cells == [] then [] else Push(RunsOf(cells[..|cells| - 1]), cells[|cells| - 1])
  }

  /** No empty run, and no two neighbours in the same style. */
  predicate Canonical(line: Line) {
    && (forall k :: 0 <= k < |line| ==> line[k].t != "")
    && (forall k :: 0 < k < |line| ==> line[k - 1].style != line[k].style)
  }

  predicate NoEmptyCell(cells: Line) {
    forall k :: 0 <= k < |cells| ==> cells[k].t != ""
  }

  lemma {:induction false} ExpandAppend(a: Line, b: Line)
    ensures Expand(a + b) == Expand(a) + Expand(b)
  {
    if a == [] {
      assert a + b == b;
    } else {
      assert (a + b)[1..] == a[1..] + b;
      ExpandAppend(a[1..], b);
      Associative(Glyphs(a[0].t, a[0].style), Expand(a[1..]), Expand(b));
    }
  }

  lemma ExpandOne(run: Run)
    ensures Expand([run]) == Glyphs(run.t, run.style)
  {
    assert Expand([run]) == Glyphs(run.t, run.style) + Expand([]);
  }

  lemma PushExpands(runs: Line, cell: Run)
    ensures Expand(Push(runs, cell)) == Expand(runs) + Expand([cell])
  {
    hide Expand;
    if runs != [] && runs[|runs| - 1].style == cell.style {
      var front, last := runs[..|runs| - 1], runs[|runs| - 1];
      var merged := Run(last.t + cell.t, cell.style);
      assert runs == front + [last];
      ExpandAppend(front, [last]);
      ExpandAppend(front, [merged]);
      ExpandOne(last);
      ExpandOne(cell);
      ExpandOne(merged);
      assert Glyphs(merged.t, merged.style) == Glyphs(last.t, last.style) + Glyphs(cell.t, cell.style);
      Associative(Expand(front), Expand([last]), Expand([cell]));
    } else {
      ExpandAppend(runs, [cell]);
    }
  }

  /** The runs show exactly what the cells show. */
  lemma {:induction false} RunsShowTheirCells(cells: Line)
    ensures Expand(RunsOf(cells)) == Expand(cells)
  {
    hide Expand, Push;
    if cells != [] {
      var front, last := cells[..|cells| - 1], cells[|cells| - 1];
      RunsShowTheirCells(front);
      PushExpands(RunsOf(front), last);
      ExpandAppend(front, [last]);
      assert cells == front + [last];
    }
  }

  lemma {:induction false} RunsAreCanonical(cells: Line)
    requires NoEmptyCell(cells)
    ensures Canonical(RunsOf(cells))
  {
    if cells != [] {
      RunsAreCanonical(cells[..|cells| - 1]);
    }
  }

  /** A line has only one canonical form. */
  lemma {:induction false} CanonicalFormIsUnique(a: Line, b: Line)
    requires Canonical(a) && Canonical(b) && Expand(a) == Expand(b)
    ensures a == b
  {
    if a != [] { FirstRunEnds(a); }
    if b != [] { FirstRunEnds(b); }
    if a != [] && b != [] {
      var n := |a[0].t|;
      assert a[0].t == b[0].t && a[0].style == b[0].style by {
        FirstRunsReachEquallyFar(a, b);
        SameGlyphs(a[0].t, a[0].style, b[0].t, b[0].style);
      }
      assert Expand(a[1..]) == Expand(a)[n..] == Expand(b)[n..] == Expand(b[1..]);
      CanonicalFormIsUnique(a[1..], b[1..]);
      assert a == [a[0]] + a[1..] && b == [b[0]] + b[1..];
    }
  }

  lemma FirstRunsReachEquallyFar(a: Line, b: Line)
    requires Canonical(a) && Canonical(b) && Expand(a) == Expand(b) && a != [] && b != []
    ensures |a[0].t| == |b[0].t| && a[0].style == b[0].style
  {
    hide Expand;
    FirstRunEnds(a);
    FirstRunEnds(b);
    var n, m := |a[0].t|, |b[0].t|;
    assert Expand(a)[0].style == Expand(b)[0].style;
  }

  lemma SameGlyphs(t: string, style: Style, u: string, other: Style)
    requires Glyphs(t, style) == Glyphs(u, other)
    ensures t == u
  {
    forall k | 0 <= k < |t| ensures t[k] == u[k] {
      assert Glyphs(t, style)[k] == Glyphs(u, other)[k];
    }
  }

  /** The first run of a canonical line reaches exactly as far as its style. */
  lemma FirstRunEnds(a: Line)
    requires Canonical(a) && a != []
    ensures
      var n := |a[0].t|;
      && 0 < n <= |Expand(a)| && Expand(a)[..n] == Glyphs(a[0].t, a[0].style)
      && (forall k :: 0 <= k < n ==> Expand(a)[k].style == a[0].style)
      && (n < |Expand(a)| ==> Expand(a)[n].style != a[0].style)
  {
    if |a| > 1 {
      assert Expand(a[1..])[0] == Glyph(a[1].t[0], a[1].style);
    }
  }

  lemma RunsOfOneMore(front: Line, cell: Run)
    ensures RunsOf(front + [cell]) == Push(RunsOf(front), cell)
  {
    assert (front + [cell])[..|front|] == front;
  }

  method CellsToRuns(cells: Line) returns (runs: Line)
    ensures runs == RunsOf(cells)
  {
    hide RunsOf;
    runs := [];
    EmptyLine();
    var k := 0;
    while k < |cells|
      invariant 0 <= k <= |cells| && runs == RunsOf(cells[..k])
    {
      var cell := cells[k];
      RunsOfOneMore(cells[..k], cell);
      if runs != [] && runs[|runs| - 1].style == cell.style {
        runs := runs[..|runs| - 1] + [Run(runs[|runs| - 1].t + cell.t, cell.style)];
      } else {
        runs := runs + [cell];
      }
      assert cells[..k + 1] == cells[..k] + [cell];
      k := k + 1;
    }
    assert cells[..k] == cells;
  }

  lemma EmptyLine()
    ensures RunsOf([]) == []
  {
  }

  // ---- A row of the emulator --------------------------------------------------------------

  /** A character of pyte's screen buffer. */
  datatype Char = Char(
    data: string, fg: string, bg: string, bold: bool, italics: bool, underscore: bool, reverse: bool)

  const DEFAULT := "default"

  function Colour(name: string): Option<string> {
    if name != DEFAULT then Some(name) else None
  }

  function StyleOf(cell: Char): Style {
    var fg := if !cell.reverse then cell.fg else if cell.bg != DEFAULT then cell.bg else "black";
    var bg := if !cell.reverse then cell.bg else if cell.fg != DEFAULT then cell.fg else "white";
    Style(Colour(fg), Colour(bg), cell.bold, cell.italics, cell.underscore, false)
  }

  predicate Visible(cell: Char) {
    !AllSpace(cell.data) || cell.bg != DEFAULT || cell.reverse
  }

  predicate VisibleAt(row: map<nat, Char>, x: nat) {
    x in row && Visible(row[x])
  }

  /** One more than the last column that shows anything. */
  function UsedWidth(row: map<nat, Char>, width: nat): (n: nat)
    ensures n <= width
    ensures n > 0 ==> VisibleAt(row, n - 1)
  {
    if width == 0 then 0 else if VisibleAt(row, width - 1) then width else UsedWidth(row, width - 1)
  }

  function CellAt(row: map<nat, Char>, x: nat): (cell: Run)
    ensures cell.t != ""
  {
    Run(if x in row && row[x].data != "" then row[x].data else " ", if x in row then StyleOf(row[x]) else PLAIN)
  }

  function Cells(row: map<nat, Char>, n: nat): (cells: Line)
    ensures NoEmptyCell(cells)
  {
    if n == 0 then [] else Cells(row, n - 1) + [CellAt(row, n - 1)]
  }

  /** Nothing to the right of the used width is visible. */
  lemma {:induction false} RestIsInvisible(row: map<nat, Char>, width: nat, x: nat)
    requires UsedWidth(row, width) <= x < width
    ensures !VisibleAt(row, x)
  {
    if !VisibleAt(row, width - 1) && x < width - 1 {
      RestIsInvisible(row, width - 1, x);
    }
  }

  /** A rendered row is the one canonical line that shows its used cells. */
  lemma RenderedRowIsCanonical(row: map<nat, Char>, width: nat, other: Line)
    ensures var line := RunsOf(Cells(row, UsedWidth(row, width)));
      && Canonical(line) && Expand(line) == Expand(Cells(row, UsedWidth(row, width)))
      && (Canonical(other) && Expand(other) == Expand(line) ==> other == line)
  {
    var cells := Cells(row, UsedWidth(row, width));
    RunsAreCanonical(cells);
    RunsShowTheirCells(cells);
    if Canonical(other) && Expand(other) == Expand(RunsOf(cells)) {
      CanonicalFormIsUnique(other, RunsOf(cells));
    }
  }

  // What a rendered row shows, column by column

  /** A column's own text, a space where it has none. */
  function TextAt(row: map<nat, Char>, x: nat): string {
    if x in row && row[x].data != "" then row[x].data else " "
  }

  /** How many characters the columns in front of `x` show. */
  function Offset(row: map<nat, Char>, x: nat): nat {
    if x == 0 then 0 else Offset(row, x - 1) + |TextAt(row, x - 1)|
  }

  /** A colour is shown by its name, and not at all when it is the default. */
  predicate ShowsColour(shown: Option<string>, name: string) {
    if name == DEFAULT then shown.None? else shown == Some(name)
  }

  /** A cell has its own attributes and colours; reversed, the colours are exchanged, with black and white for the
      defaults. A column without a cell is plain. */
  predicate ShowsStyle(style: Style, row: map<nat, Char>, x: nat) {
    if x !in row then style == Style(None, None, false, false, false, false)
    else
      var cell := row[x];
      && style.b == cell.bold && style.i == cell.italics && style.u == cell.underscore && !style.d
      && (!cell.reverse ==> ShowsColour(style.fg, cell.fg) && ShowsColour(style.bg, cell.bg))
      && (cell.reverse ==>
          && style.fg == Some(if cell.bg == DEFAULT then "black" else cell.bg)
          && style.bg == Some(if cell.fg == DEFAULT then "white" else cell.fg))
  }

  /** From position `at` on the glyphs show column `x`. */
  predicate ShowsColumn(glyphs: seq<Glyph>, at: nat, row: map<nat, Char>, x: nat) {
    var text := TextAt(row, x);
    && at + |text| <= |glyphs|
    && forall k :: at <= k < at + |text| ==> glyphs[k].c == text[k - at] && ShowsStyle(glyphs[k].style, row, x)
  }

  /** A column in which there is something to see: ink, a background or a reversed cell. */
  predicate Inked(row: map<nat, Char>, x: nat) {
    && x in row
    && ((exists i :: 0 <= i < |row[x].data| && !IsSpace(row[x].data[i])) || row[x].bg != DEFAULT || row[x].reverse)
  }

  /** The line shows the columns up to the last one with something to see, side by side, and nothing else. */
  ghost predicate ShowsRow(line: Line, row: map<nat, Char>, width: nat) {
    exists used: nat ::
      && used <= width && (used > 0 ==> Inked(row, used - 1)) && (forall x :: used <= x < width ==> !Inked(row, x))
      && ShowsColumns(Expand(line), row, used)
  }

  predicate ShowsColumns(glyphs: seq<Glyph>, row: map<nat, Char>, used: nat) {
    |glyphs| == Offset(row, used) && forall x :: 0 <= x < used ==> ShowsColumn(glyphs, Offset(row, x), row, x)
  }

  lemma InkedIff(row: map<nat, Char>, x: nat)
    ensures Inked(row, x) <==> VisibleAt(row, x)
  {
  }

  lemma StyleIsShown(row: map<nat, Char>, x: nat)
    ensures ShowsStyle(CellAt(row, x).style, row, x)
  {
    assert |"black"| != |DEFAULT| && |"white"| != |DEFAULT|;
  }

  lemma {:induction false} CellsShowColumns(row: map<nat, Char>, used: nat)
    ensures ShowsColumns(Expand(Cells(row, used)), row, used)
  {
    hide Expand, CellAt, ShowsStyle, ShowsColumn, Glyphs, TextAt;
    if used == 0 {
      EmptyExpansion();
    } else {
      var cells, cell := Cells(row, used - 1), CellAt(row, used - 1);
      var front, last := Expand(cells), Glyphs(cell.t, cell.style);
      CellsShowColumns(row, used - 1);
      ExpandAppend(cells, [cell]);
      ExpandOne(cell);
      CellText(row, used - 1);
      StyleIsShown(row, used - 1);
      LastColumn(front, row, used - 1, cell.style);
      forall x | 0 <= x < used ensures ShowsColumn(front + last, Offset(row, x), row, x) {
        if x < used - 1 {
          ColumnStays(front, last, Offset(row, x), row, x);
        }
      }
    }
  }

  lemma ColumnStays(glyphs: seq<Glyph>, more: seq<Glyph>, at: nat, row: map<nat, Char>, x: nat)
    requires ShowsColumn(glyphs, at, row, x)
    ensures ShowsColumn(glyphs + more, at, row, x)
  {
    hide ShowsStyle, TextAt;
  }

  lemma LastColumn(glyphs: seq<Glyph>, row: map<nat, Char>, x: nat, style: Style)
    requires ShowsStyle(style, row, x)
    ensures ShowsColumn(glyphs + Glyphs(TextAt(row, x), style), |glyphs|, row, x)
  {
    hide ShowsStyle, TextAt;
    var last := Glyphs(TextAt(row, x), style);
    assert forall k :: |glyphs| <= k < |glyphs| + |last| ==> (glyphs + last)[k] == last[k - |glyphs|];
  }

  lemma EmptyExpansion()
    ensures Expand([]) == []
  {
  }

  lemma CellText(row: map<nat, Char>, x: nat)
    ensures CellAt(row, x).t == TextAt(row, x)
  {
  }

  /** A rendered row shows its columns. */
  lemma RenderedRowShowsColumns(row: map<nat, Char>, width: nat)
    ensures ShowsRow(RunsOf(Cells(row, UsedWidth(row, width))), row, width)
  {
    hide Expand, Cells, ShowsColumns, Inked, VisibleAt;
    var used := UsedWidth(row, width);
    RunsShowTheirCells(Cells(row, used));
    CellsShowColumns(row, used);
    forall x: nat ensures Inked(row, x) <==> VisibleAt(row, x) {
      InkedIff(row, x);
    }
    forall x | used <= x < width ensures !Inked(row, x) {
      RestIsInvisible(row, width, x);
    }
  }

  lemma {:induction false} SameColumns(a: seq<Glyph>, b: seq<Glyph>, row: map<nat, Char>, used: nat)
    requires Offset(row, used) <= |a| && Offset(row, used) <= |b|
    requires forall x :: 0 <= x < used ==> ShowsColumn(a, Offset(row, x), row, x) && ShowsColumn(b, Offset(row, x), row, x)
    ensures a[..Offset(row, used)] == b[..Offset(row, used)]
  {
    if used > 0 {
      var x := used - 1;
      SameColumns(a, b, row, x);
      forall k | 0 <= k < Offset(row, used) ensures a[k] == b[k] {
        if k < Offset(row, x) {
          assert a[k] == a[..Offset(row, x)][k] && b[k] == b[..Offset(row, x)][k];
        } else {
          SameColumn(a, b, Offset(row, x), row, x, k);
        }
      }
    }
  }

  lemma SameColumn(a: seq<Glyph>, b: seq<Glyph>, at: nat, row: map<nat, Char>, x: nat, k: nat)
    requires ShowsColumn(a, at, row, x) && ShowsColumn(b, at, row, x) && at <= k < at + |TextAt(row, x)|
    ensures a[k] == b[k]
  {
    assert ShowsStyle(a[k].style, row, x) && ShowsStyle(b[k].style, row, x);
  }

  /** And only one canonical line does. */
  lemma ShownRowIsUnique(a: Line, b: Line, row: map<nat, Char>, width: nat)
    requires ShowsRow(a, row, width) && ShowsRow(b, row, width) && Canonical(a) && Canonical(b)
    ensures a == b
  {
    hide Expand, ShowsColumn, Inked, Canonical;
    var m: nat :| m <= width && (m > 0 ==> Inked(row, m - 1)) && (forall x :: m <= x < width ==> !Inked(row, x)) &&
                  ShowsColumns(Expand(a), row, m);
    var n: nat :| n <= width && (n > 0 ==> Inked(row, n - 1)) && (forall x :: n <= x < width ==> !Inked(row, x)) &&
                  ShowsColumns(Expand(b), row, n);
    assert m == n;
    SameColumns(Expand(a), Expand(b), row, m);
    assert Expand(a)[..|Expand(a)|] == Expand(a) && Expand(b)[..|Expand(b)|] == Expand(b);
    CanonicalFormIsUnique(a, b);
  }

  method RenderLine(row: map<nat, Char>, width: nat) returns (runs: Line)
    ensures runs == RunsOf(Cells(row, UsedWidth(row, width)))
    ensures ShowsRow(runs, row, width) && Canonical(runs)
  {
    hide Visible, Cells, RunsOf;
    var used := 0;
    var x := 0;
    while x < width
      invariant 0 <= x <= width && used == UsedWidth(row, x)
    {
      if x in row && Visible(row[x]) { used := x + 1; }
      x := x + 1;
    }
    runs := RenderCells(row, used);
    RenderedRowShowsColumns(row, width);
    RunsAreCanonical(Cells(row, used));
  }

  method RenderCells(row: map<nat, Char>, used: nat) returns (runs: Line)
    ensures runs == RunsOf(Cells(row, used))
  {
    hide RunsOf, StyleOf;
    runs := [];
    EmptyLine();
    var x := 0;
    while x < used
      invariant 0 <= x <= used && runs == RunsOf(Cells(row, x))
    {
      var data := if x in row && row[x].data != "" then row[x].data else " ";
      var style := if x in row then StyleOf(row[x]) else PLAIN;
      RunsOfOneMore(Cells(row, x), CellAt(row, x));
      if runs != [] && runs[|runs| - 1].style == style {
        runs := runs[..|runs| - 1] + [Run(runs[|runs| - 1].t + data, style)];
      } else {
        runs := runs + [Run(data, style)];
      }
      x := x + 1;
    }
  }
}
