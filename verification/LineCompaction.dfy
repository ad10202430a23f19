/** Preparing a styled line for reading on the phone (apps/mobile/src/features/session/terminalPresentation.ts):
    positional gaps are squeezed and the remaining cells are coded as runs again. */
module LineCompaction {
  import opened Sequences
  import opened StyledLines

  const MAX_READING_INDENT := 4
  const POSITIONAL_GAP := 4

  predicate Blank(cell: Run) {
    cell.t == " "
  }

  // ---- The compacted line -----------------------------------------------------------------

  /** The number of blank cells the line begins with. */
  function Blanks(cells: Line): (n: nat)
    ensures n <= |cells|
  {
    if cells != [] && Blank(cells[0]) then 1 + Blanks(cells[1..]) else 0
  }

  predicate AllBlank(cells: Line) {
    forall k :: 0 <= k < |cells| ==> Blank(cells[k])
  }

  lemma {:induction false} BlanksInFront(cells: Line)
    ensures AllBlank(cells[..Blanks(cells)])
    ensures Blanks(cells) < |cells| ==> !Blank(cells[Blanks(cells)])
  {
    if cells != [] && Blank(cells[0]) {
      BlanksInFront(cells[1..]);
      assert cells[..Blanks(cells)] == [cells[0]] + cells[1..][..Blanks(cells[1..])];
    }
  }

  function Trimmed(cells: Line): (r: Line)
    ensures r == [] || !Blank(r[|r| - 1])
  {
    if cells != [] && Blank(cells[|cells| - 1]) then Trimmed(cells[..|cells| - 1]) else cells
  }

  /** What remains of a gap of `n` blanks with a cell on each side. */
  function Gap(n: nat): nat {
    if n >= POSITIONAL_GAP then 1 else n
  }

  /** Squeezes every gap that has a cell after it. */
  function Squeezed(cells: Line): Line
    decreases |cells|
  {
    if cells == [] then []
    else if !Blank(cells[0]) then [cells[0]] + Squeezed(cells[1..])
    else
      var n := Blanks(cells);
      cells[..if n < |cells| then Gap(n) else n] + Squeezed(cells[n..])
  }

  /** The blanks in front that stay: the last ones. */
  function Indent(cells: Line): Line {
    LastN(MAX_READING_INDENT, cells[..Blanks(cells)])
  }

  function Compact(cells: Line): Line {
    var trimmed := Trimmed(cells);
    Indent(trimmed) + Squeezed(trimmed[Blanks(trimmed)..])
  }

  /** The cells that are not blank, in order. */
  function Inked(cells: Line): Line {
    if cells == [] then [] else (if Blank(cells[0]) then [] else [cells[0]]) + Inked(cells[1..])
  }

  lemma {:induction false} InkedAppend(a: Line, b: Line)
    ensures Inked(a + b) == Inked(a) + Inked(b)
  {
    if a == [] {
      assert a + b == b;
    } else {
      assert (a + b)[1..] == a[1..] + b;
      InkedAppend(a[1..], b);
    }
  }

  lemma {:induction false} BlanksAreNotInked(cells: Line)
    requires AllBlank(cells)
    ensures Inked(cells) == []
  {
    if cells != [] {
      BlanksAreNotInked(cells[1..]);
    }
  }

  lemma {:induction false} SqueezingKeepsInk(cells: Line)
    ensures Inked(Squeezed(cells)) == Inked(cells)
    decreases |cells|
  {
    if cells != [] {
      if !Blank(cells[0]) {
        SqueezingKeepsInk(cells[1..]);
        assert Squeezed(cells)[1..] == Squeezed(cells[1..]);
      } else {
        var n := Blanks(cells);
        BlanksInFront(cells);
        var gap := cells[..if n < |cells| then Gap(n) else n];
        SqueezingKeepsInk(cells[n..]);
        BlanksAreNotInked(gap);
        BlanksAreNotInked(cells[..n]);
        InkedAppend(gap, Squeezed(cells[n..]));
        InkedAppend(cells[..n], cells[n..]);
        assert cells == cells[..n] + cells[n..];
      }
    }
  }

  lemma {:induction false} TrimmingKeepsInk(cells: Line)
    ensures Inked(Trimmed(cells)) == Inked(cells)
  {
    if cells != [] && Blank(cells[|cells| - 1]) {
      var front := cells[..|cells| - 1];
      TrimmingKeepsInk(front);
      InkedAppend(front, [cells[|cells| - 1]]);
      assert cells == front + [cells[|cells| - 1]];
    }
  }

  /** Compaction drops blanks only: every other cell keeps its place in the order, with its style. */
  lemma CompactingKeepsInk(cells: Line)
    ensures Inked(Compact(cells)) == Inked(cells)
  {
    hide Squeezed, Blanks, Trimmed, Inked;
    var trimmed := Trimmed(cells);
    var n := Blanks(trimmed);
    var indent := Indent(trimmed);
    BlanksInFront(trimmed);
    TrimmingKeepsInk(cells);
    SqueezingKeepsInk(trimmed[n..]);
    BlanksAreNotInked(indent);
    BlanksAreNotInked(trimmed[..n]);
    InkedAppend(indent, Squeezed(trimmed[n..]));
    InkedAppend(trimmed[..n], trimmed[n..]);
    assert trimmed == trimmed[..n] + trimmed[n..];
  }

  // ---- Compacting twice -------------------------------------------------------------------

  lemma {:induction false} BlanksOf(gap: Line, rest: Line)
    requires AllBlank(gap)
    requires rest == [] || !Blank(rest[0])
    ensures Blanks(gap + rest) == |gap|
  {
    if gap == [] {
      assert gap + rest == rest;
    } else {
      assert (gap + rest)[1..] == gap[1..] + rest;
      BlanksOf(gap[1..], rest);
    }
  }

  /** What squeezing leaves at both ends. */
  lemma {:induction false} SqueezedEnds(cells: Line)
    ensures Squeezed(cells) == [] <==> cells == []
    ensures cells != [] ==> Squeezed(cells)[0] == cells[0]
    ensures cells != [] && !Blank(cells[|cells| - 1]) ==>
              Squeezed(cells)[|Squeezed(cells)| - 1] == cells[|cells| - 1]
    decreases |cells|
  {
    hide Blanks, Squeezed;
    if cells == [] {
      NothingToSqueeze();
    } else {
      SqueezedByCases(cells);
      var n := if Blank(cells[0]) then Blanks(cells) else 1;
      SqueezedEnds(cells[n..]);
      if n == |cells| {
        NothingToSqueeze();
      } else {
        assert cells[n..][|cells| - n - 1] == cells[|cells| - 1];
      }
    }
  }

  lemma {:induction false} SqueezingTwice(cells: Line)
    ensures Squeezed(Squeezed(cells)) == Squeezed(cells)
    decreases |cells|
  {
    if cells != [] {
      if !Blank(cells[0]) {
        SqueezingTwice(cells[1..]);
        assert Squeezed(cells)[1..] == Squeezed(cells[1..]);
      } else {
        var n := Blanks(cells);
        BlanksInFront(cells);
        var gap, rest := cells[..if n < |cells| then Gap(n) else n], Squeezed(cells[n..]);
        SqueezingTwice(cells[n..]);
        SqueezedEnds(cells[n..]);
        BlanksOf(gap, rest);
        assert (gap + rest)[|gap|..] == rest && (gap + rest)[..|gap|] == gap;
      }
    }
  }

  /** The parts of a compacted line are the parts it was made of. */
  lemma CompactParts(cells: Line)
    ensures
      var trimmed, compact := Trimmed(cells), Compact(cells);
      var n := |Indent(trimmed)|;
      && n <= MAX_READING_INDENT
      && Trimmed(compact) == compact && Blanks(compact) == n && Indent(compact) == Indent(trimmed)
      && compact[n..] == Squeezed(trimmed[Blanks(trimmed)..])
  {
    hide Squeezed, Blanks, Trimmed;
    var trimmed := Trimmed(cells);
    var body := trimmed[Blanks(trimmed)..];
    var indent, rest := Indent(trimmed), Squeezed(body);
    BlanksInFront(trimmed);
    assert AllBlank(indent);
    SqueezedEnds(body);
    BlanksOf(indent, rest);
    Parts(indent, rest);
    if trimmed != [] {
      InkRemains(trimmed);
      assert body[|body| - 1] == trimmed[|trimmed| - 1];
    }
    TrimmedAlready(indent + rest);
  }

  lemma InkRemains(cells: Line)
    requires cells != [] && !Blank(cells[|cells| - 1])
    ensures Blanks(cells) < |cells|
  {
    hide Blanks;
    BlanksInFront(cells);
    assert cells[..|cells|] == cells;
  }

  lemma Parts(a: Line, b: Line)
    ensures (a + b)[..|a|] == a && (a + b)[|a|..] == b
  {
  }

  lemma TrimmedAlready(cells: Line)
    requires cells == [] || !Blank(cells[|cells| - 1])
    ensures Trimmed(cells) == cells
  {
  }

  /** A compacted line is compact. */
  lemma CompactingTwice(cells: Line)
    ensures Compact(Compact(cells)) == Compact(cells)
  {
    hide Squeezed, Blanks, Trimmed, Indent;
    CompactParts(cells);
    SqueezingTwice(Trimmed(cells)[Blanks(Trimmed(cells))..]);
  }

  /** How wide the gaps are: none at the end, at most four cells in front, fewer than four anywhere else. */
  predicate IsCompact(cells: Line) {
    && (cells != [] ==> !Blank(cells[|cells| - 1]))
    && Blanks(cells) <= MAX_READING_INDENT
    && GapsBelow(cells[Blanks(cells)..])
  }

  predicate GapsBelow(cells: Line)
    decreases |cells|
  {
    cells == [] ||
    if !Blank(cells[0]) then GapsBelow(cells[1..])
    else Blanks(cells) < POSITIONAL_GAP && GapsBelow(cells[Blanks(cells)..])
  }

  lemma {:induction false} SqueezedGaps(cells: Line)
    requires cells != [] ==> !Blank(cells[|cells| - 1])
    ensures GapsBelow(Squeezed(cells))
    decreases |cells|
  {
    if cells != [] {
      if !Blank(cells[0]) {
        SqueezedGaps(cells[1..]);
        assert Squeezed(cells)[1..] == Squeezed(cells[1..]);
      } else {
        var n := Blanks(cells);
        BlanksInFront(cells);
        var gap, rest := cells[..if n < |cells| then Gap(n) else n], Squeezed(cells[n..]);
        SqueezedGaps(cells[n..]);
        SqueezedEnds(cells[n..]);
        BlanksOf(gap, rest);
        assert (gap + rest)[|gap|..] == rest;
      }
    }
  }

  lemma {:induction false} SqueezedAlready(cells: Line)
    requires GapsBelow(cells)
    ensures Squeezed(cells) == cells
    decreases |cells|
  {
    if cells != [] {
      if !Blank(cells[0]) {
        SqueezedAlready(cells[1..]);
      } else {
        SqueezedAlready(cells[Blanks(cells)..]);
      }
    }
  }

  /** The lines compaction leaves alone are exactly the compact ones, and those are the ones it makes. */
  lemma CompactIff(cells: Line)
    ensures IsCompact(Compact(cells))
    ensures IsCompact(cells) <==> Compact(cells) == cells
  {
    hide Squeezed, Blanks, GapsBelow;
    var trimmed := Trimmed(cells);
    CompactParts(cells);
    BlanksInFront(trimmed);
    SqueezedGaps(trimmed[Blanks(trimmed)..]);
    if IsCompact(cells) {
      SqueezedAlready(cells[Blanks(cells)..]);
    }
  }

  // ---- What becomes of every gap ----------------------------------------------------------

  /** The blanks in front of every other cell, and those behind the last. */
  function Gaps(cells: Line): (gaps: seq<Line>)
    ensures |gaps| == |Inked(cells)| + 1
  {
    if cells == [] then [[]]
    else if Blank(cells[0]) then
      var gaps := Gaps(cells[1..]);
      [[cells[0]] + gaps[0]] + gaps[1..]
    else [[]] + Gaps(cells[1..])
  }

  /** A wide gap keeps its first blank. */
  function Squeeze(gap: Line): Line {
    if |gap| >= POSITIONAL_GAP then gap[..1] else gap
  }

  /** Ink and gaps make the line. */
  lemma {:induction false} InkAndGapsTell(a: Line, b: Line)
    requires Inked(a) == Inked(b) && Gaps(a) == Gaps(b)
    ensures a == b
  {
    if a != [] && b != [] {
      FirstCell(a);
      FirstCell(b);
      assert a[0] == b[0];
      assert Inked(a[1..]) == Inked(b[1..]) && Gaps(a[1..]) == Gaps(b[1..]);
      InkAndGapsTell(a[1..], b[1..]);
      assert a == [a[0]] + a[1..] && b == [b[0]] + b[1..];
    } else if a != [] {
      FirstCell(a);
    } else if b != [] {
      FirstCell(b);
    }
  }

  lemma FirstCell(a: Line)
    requires a != []
    ensures Blank(a[0]) <==> Gaps(a)[0] != []
    ensures Blank(a[0]) ==>
      && Gaps(a)[0][0] == a[0] && Gaps(a[1..]) == [Gaps(a)[0][1..]] + Gaps(a)[1..] && Inked(a[1..]) == Inked(a)
    ensures !Blank(a[0]) ==> Gaps(a[1..]) == Gaps(a)[1..] && Inked(a)[0] == a[0] && Inked(a[1..]) == Inked(a)[1..]
  {
  }

  /** Where two lines meet the last gap of the one and the first of the other make one. */
  function Joined(front: seq<Line>, back: seq<Line>): seq<Line>
    requires front != [] && back != []
  {
    front[..|front| - 1] + [front[|front| - 1] + back[0]] + back[1..]
  }

  lemma GapsOneMore(cell: Run, rest: Line)
    ensures Gaps([cell] + rest) == if Blank(cell) then [[cell] + Gaps(rest)[0]] + Gaps(rest)[1..] else [[]] + Gaps(rest)
  {
    assert ([cell] + rest)[1..] == rest;
  }

  lemma {:induction false} GapsAppend(a: Line, b: Line)
    ensures Gaps(a + b) == Joined(Gaps(a), Gaps(b))
  {
    hide Gaps;
    if a == [] {
      assert a + b == b && [] + Gaps(b)[0] == Gaps(b)[0];
      NoGaps();
    } else {
      assert a + b == [a[0]] + (a[1..] + b) && a == [a[0]] + a[1..];
      GapsOneMore(a[0], a[1..] + b);
      GapsOneMore(a[0], a[1..]);
      GapsAppend(a[1..], b);
      JoinedOneMore(a[0], Gaps(a[1..]), Gaps(b));
    }
  }

  lemma NoGaps()
    ensures Gaps([]) == [[]]
  {
  }

  lemma JoinedOneMore(cell: Run, front: seq<Line>, back: seq<Line>)
    requires front != [] && back != []
    ensures Joined([[]] + front, back) == [[]] + Joined(front, back)
    ensures Joined([[cell] + front[0]] + front[1..], back) == [[cell] + Joined(front, back)[0]] + Joined(front, back)[1..]
  {
    assert ([cell] + front[0]) + back[0] == [cell] + (front[0] + back[0]);
  }

  lemma {:induction false} GapsOfGap(gap: Line)
    requires AllBlank(gap)
    ensures Gaps(gap) == [gap]
  {
    if gap != [] {
      GapsOfGap(gap[1..]);
      assert gap == [gap[0]] + gap[1..];
      assert Gaps(gap)[1..] == [];
    }
  }

  lemma GapInFront(gap: Line, rest: Line)
    requires AllBlank(gap)
    ensures Gaps(gap + rest) == [gap + Gaps(rest)[0]] + Gaps(rest)[1..]
  {
    hide Gaps;
    GapsAppend(gap, rest);
    GapsOfGap(gap);
  }

  /** Trimming empties the last gap. */
  lemma {:induction false} TrimmedGaps(cells: Line)
    ensures
      var k := |Gaps(cells)| - 1;
      Gaps(Trimmed(cells)) == Gaps(cells)[..k] + [[]]
  {
    if cells != [] && Blank(cells[|cells| - 1]) {
      var front, last := cells[..|cells| - 1], [cells[|cells| - 1]];
      assert cells == front + last;
      hide Gaps;
      GapsAppend(front, last);
      GapsOfGap(last);
      TrimmedGaps(front);
    } else {
      NoGapAtTheEnd(cells);
    }
  }

  lemma {:induction false} NoGapAtTheEnd(cells: Line)
    requires cells == [] || !Blank(cells[|cells| - 1])
    ensures Gaps(cells)[|Gaps(cells)| - 1] == []
  {
    if |cells| > 1 {
      NoGapAtTheEnd(cells[1..]);
    }
  }

  /** Squeezing squeezes every gap of a line that ends in ink. */
  lemma {:induction false} SqueezedGapByGap(cells: Line)
    requires cells != [] ==> !Blank(cells[|cells| - 1])
    ensures |Gaps(Squeezed(cells))| == |Gaps(cells)|
    ensures forall i :: 0 <= i < |Gaps(cells)| ==> Gaps(Squeezed(cells))[i] == Squeeze(Gaps(cells)[i])
    decreases |cells|
  {
    hide Squeezed, Blanks, Inked, Gaps, Squeeze;
    if cells == [] {
      NothingToSqueeze();
      NoGaps();
      NarrowGap([]);
    } else if !Blank(cells[0]) {
      SqueezedByCases(cells);
      SqueezedGapByGap(cells[1..]);
      GapsOneMore(cells[0], cells[1..]);
      GapsOneMore(cells[0], Squeezed(cells[1..]));
      NarrowGap([]);
      assert cells == [cells[0]] + cells[1..];
    } else {
      var rest := cells[Blanks(cells)..];
      SqueezedByCases(cells);
      GapsAroundInk(cells);
      SqueezedGapByGap(rest);
    }
  }

  lemma GapsAroundInk(cells: Line)
    requires cells != [] && Blank(cells[0]) && !Blank(cells[|cells| - 1])
    ensures
      var n := Blanks(cells);
      var gap, rest := cells[..n], cells[n..];
      && rest != [] && !Blank(rest[|rest| - 1])
      && Gaps(cells) == [gap] + Gaps(rest)[1..] && Gaps(Squeezed(cells)) == [Squeeze(gap)] + Gaps(Squeezed(rest))[1..]
      && Gaps(rest)[0] == [] && Gaps(Squeezed(rest))[0] == []
  {
    hide Squeezed, Blanks, Inked, Gaps, Squeeze;
    var n := Blanks(cells);
    var gap, rest := cells[..n], cells[n..];
    SqueezedByCases(cells);
    InkRemains(cells);
    NarrowGap(gap);
    assert cells[..Gap(n)] == gap[..Gap(n)];
    assert cells == gap + rest;
    BlanksInFront(cells);
    SqueezedEnds(rest);
    InkBegins(rest);
    InkBegins(Squeezed(rest));
    GapInFront(gap, rest);
    GapInFront(Squeeze(gap), Squeezed(rest));
    assert gap + [] == gap && Squeeze(gap) + [] == Squeeze(gap);
  }

  lemma NarrowGap(gap: Line)
    ensures Squeeze(gap) == gap[..Gap(|gap|)]
    ensures gap == [] ==> Squeeze(gap) == []
  {
  }

  lemma InkBegins(cells: Line)
    requires cells != [] && !Blank(cells[0])
    ensures Gaps(cells)[0] == [] && |Gaps(cells)| > 1
  {
  }

  lemma IndentIsBlank(cells: Line)
    ensures AllBlank(Indent(cells))
  {
    BlanksInFront(cells);
  }

  lemma TrimmedGapByGap(trimmed: Line)
    requires trimmed != [] && !Blank(trimmed[|trimmed| - 1])
    ensures
      var before, after := Gaps(trimmed), Gaps(Indent(trimmed) + Squeezed(trimmed[Blanks(trimmed)..]));
      && |after| == |before| > 1
      && after[0] == LastN(MAX_READING_INDENT, before[0])
      && forall i :: 0 < i < |before| ==> after[i] == Squeeze(before[i])
  {
    hide Squeezed, Blanks, Inked, Gaps, Squeeze, LastN;
    var n := Blanks(trimmed);
    var front, body := trimmed[..n], trimmed[n..];
    BlanksInFront(trimmed);
    assert trimmed == front + body;
    InkRemains(trimmed);
    assert body[|body| - 1] == trimmed[|trimmed| - 1];
    SqueezedEnds(body);
    InkBegins(body);
    InkBegins(Squeezed(body));
    SqueezedGapByGap(body);
    GapInFront(front, body);
    IndentIsBlank(trimmed);
    GapInFront(Indent(trimmed), Squeezed(body));
    assert front + [] == front && Indent(trimmed) + [] == Indent(trimmed);
  }

  /** What compaction does to a line, gap by gap: the blanks behind its last cell go, of those in front of its first cell
      the last four stay, and between two cells a gap of four or more keeps its first blank and a narrower one stays as
      it is. Nothing is left of a line of blanks. */
  lemma CompactGapByGap(cells: Line)
    ensures Inked(cells) == [] ==> Compact(cells) == []
    ensures
      var before, after := Gaps(cells), Gaps(Compact(cells));
      var last := |before| - 1;
      last > 0 ==>
        && |after| == |before|
        && after[0] == LastN(MAX_READING_INDENT, before[0]) && after[last] == []
        && forall i :: 0 < i < last ==> after[i] == if |before[i]| >= POSITIONAL_GAP then before[i][..1] else before[i]
  {
    hide Squeezed, Blanks, Trimmed, Inked, Gaps, Indent;
    var trimmed := Trimmed(cells);
    TrimmedGaps(cells);
    TrimmingKeepsInk(cells);
    if trimmed == [] {
      NoIndent();
      NothingToSqueeze();
      NothingInked();
    } else {
      InkCounts(trimmed);
      TrimmedGapByGap(trimmed);
    }
  }

  lemma NoIndent()
    ensures Indent([]) == []
  {
  }

  lemma NothingInked()
    ensures Inked([]) == []
  {
  }

  lemma InkCounts(cells: Line)
    requires cells != [] && !Blank(cells[|cells| - 1])
    ensures Inked(cells) != []
  {
    hide Inked, Blank;
    var front, last := cells[..|cells| - 1], [cells[|cells| - 1]];
    InkedAppend(front, last);
    OneCellOfInk(cells[|cells| - 1]);
    assert cells == front + last;
  }

  lemma OneCellOfInk(cell: Run)
    requires !Blank(cell)
    ensures Inked([cell]) == [cell]
  {
    assert [cell][1..] == [];
  }

  // ---- The method -------------------------------------------------------------------------

  method CompactCells(line: Line) returns (compacted: Line)
    ensures compacted == Compact(line)
  {
    hide Squeezed, Blanks, Indent;
    var cells := line;
    while cells != [] && cells[|cells| - 1].t == " "
      invariant Trimmed(cells) == Trimmed(line)
      decreases |cells|
    {
      cells := cells[..|cells| - 1];
    }
    var leading := CountBlanks(cells, 0);
    ghost var trimmed := cells;
    assert trimmed[0..] == trimmed;
    if leading > MAX_READING_INDENT {
      cells := cells[leading - MAX_READING_INDENT..];
    }
    IndentStays(trimmed);
    compacted := SqueezeGaps(cells);
  }

  /** Cutting the front of the indent leaves the rest of the line where it was. */
  lemma IndentStays(trimmed: Line)
    ensures
      var leading := Blanks(trimmed);
      var cells := if leading > MAX_READING_INDENT then trimmed[leading - MAX_READING_INDENT..] else trimmed;
      cells[..Blanks(cells)] == Indent(trimmed) && cells[Blanks(cells)..] == trimmed[leading..]
  {
    var leading := Blanks(trimmed);
    var cells := if leading > MAX_READING_INDENT then trimmed[leading - MAX_READING_INDENT..] else trimmed;
    BlanksInFront(trimmed);
    assert cells == Indent(trimmed) + trimmed[leading..];
    BlanksOf(Indent(trimmed), trimmed[leading..]);
  }

  /** Everything but the gap in front is squeezed. */
  method SqueezeGaps(cells: Line) returns (compacted: Line)
    ensures compacted == cells[..Blanks(cells)] + Squeezed(cells[Blanks(cells)..])
  {
    hide Squeezed, Blanks, Gap;
    compacted := [];
    var index := 0;
    ghost var whole := cells[..Blanks(cells)] + Squeezed(cells[Blanks(cells)..]);
    while index < |cells|
      invariant 0 <= index <= |cells|
      invariant index == 0 ==> compacted == []
      invariant index > 0 ==> compacted + Squeezed(cells[index..]) == whole
      decreases |cells| - index
    {
      assert cells[0..] == cells;
      if cells[index].t != " " {
        SqueezedAtInk(cells, index);
        assert index == 0 ==> whole == Squeezed(cells[0..]);
        compacted := compacted + [cells[index]];
        index := index + 1;
      } else {
        SqueezedAtGap(cells, index);
        var end := CountBlanks(cells, index);
        var positional := index > 0 && end < |cells| && end - index >= POSITIONAL_GAP;
        if positional {
          compacted := compacted + [cells[index]];
        } else {
          compacted := compacted + cells[index..end];
        }
        index := end;
      }
    }
    assert cells[index..] == [];
    NothingToSqueeze();
  }

  lemma NothingToSqueeze()
    ensures Squeezed([]) == [] && Blanks([]) == 0
  {
  }

  lemma SqueezedAtInk(cells: Line, k: nat)
    requires k < |cells| && !Blank(cells[k])
    ensures Blanks(cells[k..]) == 0 && Squeezed(cells[k..]) == [cells[k]] + Squeezed(cells[k + 1..])
  {
    hide Squeezed, Blanks;
    SqueezedByCases(cells[k..]);
    assert cells[k..][1..] == cells[k + 1..];
  }

  lemma SqueezedAtGap(cells: Line, k: nat)
    requires k < |cells| && Blank(cells[k])
    ensures
      var end := k + Blanks(cells[k..]);
      && k < end
      && Squeezed(cells[k..]) ==
         (if end < |cells| && end - k >= POSITIONAL_GAP then [cells[k]] else cells[k..end]) + Squeezed(cells[end..])
  {
    hide Squeezed, Blanks;
    var rest := cells[k..];
    SqueezedByCases(rest);
    var n := Blanks(rest);
    assert rest[..1] == [cells[k]];
    assert rest[n..] == cells[k + n..] && rest[..n] == cells[k..k + n];
  }

  lemma SqueezedByCases(rest: Line)
    requires rest != []
    ensures !Blank(rest[0]) ==> Blanks(rest) == 0 && Squeezed(rest) == [rest[0]] + Squeezed(rest[1..])
    ensures Blank(rest[0]) ==>
      var n := Blanks(rest);
      n > 0 && Squeezed(rest) == rest[..if n < |rest| then Gap(n) else n] + Squeezed(rest[n..])
  {
  }

  /** The end of the blanks that begin at `start`. */
  method CountBlanks(cells: Line, start: nat) returns (end: nat)
    requires start <= |cells|
    ensures end == start + Blanks(cells[start..])
  {
    end := start;
    while end < |cells| && cells[end].t == " "
      invariant start <= end <= |cells| && start + Blanks(cells[start..]) == end + Blanks(cells[end..])
    {
      assert cells[end..][1..] == cells[end + 1..];
      end := end + 1;
    }
  }

  // ---- Presenting a line ------------------------------------------------------------------

  predicate Invisible(c: char) {
    var n := c as int;
    || n <= 0x08 || n in {0x0B, 0x0C, 0x7F, 0x2060, 0xFEFF}
    || 0x0E <= n <= 0x1F || 0x200B <= n <= 0x200D
  }

  function Clean(c: char): string {
    if c as int == 0xA0 then " "
    else if c == '\t' then "  "
    else if Invisible(c) then ""
    else [c]
  }

  function CleanText(text: string): string {
    if text == "" then "" else Clean(text[0]) + CleanText(text[1..])
  }

  function Count(text: string, c: char): nat {
    if text == "" then 0 else (if text[0] == c then 1 else 0) + Count(text[1..], c)
  }

  /** The characters that are neither blanks nor control, zero-width or byte-order marks. */
  function Marks(text: string): string {
    if text == "" then ""
    else
      var n := text[0] as int;
      (if n <= 0x09 || 0x0b <= n <= 0x0c || 0x0e <= n <= 0x20 || n == 0x7f || n == 0xa0 || 0x200b <= n <= 0x200d
          || n == 0x2060 || n == 0xfeff then "" else [text[0]]) + Marks(text[1..])
  }

  lemma {:induction false} CountAppend(a: string, b: string, c: char)
    ensures Count(a + b, c) == Count(a, c) + Count(b, c)
  {
    if a == "" {
      assert a + b == b;
    } else {
      assert (a + b)[1..] == a[1..] + b;
      CountAppend(a[1..], b, c);
    }
  }

  lemma {:induction false} MarksAppend(a: string, b: string)
    ensures Marks(a + b) == Marks(a) + Marks(b)
  {
    if a == "" {
      assert a + b == b;
    } else {
      assert (a + b)[1..] == a[1..] + b;
      MarksAppend(a[1..], b);
    }
  }

  lemma CleaningOne(c: char)
    ensures Marks(Clean(c)) == Marks([c])
    ensures |Clean(c)| == |Marks([c])| + Count(Clean(c), ' ')
    ensures Count(Clean(c), ' ') == Count([c], ' ') + Count([c], 0xa0 as char) + 2 * Count([c], '\t')
  {
    assert [c][1..] == "";
    assert "  "[1..] == " " && " "[1..] == "";
  }

  /** Cleaning leaves marks and blanks only, all marks in their order, a blank for every blank and every no-break space,
      and two for every tab. */
  lemma {:induction false} CleaningKeepsMarks(text: string)
    ensures Marks(CleanText(text)) == Marks(text)
    ensures |CleanText(text)| == |Marks(text)| + Count(CleanText(text), ' ')
    ensures Count(CleanText(text), ' ') == Count(text, ' ') + Count(text, 0xa0 as char) + 2 * Count(text, '\t')
  {
    if text != "" {
      hide Clean, Marks, Count;
      var first, rest := [text[0]], text[1..];
      assert text == first + rest;
      CleaningKeepsMarks(rest);
      CleaningOne(text[0]);
      MarksAppend(first, rest);
      MarksAppend(Clean(text[0]), CleanText(rest));
      CountAppend(Clean(text[0]), CleanText(rest), ' ');
      CountAppend(first, rest, ' ');
      CountAppend(first, rest, 0xa0 as char);
      CountAppend(first, rest, '\t');
    }
  }

  function CellsOf(text: string, style: Style): Line {
    seq(|text|, i requires 0 <= i < |text| => Run([text[i]], style))
  }

  function LineCells(line: Line): Line {
    if line == [] then [] else CellsOf(CleanText(line[0].t), line[0].style) + LineCells(line[1..])
  }

  function Presented(line: Line): Line {
    RunsOf(Compact(LineCells(line)))
  }

  /** Cells of one character each, which cleaning leaves alone. */
  predicate CleanCells(cells: Line) {
    forall k :: 0 <= k < |cells| ==> |cells[k].t| == 1 && Clean(cells[k].t[0]) == cells[k].t
  }

  predicate CleanString(text: string) {
    forall k :: 0 <= k < |text| ==> Clean(text[k]) == [text[k]]
  }

  lemma {:induction false} CleaningCleans(text: string)
    ensures CleanString(CleanText(text))
  {
    if text != "" {
      CleaningCleans(text[1..]);
    }
  }

  lemma {:induction false} LineCellsAreClean(line: Line)
    ensures CleanCells(LineCells(line))
  {
    if line != [] {
      LineCellsAreClean(line[1..]);
      CleaningCleans(line[0].t);
    }
  }

  lemma {:induction false} SqueezingKeepsClean(cells: Line)
    requires CleanCells(cells)
    ensures CleanCells(Squeezed(cells))
    decreases |cells|
  {
    if cells != [] {
      SqueezingKeepsClean(cells[if Blank(cells[0]) then Blanks(cells) else 1..]);
    }
  }

  lemma {:induction false} TrimmingKeepsClean(cells: Line)
    requires CleanCells(cells)
    ensures CleanCells(Trimmed(cells))
  {
    if cells != [] && Blank(cells[|cells| - 1]) {
      TrimmingKeepsClean(cells[..|cells| - 1]);
    }
  }

  lemma CompactingKeepsClean(cells: Line)
    requires CleanCells(cells)
    ensures CleanCells(Compact(cells))
  {
    hide Squeezed, Clean, Trimmed;
    var trimmed := Trimmed(cells);
    TrimmingKeepsClean(cells);
    SqueezingKeepsClean(trimmed[Blanks(trimmed)..]);
  }

  lemma {:induction false} LineCellsAppend(a: Line, b: Line)
    ensures LineCells(a + b) == LineCells(a) + LineCells(b)
  {
    hide CellsOf, CleanText;
    if a == [] {
      assert a + b == b;
    } else {
      assert (a + b)[1..] == a[1..] + b;
      LineCellsAppend(a[1..], b);
      Associative(CellsOf(CleanText(a[0].t), a[0].style), LineCells(a[1..]), LineCells(b));
    }
  }

  lemma {:induction false} CleanTextAppend(a: string, b: string)
    ensures CleanText(a + b) == CleanText(a) + CleanText(b)
  {
    if a == "" {
      assert a + b == b;
    } else {
      assert (a + b)[1..] == a[1..] + b;
      CleanTextAppend(a[1..], b);
      Associative(Clean(a[0]), CleanText(a[1..]), CleanText(b));
    }
  }

  lemma LineCellsOne(run: Run)
    ensures LineCells([run]) == CellsOf(CleanText(run.t), run.style)
  {
    assert LineCells([run]) == CellsOf(CleanText(run.t), run.style) + LineCells([]);
  }

  lemma CleanCell(cell: Run)
    requires CleanCells([cell])
    ensures LineCells([cell]) == [cell]
  {
    assert [cell][0] == cell;
    LineCellsOne(cell);
    assert CleanText(cell.t) == Clean(cell.t[0]) + CleanText(cell.t[1..]);
  }

  lemma PushAddsCell(runs: Line, cell: Run)
    requires CleanCells([cell])
    ensures LineCells(Push(runs, cell)) == LineCells(runs) + [cell]
  {
    hide LineCells, CleanText, CleanCells;
    CleanCell(cell);
    LineCellsAppend(runs, [cell]);
    if runs != [] {
      var front, last := runs[..|runs| - 1], runs[|runs| - 1];
      assert runs == front + [last];
      var merged := Run(last.t + cell.t, cell.style);
      LineCellsAppend(front, [last]);
      LineCellsAppend(front, [merged]);
      LineCellsOne(last);
      LineCellsOne(merged);
      LineCellsOne(cell);
      CleanTextAppend(last.t, cell.t);
      assert CellsOf(CleanText(last.t) + CleanText(cell.t), cell.style)
          == CellsOf(CleanText(last.t), cell.style) + CellsOf(CleanText(cell.t), cell.style);
    }
  }

  /** Runs fall apart into the cells they were made of. */
  lemma {:induction false} RunsFallApart(cells: Line)
    requires CleanCells(cells)
    ensures LineCells(RunsOf(cells)) == cells
  {
    hide CleanCells, Push;
    if cells != [] {
      var front, last := cells[..|cells| - 1], cells[|cells| - 1];
      assert cells == front + [last];
      assert [last][0] == cells[|cells| - 1];
      CleanParts(cells);
      RunsFallApart(front);
      PushAddsCell(RunsOf(front), last);
      RunsOfOneMore(front, last);
    } else {
      assert RunsOf(cells) == [];
      assert LineCells([]) == [];
    }
  }

  lemma CleanParts(cells: Line)
    requires CleanCells(cells) && cells != []
    ensures CleanCells(cells[..|cells| - 1]) && CleanCells([cells[|cells| - 1]])
  {
  }

  /** A presented line presents itself. */
  lemma PresentingTwice(line: Line)
    ensures Presented(Presented(line)) == Presented(line)
  {
    hide Compact, LineCells, RunsOf;
    var cells := LineCells(line);
    LineCellsAreClean(line);
    CompactingKeepsClean(cells);
    RunsFallApart(Compact(cells));
    CompactingTwice(cells);
  }
}
