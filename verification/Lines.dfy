/** Stored rows.  A terminal's row is stored as text with style runs; what the text alone would lose
    (cells never written, written blanks the text drops) is kept beside it.  `Encode` is the storing
    side (muxd/history.go) and `Items` the reading side (reconnect_pack.go). */
module Lines {
  import opened Common
  import opened Terminal

  /** A style starts at a character of the text. */
  datatype Span = Span(start: nat, style: Style)

  /** Columns [from, to) were never written. */
  datatype Run = Run(from: nat, to: nat)

  datatype Line = Line(text: seq<Glyph>, spans: seq<Span>, wrapped: bool, content: nat, nulls: seq<Run>, cols: nat)

  function TextWidth(text: seq<Glyph>): nat {
    if text == [] then 0 else text[0].Width() + TextWidth(text[1..])
  }

  /** How far the reader of spans gets: past every leading span that starts at or before `off`. */
  function SpansUpTo(spans: seq<Span>, off: nat, n: nat): (m: nat)
    requires n <= |spans|
    ensures n <= m <= |spans|
    ensures forall k :: n <= k < m ==> spans[k].start <= off
    ensures m < |spans| ==> spans[m].start > off
    decreases |spans| - n
  {
    if n < |spans| && spans[n].start <= off then SpansUpTo(spans, off, n + 1) else n
  }

  function StyleBefore(spans: seq<Span>, n: nat): Style
    requires n <= |spans|
  {
    if n == 0 then DEFAULT_STYLE else spans[n - 1].style
  }

  /** The style of the character at `off`. */
  function StyleAt(spans: seq<Span>, off: nat): Style {
    StyleBefore(spans, SpansUpTo(spans, off, 0))
  }

  function RunsUpTo(nulls: seq<Run>, col: nat, n: nat): (m: nat)
    requires n <= |nulls|
    ensures n <= m <= |nulls|
    ensures forall k :: n <= k < m ==> nulls[k].to <= col
    ensures m < |nulls| ==> nulls[m].to > col
    decreases |nulls| - n
  {
    if n < |nulls| && nulls[n].to <= col then RunsUpTo(nulls, col, n + 1) else n
  }

  predicate NullFrom(nulls: seq<Run>, col: nat, n: nat)
    requires n <= |nulls|
  {
    var m := RunsUpTo(nulls, col, n);
    m < |nulls| && nulls[m].from <= col
  }

  /** The column was never written. */
  predicate NullAt(nulls: seq<Run>, col: nat) {
    NullFrom(nulls, col, 0)
  }

  lemma {:induction false} SpansResume(spans: seq<Span>, off: nat, n: nat, m: nat)
    requires n <= m <= |spans|
    requires forall k :: n <= k < m ==> spans[k].start <= off
    ensures SpansUpTo(spans, off, n) == SpansUpTo(spans, off, m)
    decreases m - n
  {
    if n < m {
      SpansResume(spans, off, n + 1, m);
    }
  }

  lemma {:induction false} RunsResume(nulls: seq<Run>, col: nat, n: nat, m: nat)
    requires n <= m <= |nulls|
    requires forall k :: n <= k < m ==> nulls[k].to <= col
    ensures RunsUpTo(nulls, col, n) == RunsUpTo(nulls, col, m)
    decreases m - n
  {
    if n < m {
      RunsResume(nulls, col, n + 1, m);
    }
  }

  /** What the reader returns for one step: a cell nothing was written to, or a character. */
  datatype Item = Blank(style: Style) | Char(glyph: Glyph, style: Style) {
    function Width(): nat {
      if Blank? then 1 else glyph.Width()
    }
  }

  datatype Pos = Pos(off: nat, col: nat)

  /** Columns that hold written cells; a line that records neither extent nor width counts all of it. */
  function ContentOf(ln: Line): nat {
    if ln.content == 0 && ln.cols == 0 then TextWidth(ln.text) else ln.content
  }

  /** One step of reading a stored row on a grid of `cols` columns. */
  function NextItem(ln: Line, cols: nat, p: Pos): Option<(Item, Pos)> {
    if p.off < |ln.text| then
      var g := ln.text[p.off];
      var style := StyleAt(ln.spans, p.off);
      if p.col + g.Width() > cols then None
      else if p.col >= ContentOf(ln) || NullAt(ln.nulls, p.col) then Some((Blank(style), Pos(p.off + 1, p.col + 1)))
      else Some((Char(g, style), Pos(p.off + 1, p.col + g.Width())))
    else if p.col < ContentOf(ln) && p.col < cols then
      Some((if NullAt(ln.nulls, p.col) then Blank(DEFAULT_STYLE) else Char(SPACE, DEFAULT_STYLE), Pos(p.off, p.col + 1)))
    else None
  }

  function ItemsFrom(ln: Line, cols: nat, p: Pos): seq<Item>
    decreases if p.off < |ln.text| then |ln.text| - p.off else 0, if p.col < cols then cols - p.col else 0
  {
    match NextItem(ln, cols, p)
    case None => []
    case Some(n) => [n.0] + ItemsFrom(ln, cols, n.1)
  }

  /** The cells of a stored row, left to right. */
  function Items(ln: Line, cols: nat): seq<Item> {
    ItemsFrom(ln, cols, Pos(0, 0))
  }

  /** A line that records no extent and no width is all text: each character is read as it stands. */
  lemma {:induction false} TextReadWhole(ln: Line, cols: nat, p: Pos)
    requires ln.content == 0 && ln.cols == 0 && ln.nulls == [] && p.off <= |ln.text|
    requires p.col + TextWidth(ln.text[p.off..]) == TextWidth(ln.text) <= cols
    ensures var its := ItemsFrom(ln, cols, p);
            |its| == |ln.text| - p.off && forall i :: 0 <= i < |its| ==> its[i].Char? && its[i].glyph == ln.text[p.off + i]
    decreases |ln.text| - p.off
  {
    if p.off < |ln.text| {
      var g := ln.text[p.off];
      assert ln.text[p.off..][1..] == ln.text[p.off + 1..];
      TextReadWhole(ln, cols, Pos(p.off + 1, p.col + g.Width()));
    } else {
      assert ln.text[p.off..] == [];
    }
  }

  function CellsOf(item: Item): (cs: seq<Cell>)
    ensures |cs| == item.Width()
  {
    match item
    case Blank(s) => [Null(s)]
    case Char(g, s) => if g.wide then [Lead(g, s), Tail(s)] else [Lead(g, s)]
  }

  function Flat(items: seq<Item>): seq<Cell> {
    if items == [] then [] else CellsOf(items[0]) + Flat(items[1..])
  }

  lemma {:induction false} FlatConcat(a: seq<Item>, b: seq<Item>)
    ensures Flat(a + b) == Flat(a) + Flat(b)
  {
    if a == [] {
      assert a + b == b;
    } else {
      FlatConcat(a[1..], b);
      assert (a + b)[1..] == a[1..] + b;
    }
  }

  function Padded(cells: seq<Cell>, cols: nat): seq<Cell> {
    if |cells| >= cols then cells else cells + Blanks(cols - |cells|, Default)
  }

  /** A row whose wide characters are whole. */
  ghost predicate Whole(cells: seq<Cell>) {
    && (forall i :: 0 <= i < |cells| && cells[i].WideLead() ==> i + 1 < |cells| && cells[i + 1] == Tail(cells[i].style))
    && (forall i :: 0 <= i < |cells| && cells[i].Tail? ==> i > 0 && cells[i - 1].WideLead())
  }

  // ---- storing a row (muxd/history.go, appendRow) ----

  predicate Trimmable(c: Cell) {
    c.style == DEFAULT_STYLE && (c.Lead? ==> c.glyph == SPACE)
  }

  /** Where the text of a row ends: unstyled blanks after it are not stored. */
  function TextEnd(cells: seq<Cell>): (end: nat)
    ensures end <= |cells|
    ensures forall i :: end <= i < |cells| ==> Trimmable(cells[i])
    ensures end > 0 ==> !Trimmable(cells[end - 1])
  {
    if cells == [] then 0
    else if Trimmable(cells[|cells| - 1]) then TextEnd(cells[..|cells| - 1])
    else |cells|
  }

  /** The columns up to and including the last written character. */
  function Written(cells: seq<Cell>): (n: nat)
    ensures n > 0 ==> exists i :: 0 <= i < |cells| && cells[i].Lead? && n == i + cells[i].glyph.Width()
    ensures forall i :: 0 <= i < |cells| && cells[i].Lead? ==> i < n
  {
    if cells == [] then 0
    else if cells[|cells| - 1].Lead? then |cells| - 1 + cells[|cells| - 1].glyph.Width()
    else Written(cells[..|cells| - 1])
  }

  function NullsEnd(cells: seq<Cell>, i: nat, lim: nat): (j: nat)
    requires i <= lim <= |cells|
    ensures i <= j <= lim
    ensures forall k :: i <= k < j ==> cells[k].Null?
    ensures j < lim ==> !cells[j].Null?
    decreases lim - i
  {
    if i < lim && cells[i].Null? then NullsEnd(cells, i + 1, lim) else i
  }

  function NullRuns(cells: seq<Cell>, i: nat, lim: nat): seq<Run>
    requires i <= lim <= |cells|
    decreases lim - i
  {
    if i == lim then []
    else if !cells[i].Null? then NullRuns(cells, i + 1, lim)
    else
      var j := NullsEnd(cells, i, lim);
      [Run(i, j)] + NullRuns(cells, j, lim)
  }

  function GlyphOf(c: Cell): Glyph {
    if c.Lead? then c.glyph else SPACE
  }

  function StepWidth(c: Cell): nat {
    if c.WideLead() then 2 else 1
  }

  function TextFrom(cells: seq<Cell>, i: nat, end: nat): seq<Glyph>
    requires end <= |cells|
    decreases if i < end then end - i else 0
  {
    if i >= end then [] else [GlyphOf(cells[i])] + TextFrom(cells, i + StepWidth(cells[i]), end)
  }

  function SpansFrom(cells: seq<Cell>, i: nat, end: nat, prev: Style, n: nat): seq<Span>
    requires end <= |cells|
    decreases if i < end then end - i else 0
  {
    if i >= end then []
    else (if cells[i].style != prev then [Span(n, cells[i].style)] else [])
         + SpansFrom(cells, i + StepWidth(cells[i]), end, cells[i].style, n + 1)
  }

  function Encode(row: Row): Line {
    var end := TextEnd(row.cells);
    var content := Written(row.cells);
    Line(TextFrom(row.cells, 0, end), SpansFrom(row.cells, 0, end, DEFAULT_STYLE, 0), row.wrapped, content,
         NullRuns(row.cells, 0, Min(content, |row.cells|)), |row.cells|)
  }

  function EncodeAll(rows: seq<Row>): (lines: seq<Line>)
    ensures |lines| == |rows|
  {
    seq(|rows|, i requires 0 <= i < |rows| => Encode(rows[i]))
  }

  // ---- reading back what was stored ----

  lemma {:induction false} RunsTellNulls(cells: seq<Cell>, i: nat, lim: nat, col: nat)
    requires i <= col < lim <= |cells|
    ensures NullAt(NullRuns(cells, i, lim), col) <==> cells[col].Null?
    decreases lim - i
  {
    var runs := NullRuns(cells, i, lim);
    if !cells[i].Null? {
      if i < col {
        RunsTellNulls(cells, i + 1, lim, col);
      } else {
        RunsStartAfter(cells, i + 1, lim);
      }
    } else {
      var j := NullsEnd(cells, i, lim);
      if j <= col {
        RunsTellNulls(cells, j, lim, col);
        RunsShift(runs, col);
      }
    }
  }

  lemma RunsStartAfter(cells: seq<Cell>, i: nat, lim: nat)
    requires i <= lim <= |cells|
    ensures var runs := NullRuns(cells, i, lim); |runs| > 0 ==> runs[0].from >= i && runs[0].to > i
    decreases lim - i
  {
  }

  /** A run that ends at or before the column does not count. */
  lemma {:induction false} RunsShift(runs: seq<Run>, col: nat)
    requires |runs| > 0 && runs[0].to <= col
    ensures NullAt(runs, col) == NullAt(runs[1..], col)
  {
    RunsShiftBy(runs, col, 1);
  }

  lemma {:induction false} RunsShiftBy(runs: seq<Run>, col: nat, n: nat)
    requires 1 <= n <= |runs|
    ensures RunsUpTo(runs, col, n) == RunsUpTo(runs[1..], col, n - 1) + 1
    decreases |runs| - n
  {
    if n < |runs| {
      RunsShiftBy(runs, col, n + 1);
    }
  }

  lemma {:induction false} SpansShift(s: Span, spans: seq<Span>, off: nat, n: nat)
    requires n <= |spans|
    ensures SpansUpTo([s] + spans, off, n + 1) == SpansUpTo(spans, off, n) + 1
    decreases |spans| - n
  {
    if n < |spans| {
      SpansShift(s, spans, off, n + 1);
    }
  }

  /** The style a span table gives a character, when `prev` is the style before the table starts. */
  function StyleOr(prev: Style, spans: seq<Span>, off: nat): Style {
    var n := SpansUpTo(spans, off, 0);
    if n == 0 then prev else spans[n - 1].style
  }

  lemma {:induction false} StyleOrCons(prev: Style, s: Span, spans: seq<Span>, off: nat)
    ensures StyleOr(prev, [s] + spans, off) == if s.start <= off then StyleOr(s.style, spans, off) else prev
  {
    SpansShift(s, spans, off, 0);
  }

  lemma {:induction false} SpansStartAt(cells: seq<Cell>, i: nat, end: nat, prev: Style, n: nat)
    requires end <= |cells|
    ensures forall k :: 0 <= k < |SpansFrom(cells, i, end, prev, n)| ==> SpansFrom(cells, i, end, prev, n)[k].start >= n
    decreases if i < end then end - i else 0
  {
    if i < end {
      SpansStartAt(cells, i + StepWidth(cells[i]), end, cells[i].style, n + 1);
    }
  }

  lemma WrittenFits(cells: seq<Cell>)
    requires Whole(cells)
    ensures Written(cells) <= |cells|
  {
  }

  /** What the reader relies on besides the text and its styles. */
  ghost predicate Reads(ln: Line, cells: seq<Cell>) {
    && ContentOf(ln) == Written(cells) <= |cells|
    && forall col :: 0 <= col < Written(cells) ==> (NullAt(ln.nulls, col) <==> cells[col].Null?)
  }

  lemma EncodeReads(row: Row)
    requires Whole(row.cells) && |row.cells| > 0
    ensures Reads(Encode(row), row.cells)
  {
    var cells := row.cells;
    WrittenFits(cells);
    forall col | 0 <= col < Written(cells)
      ensures NullAt(Encode(row).nulls, col) <==> cells[col].Null?
    {
      RunsTellNulls(cells, 0, Written(cells), col);
    }
  }

  /** The stored styles from column `i` on, as the reader will meet them at `off`. */
  ghost predicate Styled(ln: Line, cells: seq<Cell>, i: nat, off: nat, prev: Style) {
    var spans := SpansFrom(cells, i, TextEnd(cells), prev, off);
    forall k :: off <= k < |ln.text| ==> StyleAt(ln.spans, k) == StyleOr(prev, spans, k)
  }

  lemma {:induction false} StyledStep(ln: Line, cells: seq<Cell>, i: nat, off: nat, prev: Style)
    requires i < TextEnd(cells) && off < |ln.text| && Styled(ln, cells, i, off, prev)
    ensures StyleAt(ln.spans, off) == cells[i].style
    ensures Styled(ln, cells, i + StepWidth(cells[i]), off + 1, cells[i].style)
  {
    hide StyleAt, SpansUpTo, TextEnd;
    var next, style := i + StepWidth(cells[i]), cells[i].style;
    var spans := SpansFrom(cells, i, TextEnd(cells), prev, off);
    var rest := SpansFrom(cells, next, TextEnd(cells), style, off + 1);
    forall k | off <= k < |ln.text|
      ensures StyleAt(ln.spans, k) == StyleOr(style, rest, k)
    {
      if style != prev {
        StyleOrCons(prev, Span(off, style), rest, k);
        assert spans == [Span(off, style)] + rest;
      } else {
        assert spans == rest;
      }
    }
    SpansStartAt(cells, next, TextEnd(cells), style, off + 1);
    assert forall k :: 0 <= k < |rest| ==> rest[k].start > off;
    assert SpansUpTo(rest, off, 0) == 0;
  }

  lemma {:induction false} ItemsCons(ln: Line, cells: seq<Cell>, p: Pos, item: Item, next: Pos)
    requires |cells| > 0 && NextItem(ln, |cells|, p) == Some((item, next))
    requires p.col + item.Width() == next.col <= |cells| && CellsOf(item) == cells[p.col..next.col]
    ensures cells[..p.col] + Flat(ItemsFrom(ln, |cells|, p)) == cells[..next.col] + Flat(ItemsFrom(ln, |cells|, next))
  {
    hide NextItem;
    var rest := ItemsFrom(ln, |cells|, next);
    assert ItemsFrom(ln, |cells|, p) == [item] + rest;
    assert Flat([item] + rest) == CellsOf(item) + Flat(rest);
    assert cells[..next.col] == cells[..p.col] + CellsOf(item);
  }

  /** Past the stored text the reader returns the written blanks the text dropped. */
  lemma {:induction false} TrailingItems(ln: Line, cells: seq<Cell>, p: Pos)
    requires Whole(cells) && |cells| > 0 && Reads(ln, cells) && p.off == |ln.text|
    requires p.col <= |cells| && (forall k :: p.col <= k < |cells| ==> Trimmable(cells[k]))
    requires p.col < |cells| ==> !cells[p.col].Tail?
    ensures Padded(cells[..p.col] + Flat(ItemsFrom(ln, |cells|, p)), |cells|) == cells
    decreases |cells| - p.col
  {
    hide NullAt, Written;
    if p.col < ContentOf(ln) {
      var item := if cells[p.col].Null? then Blank(DEFAULT_STYLE) else Char(SPACE, DEFAULT_STYLE);
      var next := Pos(p.off, p.col + 1);
      assert NextItem(ln, |cells|, p) == Some((item, next));
      TrailingCell(cells, p.col);
      hide NextItem, ItemsFrom, Flat, Padded;
      ItemsCons(ln, cells, p, item, next);
      TrailingItems(ln, cells, next);
    } else {
      forall k | p.col <= k < |cells|
        ensures cells[k] == Null(DEFAULT_STYLE)
      {
        assert Trimmable(cells[k]) && !cells[k].Lead?;
        if k > p.col {
          assert Trimmable(cells[k - 1]) && !cells[k - 1].WideLead();
        }
      }
      assert ItemsFrom(ln, |cells|, p) == [];
    }
  }

  /** An unstyled blank: empty, or a space. */
  lemma TrailingCell(cells: seq<Cell>, c: nat)
    requires Whole(cells) && c < |cells| && Trimmable(cells[c]) && !cells[c].Tail?
    ensures var item := if cells[c].Null? then Blank(DEFAULT_STYLE) else Char(SPACE, DEFAULT_STYLE);
            item.Width() == 1 && CellsOf(item) == cells[c..c + 1]
    ensures c + 1 < |cells| ==> !cells[c + 1].Tail?
  {
    hide Whole;
    if c + 1 < |cells| {
      WholeAt(cells, c + 1);
    }
    assert cells[c..c + 1] == [cells[c]];
  }

  /** A stored cell, empty or a whole character, and where the next one begins. */
  lemma WrittenCell(cells: seq<Cell>, c: nat)
    requires Whole(cells) && c < |cells| && !cells[c].Tail?
    ensures var item := if cells[c].Null? then Blank(cells[c].style) else Char(cells[c].glyph, cells[c].style);
            var next := c + StepWidth(cells[c]);
            && next <= |cells| && next == c + item.Width() && CellsOf(item) == cells[c..next]
            && (next < |cells| ==> !cells[next].Tail?)
    ensures cells[c].Lead? ==> c < Written(cells)
  {
    hide Written, Whole;
    var next := c + StepWidth(cells[c]);
    WholeAt(cells, c);
    if next < |cells| {
      WholeAt(cells, next);
    }
    if cells[c].WideLead() {
      assert cells[c..next] == [cells[c], cells[c + 1]];
    } else {
      assert cells[c..next] == [cells[c]];
    }
  }

  lemma WholeAt(cells: seq<Cell>, c: nat)
    requires Whole(cells) && c < |cells|
    ensures cells[c].WideLead() ==> c + 1 < |cells| && cells[c + 1] == Tail(cells[c].style)
    ensures cells[c].Tail? ==> c > 0 && cells[c - 1].WideLead()
  {
  }

  lemma {:induction false} ItemsBack(ln: Line, cells: seq<Cell>, p: Pos, prev: Style)
    requires Whole(cells) && |cells| > 0 && Reads(ln, cells)
    requires p.col <= |cells| && (p.col < |cells| ==> !cells[p.col].Tail?)
    requires p.off <= |ln.text| && ln.text[p.off..] == TextFrom(cells, p.col, TextEnd(cells))
    requires Styled(ln, cells, p.col, p.off, prev)
    ensures Padded(cells[..p.col] + Flat(ItemsFrom(ln, |cells|, p)), |cells|) == cells
    decreases |cells| - p.col
  {
    hide NullAt, Written, Styled, StyleAt, Padded, ItemsFrom, Flat;
    var c, end := p.col, TextEnd(cells);
    if c < end {
      assert |ln.text[p.off..]| > 0;
      assert ln.text[p.off] == ln.text[p.off..][0] == GlyphOf(cells[c]);
      assert ln.text[p.off + 1..] == ln.text[p.off..][1..];
      StyledStep(ln, cells, c, p.off, prev);
      var item := if cells[c].Null? then Blank(cells[c].style) else Char(cells[c].glyph, cells[c].style);
      var next := Pos(p.off + 1, c + StepWidth(cells[c]));
      WrittenCell(cells, c);
      assert NextItem(ln, |cells|, p) == Some((item, next));
      hide NextItem, TextFrom, TextEnd, CellsOf, Reads;
      ItemsCons(ln, cells, p, item, next);
      ItemsBack(ln, cells, next, cells[c].style);
    } else {
      assert |ln.text[p.off..]| == 0;
      TrailingItems(ln, cells, p);
    }
  }

  /** Reading a stored row gives back its cells: nothing is lost by storing it as text. */
  lemma {:induction false} ReadBack(row: Row)
    requires Whole(row.cells) && |row.cells| > 0
    ensures Padded(Flat(Items(Encode(row), |row.cells|)), |row.cells|) == row.cells
  {
    var ln, cells := Encode(row), row.cells;
    EncodeReads(row);
    assert ln.text[0..] == ln.text;
    assert cells[..0] + Flat(Items(ln, |cells|)) == Flat(Items(ln, |cells|));
    assert Styled(ln, cells, 0, 0, DEFAULT_STYLE);
    ItemsBack(ln, cells, Pos(0, 0), DEFAULT_STYLE);
  }
}
