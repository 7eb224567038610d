/** Drawing all the rows of a restore, one under the other. */
module RowsProofs {
  import opened Common
  import opened Terminal
  import opened Lines
  import opened Drawing
  import opened RowProofs
  import opened Canvas

  /** The line is what a row of whole characters was stored as. */
  ghost predicate Stored(ln: Line, row: Row, cols: nat) {
    var its := Items(ln, cols);
    && ln.wrapped == row.wrapped
    && |row.cells| == cols && Whole(row.cells)
    && |Flat(its)| <= cols && Padded(Flat(its), cols) == row.cells
  }

  lemma StyleNoticed(spans: seq<Span>, off: nat)
    ensures Marked(StyleAt(spans, off)) ==> AnyMarked(spans)
  {
  }

  /** What the reader returns carries the styles of the line's spans. */
  lemma {:induction false} ItemsNoticed(ln: Line, cols: nat, p: Pos)
    ensures Noticed(ItemsFrom(ln, cols, p), AnyMarked(ln.spans))
    decreases if p.off < |ln.text| then |ln.text| - p.off else 0, if p.col < cols then cols - p.col else 0
  {
    hide AnyMarked, Marked, StyleAt, NullAt;
    PlainUnmarked();
    var next := NextItem(ln, cols, p);
    if next.Some? {
      StyleNoticed(ln.spans, p.off);
      ItemsNoticed(ln, cols, next.value.1);
    }
  }

  lemma RowNoticed(ln: Line, cols: nat)
    ensures Noticed(Items(ln, cols), AnyMarked(ln.spans))
  {
    ItemsNoticed(ln, cols, Pos(0, 0));
  }

  lemma EncodeStored(row: Row, cols: nat)
    requires cols > 0 && |row.cells| == cols && Whole(row.cells)
    ensures Stored(Encode(row), row, cols)
  {
    hide Items, Encode, Padded, Flat;
    ReadBack(row);
    var its := Items(Encode(row), cols);
    PaddedKeeps(Flat(its), cols);
    EncodeWrapped(row);
  }

  lemma EncodeWrapped(row: Row)
    ensures Encode(row).wrapped == row.wrapped
  {
  }

  lemma PaddedKeeps(flat: seq<Cell>, cols: nat)
    requires |Padded(flat, cols)| == cols
    ensures |flat| <= cols && forall c :: 0 <= c < |flat| ==> Padded(flat, cols)[c] == flat[c]
  {
  }

  /** A marked empty cell left behind by the row's first character. */
  predicate LeavesBehind(cells: seq<Cell>) {
    && 0 < |cells| && cells[0].Lead?
    && var w := cells[0].glyph.Width(); w < |cells| && MarkedNull(cells, w) && cells[w].style == cells[0].style
  }

  /** What the row's first cell says about how the row is joined on. */
  lemma FirstCellTells(ln: Line, row: Row, cols: nat)
    requires cols >= 2 && Stored(ln, row, cols)
    ensures var (kind, st) := FirstCell(ln, cols);
            && NeedsScrub(kind) == (!row.cells[0].Lead? || LeavesBehind(row.cells))
            && (kind == Wide ==> row.cells[0].WideLead())
            && (row.cells[0].WideLead() && !LeavesBehind(row.cells) ==> kind == Wide)
            && (row.cells[0].Lead? ==> st == row.cells[0].style)
    ensures row.cells[0].Lead? ==> |Items(ln, cols)| > 0 && Items(ln, cols)[0] == Char(row.cells[0].glyph, row.cells[0].style)
  {
    hide Items, Flat, Whole, Rest, Padded, AnyMarked;
    var its := Items(ln, cols);
    StoredRest(ln, row, cols);
    RowNoticed(ln, cols);
    MarkedSpans(ln.spans);
    PlainUnmarked();
    if its == [] {
      RestNone(row.cells, 0);
    } else {
      RestOne(row.cells, 0, its);
      if |its| > 1 {
        RestOne(row.cells, its[0].Width(), its[1..]);
      } else {
        RestNone(row.cells, its[0].Width());
      }
    }
  }

  lemma MarkedSpans(spans: seq<Span>)
    ensures AnyMarked(spans) ==> |spans| > 0
  {
  }

  /** The cells of a stored row are its items'. */
  lemma StoredRest(ln: Line, row: Row, cols: nat)
    requires cols > 0 && Stored(ln, row, cols)
    ensures Rest(row.cells, 0, Items(ln, cols)) && |row.cells| == cols && |Flat(Items(ln, cols))| <= cols
    ensures Padded(Flat(Items(ln, cols)), cols) == row.cells
  {
    hide Items, Flat, Whole;
    RestWhole(Items(ln, cols), cols);
  }

  lemma {:induction false} DrawFresh(start: Term, base: Term, pk: Pk, done: seq<Row>, init: Row, rest: seq<Row>, ln: Line, row: Row, scrub: bool)
    requires Fits(base, done + [init], rest) && |init.cells| == base.cols && Clean(init.cells) && init.wrapped == row.wrapped
    requires Stored(ln, row, base.cols)
    requires Shows(start, pk, At(base, done + [init], rest, 0, DEFAULT_STYLE))
    ensures var (p, end) := DrawRow(pk, ln, base.cols, scrub);
            && Shows(start, p, At(base, done + [Row(Over(Drawable(row.cells), Wet(row.cells), init.cells, scrub), row.wrapped)], rest, end.x, DEFAULT_STYLE))
            && EndsAs(end, row.cells)
  {
    hide DrawRow, Items, Drawable, Wet, Over, Flat, Padded;
    RowNoticed(ln, base.cols);
    StoredRest(ln, row, base.cols);
    DrawableIs(row.cells, scrub);
    AtCols(base, done + [init], rest, 0, DEFAULT_STYLE);
    var t := At(base, done + [init], rest, 0, DEFAULT_STYLE);
    AtValid(base, done + [init], rest, 0, DEFAULT_STYLE);
    assert (done + [init])[|done|] == init;
    DrawRowShows(start, t, pk, ln, scrub);
    var (p, end) := DrawRow(pk, ln, base.cols, scrub);
    OnAt(base, done, init, rest, 0, DEFAULT_STYLE, Over(Drawable(row.cells), Wet(row.cells), init.cells, scrub), end.x, DEFAULT_STYLE);
  }

  /** The first character of a row drawn by letting the text run on wraps onto it. */
  lemma {:induction false} JoinShows(start: Term, base: Term, pk: Pk, done: seq<Row>, last: Row, rest: seq<Row>, col: nat, g: Glyph, st: Style)
    requires Fits(base, done + [last], rest) && CanAdvance(base, rest) && |last.cells| == base.cols
    requires 0 < col <= base.cols && col + g.Width() > base.cols && !last.cells[col - 1].WideLead()
    requires |Next(base, rest, st.bg).cells| == base.cols && Clean(Next(base, rest, st.bg).cells)
    requires Shows(start, pk, At(base, done + [last], rest, col, DEFAULT_STYLE))
    ensures var init := Next(base, rest, st.bg).cells;
            var last' := last.(cells := NullsFrom(last.cells, col, st));
            Shows(start, Emit(SetPen(pk, st), Print(g)),
                  At(base, done + [last', Row(Over(CellsOf(Char(g, st)), {}, init, false), true)], Remaining(rest), g.Width(), st))
  {
    hide Step, WriteCells, NullsFrom, Fits, CellsOf, Over;
    var init := Next(base, rest, st.bg).cells;
    var t := At(base, done + [last], rest, col, DEFAULT_STYLE);
    ShowsPen(start, pk, t, st);
    assert t.(pen := st) == At(base, done + [last], rest, col, st);
    PrintWraps(base, done, last, rest, col, st, g);
    hide At;
    ShowsEmit(start, SetPen(pk, st), At(base, done + [last], rest, col, st), Print(g));
    assert WriteCells(init, 0, g, st) == Over(CellsOf(Char(g, st)), {}, init, false) by {
      OverPrint([], {}, init, false, g, st);
      OverNothing(init);
      assert Unpaired(init, 0, st) == init;
      assert [] + CellsOf(Char(g, st)) == CellsOf(Char(g, st));
    }
    AtPen(base, done + [last.(cells := NullsFrom(last.cells, col, st)), Row(WriteCells(init, 0, g, st), true)], Remaining(rest), g.Width(), st);
  }

  lemma OverNothing(init: seq<Cell>)
    ensures Over([], {}, init, false) == init
  {
  }

  lemma JoinFirst(start: Term, base: Term, pk: Pk, done: seq<Row>, init: seq<Cell>, rest: seq<Row>, g: Glyph, st: Style)
    requires Fits(base, done + [Row(init, true)], rest) && |init| == base.cols && Clean(init)
    requires Shows(start, Emit(SetPen(pk, st), Print(g)),
                   At(base, done + [Row(Over(CellsOf(Char(g, st)), {}, init, false), true)], rest, g.Width(), st))
    ensures Inv(start, At(base, done + [Row(init, true)], rest, 0, st),
                DrawChar(StartDraw(pk, false), g, st), CellsOf(Char(g, st)), {}, init, false)
  {
    hide Exec, Over, Clean;
    var flat := CellsOf(Char(g, st));
    var t := At(base, done + [Row(init, true)], rest, 0, st);
    var d := DrawChar(StartDraw(pk, false), g, st);
    OnAt(base, done, Row(init, true), rest, 0, st, Over(flat, {}, init, false), g.Width(), st);
    AtValid(base, done + [Row(init, true)], rest, 0, st);
    hide At, On;
    assert d.pk == Emit(SetPen(pk, st), Print(g)) && d.x == d.end == g.Width() && d.run == 0 && d.skip == 0;
    assert flat[..d.end] == flat && flat[d.end..] == Nulls(0, d.runBg);
  }

  /** The rest of a row whose first character has wrapped onto it. */
  lemma JoinRest(start: Term, t: Term, pk: Pk, ln: Line, row: Row, init: seq<Cell>)
    requires t.Valid() && t.cols >= 2 && Stored(ln, row, t.cols) && row.cells[0].Lead? && !LeavesBehind(row.cells)
    requires var g, st := row.cells[0].glyph, row.cells[0].style;
             Inv(start, t, DrawChar(StartDraw(pk, false), g, st), CellsOf(Char(g, st)), {}, init, false)
    ensures var (p, end) := DrawRow(pk, ln, t.cols, false);
            && Shows(start, p, On(t, Over(Drawable(row.cells), Wet(row.cells), init, false), end.x, DEFAULT_STYLE))
            && EndsAs(end, row.cells)
  {
    hide Over, Clean, Inv, Items, DrawChar, FinishRow, Padded, Flat, Whole, AnyMarked, Noticed, Mid, Loose, Rest, DrawFrom;
    var cols, its := t.cols, Items(ln, t.cols);
    var want, g, st := row.cells, row.cells[0].glyph, row.cells[0].style;
    FirstCellTells(ln, row, cols);
    StoredRest(ln, row, cols);
    RowNoticed(ln, cols);
    var d0 := StartDraw(pk, false);
    TurnIs(d0, its, want, 0, AnyMarked(ln.spans));
    RestOne(want, 0, its);
    NoticedRest(its, AnyMarked(ln.spans));
    MidJoined(start, t, pk, want, init, g, st);
    DrawRest(start, t, DrawChar(d0, g, st), want, g.Width(), init, false, DEFAULT_STYLE, its[1..], AnyMarked(ln.spans));
  }

  lemma MidJoined(start: Term, t: Term, pk: Pk, want: seq<Cell>, init: seq<Cell>, g: Glyph, st: Style)
    requires |want| == t.cols && Holds(want, 0, g, st) && !LeavesBehind(want)
    requires Inv(start, t, DrawChar(StartDraw(pk, false), g, st), CellsOf(Char(g, st)), {}, init, false)
    ensures Mid(start, t, DrawChar(StartDraw(pk, false), g, st), want, g.Width(), init, false, DEFAULT_STYLE)
    ensures Loose(want, g.Width())
  {
    hide Inv, Inked, WetTo, PenAt, Loose;
    var d0 := StartDraw(pk, false);
    InkWritten(want, 0, g, st, DEFAULT_STYLE, false);
    NothingInked(want);
    CharState(d0, g, st);
    NoRun(DrawChar(d0, g, st));
    assert [] + CellsOf(Char(g, st)) == CellsOf(Char(g, st));
  }

  lemma NothingInked(want: seq<Cell>)
    ensures Inked(want, DEFAULT_STYLE, false)[..0] == [] && WetTo(want, 0) == {}
  {
  }

  lemma {:induction false} DrawJoined(start: Term, base: Term, pk: Pk, done: seq<Row>, last: Row, rest: seq<Row>, col: nat, ln: Line, row: Row)
    requires Fits(base, done + [last], rest) && CanAdvance(base, rest) && |last.cells| == base.cols
    requires Stored(ln, row, base.cols) && row.wrapped && row.cells[0].Lead? && !LeavesBehind(row.cells)
    requires 0 < col <= base.cols && col + row.cells[0].glyph.Width() > base.cols && !last.cells[col - 1].WideLead()
    requires |Next(base, rest, row.cells[0].style.bg).cells| == base.cols && Clean(Next(base, rest, row.cells[0].style.bg).cells)
    requires Shows(start, pk, At(base, done + [last], rest, col, DEFAULT_STYLE))
    ensures var (p, end) := DrawRow(pk, ln, base.cols, false);
            var st := row.cells[0].style;
            var init := Next(base, rest, st.bg).cells;
            var last' := last.(cells := NullsFrom(last.cells, col, st));
            && Shows(start, p, At(base, done + [last', Row(Over(Drawable(row.cells), Wet(row.cells), init, false), true)], Remaining(rest), end.x, DEFAULT_STYLE))
            && EndsAs(end, row.cells)
  {
    hide At, Over, NullsFrom, Clean, Inv, Items, DrawChar, FinishRow, Padded, Drawable, Wet, Flat, Whole;
    var cols, its := base.cols, Items(ln, base.cols);
    FirstCellTells(ln, row, cols);
    var g, st := row.cells[0].glyph, row.cells[0].style;
    var init := Next(base, rest, st.bg).cells;
    var last' := last.(cells := NullsFrom(last.cells, col, st));
    var b := done + [last'];
    assert forall r :: b + [r] == done + [last', r];
    FitsMore(base, done, last, rest, last', Row(init, true));
    JoinShows(start, base, pk, done, last, rest, col, g, st);
    JoinFirst(start, base, pk, b, init, Remaining(rest), g, st);
    var t := At(base, b + [Row(init, true)], Remaining(rest), 0, st);
    AtCols(base, b + [Row(init, true)], Remaining(rest), 0, st);
    InvBasics(start, t, DrawChar(StartDraw(pk, false), g, st), CellsOf(Char(g, st)), {}, init, false);
    JoinRest(start, t, pk, ln, row, init);
    var (p, end) := DrawRow(pk, ln, cols, false);
    OnAt(base, b, Row(init, true), Remaining(rest), 0, st, Over(Drawable(row.cells), Wet(row.cells), init, false), end.x, DEFAULT_STYLE);
  }

  lemma InvBasics(start: Term, t: Term, d: Draw, flat: seq<Cell>, wet: set<nat>, init: seq<Cell>, scrub: bool)
    requires Inv(start, t, d, flat, wet, init, scrub)
    ensures t.Valid() && t.cols >= 2
  {
  }

  lemma AtCols(base: Term, done: seq<Row>, rest: seq<Row>, col: nat, pen: Style)
    requires |done| > 0 && base.rows > 0
    ensures At(base, done, rest, col, pen).cols == base.cols
  {
  }

  // ---- what a drawn row ends up showing ----

  /** A row that comes out as `cells`: empty cells are moved over, so a plain one keeps the background `bg`
      the row came in with, unless it is the first cell of a continued row (the placeholder there is
      erased), one that held a stand-in, or the last cell of a row that is continued (it is erased, or
      emptied by the wrap). */
  ghost function Landed(row: Row, cells: seq<Cell>, bg: Color, joined: bool): (r: Row)
    requires |cells| == |row.cells|
    ensures |r.cells| == |row.cells| && r.wrapped == row.wrapped
  {
    var over := Over(cells, Wet(row.cells), Blanks(|row.cells|, bg), row.wrapped);
    Row(if joined && |over| > 0 then over[|over| - 1 := cells[|over| - 1]] else over, row.wrapped)
  }

  ghost predicate Grid(rows: seq<Row>, cols: nat) {
    forall i :: 0 <= i < |rows| ==> |rows[i].cells| == cols && Whole(rows[i].cells)
  }

  /** The row is entered by its own first character wrapping, so a row scrolled in by it takes that
      character's background. */
  ghost predicate RunsOn(rows: seq<Row>, i: nat)
    requires 0 < i < |rows| && |rows[i - 1].cells| > 0 && |rows[i].cells| > 0
  {
    var last, first := rows[i - 1].cells[|rows[i - 1].cells| - 1], rows[i].cells[0];
    && rows[i].wrapped && first.Lead? && !LeavesBehind(rows[i].cells)
    && (last.Null? ==> first.glyph.wide && last.style == first.style)
  }

  /** The background a row has when it is drawn: the screen's own, or that of the wrap that scrolled it in. */
  ghost function Ground(rows: seq<Row>, bgs: seq<Color>, i: nat): Color
    requires i < |rows| && forall k :: 0 <= k < |rows| ==> |rows[k].cells| > 0
  {
    if i < |bgs| then bgs[i] else if i > 0 && RunsOn(rows, i) then rows[i].cells[0].style.bg else Default
  }

  /** An empty cell with its background only. */
  function Bare(c: Cell): Cell {
    if c.Null? then Null(Erased(c.style.bg)) else c
  }

  /** What row `i` is drawn as: as far as its cells can be drawn, but in its last cell the wrap leaves an
      empty cell in the style of the character that wraps, and erasing leaves its background. */
  ghost function Left(rows: seq<Row>, n: nat, i: nat): (r: seq<Cell>)
    requires i < n <= |rows| && forall k :: 0 <= k < |rows| ==> |rows[k].cells| > 0
    ensures |r| == |rows[i].cells|
  {
    var cells := rows[i].cells;
    var k := |cells| - 1;
    if !(i + 1 < n && rows[i + 1].wrapped) then Drawable(cells)
    else Drawable(cells)[k := if RunsOn(rows, i + 1) then cells[k] else Bare(cells[k])]
  }

  ghost function Shown(rows: seq<Row>, bgs: seq<Color>, n: nat, i: nat): (r: Row)
    requires i < n <= |rows| && forall k :: 0 <= k < |rows| ==> |rows[k].cells| > 0
    ensures |r.cells| == |rows[i].cells|
  {
    Landed(rows[i], Left(rows, n, i), Ground(rows, bgs, i), i + 1 < n && rows[i + 1].wrapped)
  }

  /** The row as it stands while it is the last one drawn. */
  ghost function LastDrawn(row: Row, bg: Color): (r: Row)
    ensures |r.cells| == |row.cells| && r.wrapped == row.wrapped
  {
    Landed(row, Drawable(row.cells), bg, false)
  }

  ghost function DoneRows(rows: seq<Row>, bgs: seq<Color>, n: nat): (r: seq<Row>)
    requires n <= |rows| && forall k :: 0 <= k < |rows| ==> |rows[k].cells| > 0
    ensures |r| == n
  {
    seq(n, i requires 0 <= i < n => Shown(rows, bgs, n, i))
  }

  ghost function RestRows(cols: nat, bgs: seq<Color>, n: nat): seq<Row> {
    if n < |bgs| then seq(|bgs| - n, k requires 0 <= k < |bgs| - n => BlankRow(cols, bgs[n + k])) else []
  }

  ghost predicate Canvased(base: Term, rows: seq<Row>, bgs: seq<Color>) {
    && base.Valid() && base.cols >= 2 && base.rows >= 2 && base.top == 0 && base.bot == base.rows - 1
    && |bgs| == base.rows && Grid(rows, base.cols)
    && (base.parked.NoParked? || |rows| <= |bgs|)
  }

  /** `n` rows are drawn and the cursor stands where the last of them ended. */
  ghost predicate Drawn(start: Term, base: Term, pk: Pk, rows: seq<Row>, bgs: seq<Color>, n: nat, prev: RowEnd) {
    && Canvased(base, rows, bgs) && 0 < n <= |rows|
    && Shows(start, pk, At(base, DoneRows(rows, bgs, n), RestRows(base.cols, bgs, n), prev.x, DEFAULT_STYLE))
    && EndsAs(prev, rows[n - 1].cells)
  }

  lemma DrawnFits(base: Term, rows: seq<Row>, bgs: seq<Color>, n: nat)
    requires Canvased(base, rows, bgs) && 0 < n <= |rows|
    ensures Fits(base, DoneRows(rows, bgs, n), RestRows(base.cols, bgs, n))
  {
    var rest := RestRows(base.cols, bgs, n);
    forall r | 0 <= r < |rest|
      ensures |rest[r].cells| == base.cols
    {
      assert rest[r] == BlankRow(base.cols, bgs[n + r]);
    }
  }

  /** One more row: the last one becomes final and the new one is the last. */
  lemma DoneMore(rows: seq<Row>, bgs: seq<Color>, n: nat)
    requires 0 < n < |rows| && forall k :: 0 <= k < |rows| ==> |rows[k].cells| > 0
    ensures DoneRows(rows, bgs, n) == DoneRows(rows, bgs, n)[..n - 1] + [LastDrawn(rows[n - 1], Ground(rows, bgs, n - 1))]
    ensures DoneRows(rows, bgs, n + 1)
         == DoneRows(rows, bgs, n)[..n - 1] + [Landed(rows[n - 1], Left(rows, n + 1, n - 1), Ground(rows, bgs, n - 1), rows[n].wrapped),
                                                LastDrawn(rows[n], Ground(rows, bgs, n))]
  {
    hide Landed, Ground, Drawable, Bare, RunsOn;
  }

  lemma RestMore(base: Term, bgs: seq<Color>, rows: seq<Row>, n: nat)
    requires Canvased(base, rows, bgs) && n < |rows|
    ensures CanAdvance(base, RestRows(base.cols, bgs, n))
    ensures Remaining(RestRows(base.cols, bgs, n)) == RestRows(base.cols, bgs, n + 1)
    ensures forall bg :: Next(base, RestRows(base.cols, bgs, n), bg) == BlankRow(base.cols, if n < |bgs| then bgs[n] else bg)
  {
  }

  /** The last two cells of a drawn row, and what the next one does to the last. */
  lemma LandedEdges(row: Row, bg: Color)
    requires |row.cells| >= 2 && Whole(row.cells)
    ensures var cells, n := LastDrawn(row, bg).cells, |row.cells|;
            && !cells[n - 1].WideLead()
            && (row.cells[n - 1].Null? ==> !cells[n - 2].WideLead())
            && (!row.cells[n - 1].Null? ==> Bare(row.cells[n - 1]) == row.cells[n - 1] == cells[n - 1])
  {
    hide Whole, Wet, InkAt;
    var n := |row.cells|;
    EdgeWhole(row.cells);
    InkSame(row.cells, n - 1, DEFAULT_STYLE, false);
    InkSame(row.cells, n - 2, DEFAULT_STYLE, false);
  }

  /** What is put in the last cell when the next row is joined on is all that changes. */
  lemma LandedLast(row: Row, bg: Color, c: Cell)
    requires |row.cells| > 0
    ensures var k := |row.cells| - 1;
            Landed(row, Drawable(row.cells)[k := c], bg, true) == LastDrawn(row, bg).(cells := LastDrawn(row, bg).cells[k := c])
  {
    hide Wet, Inked;
    var k := |row.cells| - 1;
    assert Landed(row, Drawable(row.cells)[k := c], bg, true).cells == LastDrawn(row, bg).cells[k := c];
  }

  lemma EdgeWhole(cells: seq<Cell>)
    requires |cells| >= 2 && Whole(cells)
    ensures var n := |cells|; !cells[n - 1].WideLead() && (cells[n - 2].WideLead() ==> !cells[n - 1].Null?)
  {
  }

  lemma PlaceholderOver(row: Row, bg: Color, scrub: bool)
    requires |row.cells| > 0 && row.wrapped && (!row.cells[0].Lead? ==> scrub) && !row.cells[0].Tail?
    ensures Over(Drawable(row.cells), Wet(row.cells), Blanks(|row.cells|, bg)[0 := Lead(SPACE, DEFAULT_STYLE)], scrub)
         == LastDrawn(row, bg).cells
  {
    hide Wet, InkAt;
    InkSame(row.cells, 0, DEFAULT_STYLE, false);
  }

  lemma BlanksClean(cols: nat, bg: Color)
    ensures Clean(Blanks(cols, bg))
    ensures cols > 0 ==> Clean(Blanks(cols, bg)[0 := Lead(SPACE, DEFAULT_STYLE)])
  {
  }

  // ---- one more row, case by case ----

  lemma AdvanceNew(start: Term, base: Term, pk: Pk, rows: seq<Row>, bgs: seq<Color>, n: nat, prev: RowEnd, ln: Line)
    requires Drawn(start, base, pk, rows, bgs, n, prev) && n < |rows| && !rows[n].wrapped
    requires Stored(ln, rows[n], base.cols)
    ensures var (p, end) := DrawRow(Emit(pk, CrLf), ln, base.cols, false);
            Drawn(start, base, p, rows, bgs, n + 1, end)
  {
    hide At, Exec, DrawRow, Stored, Step;
    var done, rest := DoneRows(rows, bgs, n), RestRows(base.cols, bgs, n);
    var g := Ground(rows, bgs, n);
    DrawnFits(base, rows, bgs, n);
    RestMore(base, bgs, rows, n);
    NewLineAt(base, done, rest, prev.x, DEFAULT_STYLE);
    ShowsEmit(start, pk, At(base, done, rest, prev.x, DEFAULT_STYLE), CrLf);
    var init := BlankRow(base.cols, g);
    assert Next(base, rest, Default) == init;
    AtPen(base, done, rest, prev.x, DEFAULT_STYLE);
    AtPen(base, done + [init], Remaining(rest), 0, DEFAULT_STYLE);
    BlanksClean(base.cols, g);
    DrawFresh(start, base, Emit(pk, CrLf), done, init, Remaining(rest), ln, rows[n], false);
    DoneMore(rows, bgs, n);
    assert DoneRows(rows, bgs, n + 1) == done + [LastDrawn(rows[n], g)];
  }

  /** The new row holds a placeholder in its first cell, and the last row is as it stays. */
  lemma AdvancePlaced(start: Term, base: Term, pk: Pk, rows: seq<Row>, bgs: seq<Color>, n: nat, ln: Line, bg: Color, scrub: bool)
    requires Canvased(base, rows, bgs) && 0 < n < |rows| && rows[n].wrapped && bg == Ground(rows, bgs, n)
    requires Stored(ln, rows[n], base.cols) && !rows[n].cells[0].Tail? && (!rows[n].cells[0].Lead? ==> scrub)
    requires Shows(start, pk,
      At(base, DoneRows(rows, bgs, n)[..n - 1] + [Landed(rows[n - 1], Left(rows, n + 1, n - 1), Ground(rows, bgs, n - 1), true),
                                                   Row(Blanks(base.cols, bg)[0 := Lead(SPACE, DEFAULT_STYLE)], true)],
         RestRows(base.cols, bgs, n + 1), 0, DEFAULT_STYLE))
    ensures var (p, end) := DrawRow(pk, ln, base.cols, scrub);
            Drawn(start, base, p, rows, bgs, n + 1, end)
  {
    hide At, Exec, DrawRow, Stored, Step, Landed, LastDrawn, Left, Drawable, Wet, Over;
    var before := DoneRows(rows, bgs, n)[..n - 1];
    var last := Landed(rows[n - 1], Left(rows, n + 1, n - 1), Ground(rows, bgs, n - 1), true);
    var init := Row(Blanks(base.cols, bg)[0 := Lead(SPACE, DEFAULT_STYLE)], true);
    var done := before + [last];
    assert before + [last, init] == done + [init];
    DrawnFits(base, rows, bgs, n + 1);
    DoneMore(rows, bgs, n);
    assert Fits(base, done + [init], RestRows(base.cols, bgs, n + 1)) by {
      var all := DoneRows(rows, bgs, n + 1);
      assert forall r :: 0 <= r < n ==> (done + [init])[r] == all[r];
    }
    BlanksClean(base.cols, bg);
    PlaceholderOver(rows[n], bg, scrub);
    DrawFresh(start, base, pk, done, init, RestRows(base.cols, bgs, n + 1), ln, rows[n], scrub);
    assert DoneRows(rows, bgs, n + 1) == done + [LastDrawn(rows[n], bg)];
  }

  /** The last row ended in its last cell and the new one starts with an empty cell. */
  lemma AdvanceFilled(start: Term, base: Term, pk: Pk, rows: seq<Row>, bgs: seq<Color>, n: nat, prev: RowEnd, ln: Line)
    requires Drawn(start, base, pk, rows, bgs, n, prev) && n < |rows| && rows[n].wrapped
    requires Stored(ln, rows[n], base.cols) && !rows[n].cells[0].Tail? && !RunsOn(rows, n)
    requires prev.x == base.cols
    ensures var (p, end) := DrawRow(Emit(Emit(pk, Print(SPACE)), Cha(0)), ln, base.cols, true);
            Drawn(start, base, p, rows, bgs, n + 1, end)
  {
    hide Exec, DrawRow, Stored, Drawable, Landed, LastDrawn;
    var done, rest := DoneRows(rows, bgs, n), RestRows(base.cols, bgs, n);
    var before, bg := done[..n - 1], Ground(rows, bgs, n);
    var last := LastDrawn(rows[n - 1], Ground(rows, bgs, n - 1));
    DrawnFits(base, rows, bgs, n);
    RestMore(base, bgs, rows, n);
    DoneMore(rows, bgs, n);
    LandedEdges(rows[n - 1], Ground(rows, bgs, n - 1));
    var k := base.cols - 1;
    assert Left(rows, n + 1, n - 1) == Drawable(rows[n - 1].cells)[k := rows[n - 1].cells[k]];
    LandedLast(rows[n - 1], Ground(rows, bgs, n - 1), rows[n - 1].cells[k]);
    assert last.cells[k := rows[n - 1].cells[k]] == last.cells;
    BlanksClean(base.cols, bg);
    assert Next(base, rest, Default) == BlankRow(base.cols, bg);
    WrapSpace(start, base, pk, before, last, rest);
    var init := Row(Blanks(base.cols, bg)[0 := Lead(SPACE, DEFAULT_STYLE)], true);
    var p := Emit(pk, Print(SPACE));
    ShowsEmit(start, p, At(base, before + [last, init], Remaining(rest), 1, DEFAULT_STYLE), Cha(0));
    AdvancePlaced(start, base, Emit(p, Cha(0)), rows, bgs, n, ln, bg, true);
  }

  /** The text runs on: the new row's first character wraps onto it. */
  lemma AdvanceRun(start: Term, base: Term, pk: Pk, rows: seq<Row>, bgs: seq<Color>, n: nat, prev: RowEnd, ln: Line)
    requires Drawn(start, base, pk, rows, bgs, n, prev) && n < |rows| && RunsOn(rows, n)
    requires Stored(ln, rows[n], base.cols)
    ensures var (p, end) := DrawRow(Forward(pk, base.cols - 1 - prev.x), ln, base.cols, false);
            Drawn(start, base, p, rows, bgs, n + 1, end)
  {
    hide Exec, DrawRow, Stored, Drawable, Landed, LastDrawn;
    var cols := base.cols;
    var done, rest := DoneRows(rows, bgs, n), RestRows(cols, bgs, n);
    var before, bg := done[..n - 1], Ground(rows, bgs, n);
    var g0, st := Ground(rows, bgs, n - 1), rows[n].cells[0].style;
    var last := LastDrawn(rows[n - 1], g0);
    DrawnFits(base, rows, bgs, n);
    RestMore(base, bgs, rows, n);
    DoneMore(rows, bgs, n);
    LandedEdges(rows[n - 1], g0);
    BlanksClean(cols, bg);
    var p := Forward(pk, cols - 1 - prev.x);
    var col := if prev.x < cols then cols - 1 else cols;
    ForwardAt(start, base, pk, before, last, rest, prev.x);
    assert Next(base, rest, st.bg) == BlankRow(cols, bg);
    DrawJoined(start, base, p, before, last, rest, col, ln, rows[n]);
    var k := cols - 1;
    LandedLast(rows[n - 1], g0, rows[n - 1].cells[k]);
    assert NullsFrom(last.cells, col, st) == last.cells[k := rows[n - 1].cells[k]];
    assert Left(rows, n + 1, n - 1) == Drawable(rows[n - 1].cells)[k := rows[n - 1].cells[k]];
    assert last.(cells := NullsFrom(last.cells, col, st)) == Landed(rows[n - 1], Left(rows, n + 1, n - 1), g0, true);
    RunOver(rows[n], bg);
  }

  lemma RunOver(row: Row, bg: Color)
    requires |row.cells| > 0 && row.wrapped && row.cells[0].Lead?
    ensures Row(Over(Drawable(row.cells), Wet(row.cells), Blanks(|row.cells|, bg), false), true) == LastDrawn(row, bg)
  {
    hide Wet, InkAt;
    InkSame(row.cells, 0, DEFAULT_STYLE, false);
  }

  lemma ForwardAt(start: Term, base: Term, pk: Pk, done: seq<Row>, last: Row, rest: seq<Row>, x: nat)
    requires Fits(base, done + [last], rest) && |last.cells| == base.cols && x <= base.cols && pk.pen == DEFAULT_STYLE
    requires Shows(start, pk, At(base, done + [last], rest, x, DEFAULT_STYLE))
    ensures Shows(start, Forward(pk, base.cols - 1 - x),
                  At(base, done + [last], rest, if x < base.cols then base.cols - 1 else base.cols, DEFAULT_STYLE))
  {
    if x < base.cols {
      var t := At(base, done + [last], rest, x, DEFAULT_STYLE);
      AtValid(base, done + [last], rest, x, DEFAULT_STYLE);
      OnAt(base, done, last, rest, x, DEFAULT_STYLE, last.cells, x, DEFAULT_STYLE);
      OnAt(base, done, last, rest, x, DEFAULT_STYLE, last.cells, base.cols - 1, DEFAULT_STYLE);
      assert last.(cells := last.cells) == last;
      ForwardShows(start, pk, t, last.cells, x, base.cols - 1 - x);
    }
  }

  /** The last row ended early: a placeholder makes the wrap pending and is erased after it. */
  lemma AdvanceBack(start: Term, base: Term, pk: Pk, rows: seq<Row>, bgs: seq<Color>, n: nat, prev: RowEnd, ln: Line, scrub: bool)
    requires Drawn(start, base, pk, rows, bgs, n, prev) && n < |rows| && rows[n].wrapped && !RunsOn(rows, n)
    requires Stored(ln, rows[n], base.cols) && !rows[n].cells[0].Tail? && (!rows[n].cells[0].Lead? ==> scrub)
    requires prev.x < base.cols
    ensures var p1 := Emit(Emit(Forward(pk, base.cols - 1 - prev.x), Print(SPACE)), Print(SPACE));
            var (p, end) := DrawRow(StepBack(p1, base.cols, prev.tail.bg), ln, base.cols, scrub);
            Drawn(start, base, p, rows, bgs, n + 1, end)
  {
    hide Exec, DrawRow, Stored, At, Drawable, Landed, LastDrawn;
    var cols := base.cols;
    var done, rest := DoneRows(rows, bgs, n), RestRows(cols, bgs, n);
    var before, bg := done[..n - 1], Ground(rows, bgs, n);
    var g0 := Ground(rows, bgs, n - 1);
    var last := LastDrawn(rows[n - 1], g0);
    DrawnFits(base, rows, bgs, n);
    RestMore(base, bgs, rows, n);
    DoneMore(rows, bgs, n);
    LandedEdges(rows[n - 1], g0);
    BlanksClean(cols, bg);
    AtPen(base, before + [last], rest, prev.x, DEFAULT_STYLE);
    ForwardAt(start, base, pk, before, last, rest, prev.x);
    var p0 := Forward(pk, cols - 1 - prev.x);
    LastSpace(start, base, p0, before, last, rest);
    var full := last.(cells := last.cells[cols - 1 := Lead(SPACE, DEFAULT_STYLE)]);
    assert Fits(base, before + [full], rest) by {
      forall r | 0 <= r < n - 1 ensures |before[r].cells| == cols { assert before[r] == done[r]; }
    }
    assert Next(base, rest, Default) == BlankRow(cols, bg);
    WrapSpace(start, base, Emit(p0, Print(SPACE)), before, full, rest);
    var init := Row(Blanks(cols, bg)[0 := Lead(SPACE, DEFAULT_STYLE)], true);
    FitsMore(base, before, full, rest, full, init);
    var p1 := Emit(Emit(p0, Print(SPACE)), Print(SPACE));
    StepBackShows(start, base, p1, before, full, init, Remaining(rest), 1, prev.tail.bg);
    assert Bare(rows[n - 1].cells[cols - 1]) == Null(Erased(prev.tail.bg));
    LandedLast(rows[n - 1], g0, Null(Erased(prev.tail.bg)));
    assert Left(rows, n + 1, n - 1) == Drawable(rows[n - 1].cells)[cols - 1 := Null(Erased(prev.tail.bg))];
    assert EraseCells(full.cells, cols - 1, 1, Erased(prev.tail.bg)) == last.cells[cols - 1 := Null(Erased(prev.tail.bg))];
    AdvancePlaced(start, base, StepBack(p1, cols, prev.tail.bg), rows, bgs, n, ln, bg, scrub);
  }

  /** One more row under the last one drawn, continuing it or not: what `drawRows` writes between and for it. */
  lemma Advance(start: Term, base: Term, pk: Pk, rows: seq<Row>, bgs: seq<Color>, n: nat, prev: RowEnd, ln: Line)
    requires Drawn(start, base, pk, rows, bgs, n, prev) && n < |rows|
    requires Stored(ln, rows[n], base.cols)
    ensures var (p1, scrub) := if rows[n].wrapped then ContinueRow(pk, prev, ln, base.cols) else (Emit(pk, CrLf), false);
            var (p, end) := DrawRow(p1, ln, base.cols, scrub);
            Drawn(start, base, p, rows, bgs, n + 1, end)
  {
    hide Exec, DrawRow, At, Landed, Items, FirstCell;
    if !rows[n].wrapped {
      AdvanceNew(start, base, pk, rows, bgs, n, prev, ln);
    } else {
      FirstCellTells(ln, rows[n], base.cols);
      if RunsOn(rows, n) {
        AdvanceRun(start, base, pk, rows, bgs, n, prev, ln);
      } else if prev.x == base.cols {
        AdvanceFilled(start, base, pk, rows, bgs, n, prev, ln);
      } else {
        AdvanceBack(start, base, pk, rows, bgs, n, prev, ln, NeedsScrub(FirstCell(ln, base.cols).0));
      }
    }
  }

  ghost predicate AllStored(lines: seq<Line>, rows: seq<Row>, cols: nat) {
    |lines| == |rows| && forall i :: 0 <= i < |rows| ==> Stored(lines[i], rows[i], cols)
  }

  lemma {:induction false} FlowFrom(start: Term, base: Term, pk: Pk, lines: seq<Line>, rows: seq<Row>, bgs: seq<Color>, n: nat, prev: RowEnd)
    requires Drawn(start, base, pk, rows, bgs, n, prev) && AllStored(lines, rows, base.cols)
    ensures base.cols >= 1 && exists end :: Drawn(start, base, DrawRowsFrom(pk, lines, n, prev, base.cols, false), rows, bgs, |rows|, end)
    decreases |rows| - n
  {
    hide Drawn, Stored, DrawRow, ContinueRow;
    DrawnCount(start, base, pk, rows, bgs, n, prev);
    if n < |rows| {
      assert base.cols >= 1 && lines[n].wrapped == rows[n].wrapped && n > 0 by { DrawnBasics(start, base, pk, rows, bgs, n, prev, lines[n]); }
      Advance(start, base, pk, rows, bgs, n, prev, lines[n]);
      var (p1, scrub) := if rows[n].wrapped then ContinueRow(pk, prev, lines[n], base.cols) else (Emit(pk, CrLf), false);
      var (p, end) := DrawRow(p1, lines[n], base.cols, scrub);
      FlowFrom(start, base, p, lines, rows, bgs, n + 1, end);
      assert DrawRowsFrom(pk, lines, n, prev, base.cols, false) == DrawRowsFrom(p, lines, n + 1, end, base.cols, false);
    } else {
      assert Drawn(start, base, DrawRowsFrom(pk, lines, n, prev, base.cols, false), rows, bgs, |rows|, prev);
    }
  }

  lemma DrawnCount(start: Term, base: Term, pk: Pk, rows: seq<Row>, bgs: seq<Color>, n: nat, prev: RowEnd)
    requires Drawn(start, base, pk, rows, bgs, n, prev)
    ensures 0 < n <= |rows| && base.cols >= 1
  {
  }

  lemma DrawnBasics(start: Term, base: Term, pk: Pk, rows: seq<Row>, bgs: seq<Color>, n: nat, prev: RowEnd, ln: Line)
    requires Drawn(start, base, pk, rows, bgs, n, prev) && n < |rows| && Stored(ln, rows[n], base.cols)
    ensures n > 0 && base.cols >= 1 && ln.wrapped == rows[n].wrapped
  {
  }

  // ---- the first row ----

  /** The backgrounds of the screen's rows once a leading continuation has deleted its dummy row. */
  ghost function Shifted(rows: seq<Row>, bgs: seq<Color>): seq<Color> {
    if |rows| > 0 && rows[0].wrapped && |bgs| > 0 then bgs[1..] + [Default] else bgs
  }

  /** The screen as it was before anything was drawn on it. */
  ghost predicate Untouched(start: Term, base: Term, pk: Pk, bgs: seq<Color>) {
    && base.Valid() && |bgs| == base.rows
    && Shows(start, pk, base.(screen := RestRows(base.cols, bgs, 0), pen := DEFAULT_STYLE))
  }

  lemma UntouchedAt(start: Term, base: Term, pk: Pk, bgs: seq<Color>)
    requires Untouched(start, base, pk, bgs)
    ensures Shows(start, pk, At(base, [BlankRow(base.cols, bgs[0])], RestRows(base.cols, bgs, 1), 0, DEFAULT_STYLE).(row := base.row, col := base.col))
  {
    var first := [BlankRow(base.cols, bgs[0])];
    assert first[0..] == first && base.history + first[..0] == base.history;
    assert RestRows(base.cols, bgs, 0) == first + RestRows(base.cols, bgs, 1);
  }

  lemma FirstNew(start: Term, base: Term, pk: Pk, rows: seq<Row>, bgs: seq<Color>, ln: Line)
    requires Canvased(base, rows, bgs) && Untouched(start, base, pk, bgs)
    requires |rows| > 0 && !rows[0].wrapped && Stored(ln, rows[0], base.cols)
    requires base.row == 0 && base.col == 0
    ensures var (p, end) := DrawRow(pk, ln, base.cols, false);
            Drawn(start, base, p, rows, bgs, 1, end)
  {
    hide Exec, DrawRow, Stored;
    UntouchedAt(start, base, pk, bgs);
    var init := BlankRow(base.cols, bgs[0]);
    var none: seq<Row> := [];
    assert none + [init] == [init];
    BlanksClean(base.cols, bgs[0]);
    FirstFits(base, rows, bgs, init);
    DrawFresh(start, base, pk, none, init, RestRows(base.cols, bgs, 1), ln, rows[0], false);
    LandedPlain(rows[0], bgs[0]);
    assert DoneRows(rows, bgs, 1) == none + [LastDrawn(rows[0], bgs[0])];
  }

  lemma FirstFits(base: Term, rows: seq<Row>, bgs: seq<Color>, init: Row)
    requires Canvased(base, rows, bgs) && |init.cells| == base.cols
    ensures Fits(base, [init], RestRows(base.cols, bgs, 1))
  {
    var rest := RestRows(base.cols, bgs, 1);
    forall r | 0 <= r < |rest| ensures |rest[r].cells| == base.cols { assert rest[r] == BlankRow(base.cols, bgs[1 + r]); }
  }

  lemma NotTail(ln: Line, row: Row, cols: nat)
    requires Stored(ln, row, cols) && cols > 0
    ensures |row.cells| == cols && !row.cells[0].Tail?
  {
  }

  lemma FirstContinued(start: Term, base: Term, pk: Pk, rows: seq<Row>, bgs: seq<Color>, ln: Line)
    requires Canvased(base, rows, bgs) && Untouched(start, base, pk, bgs) && pk.pen == DEFAULT_STYLE
    requires |rows| > 0 && rows[0].wrapped && Stored(ln, rows[0], base.cols)
    ensures var (p1, scrub) := LeadingContinuation(pk, ln, base.cols);
            var (p, end) := DrawRow(p1, ln, base.cols, scrub);
            Drawn(start, base, p, rows, Shifted(rows, bgs), 1, end)
  {
    hide Exec, DrawRow, Items, FirstCell, At, Drawable, Landed, Over, Wet, Stored, Whole, RunsOn;
    FirstCellTells(ln, rows[0], base.cols);
    NotTail(ln, rows[0], base.cols);
    UntouchedAt(start, base, pk, bgs);
    var cols, top, rest := base.cols, BlankRow(base.cols, bgs[0]), RestRows(base.cols, bgs, 1);
    var bgs' := Shifted(rows, bgs);
    FirstFits(base, rows, bgs, top);
    BlanksClean(cols, bgs[0]);
    BlanksClean(cols, bgs[1]);
    assert rest[0] == BlankRow(cols, bgs[1]);
    LeadingShows(start, base, pk, top, rest, ln);
    assert rest[1..] + [BlankRow(cols, Default)] == RestRows(cols, bgs', 1);
    var init := Row(Blanks(cols, bgs[1])[0 := Lead(SPACE, DEFAULT_STYLE)], true);
    FirstFits(base, rows, bgs', init);
    var none: seq<Row> := [];
    assert none + [init] == [init];
    var (p1, scrub) := LeadingContinuation(pk, ln, cols);
    DrawFresh(start, base, p1, none, init, RestRows(cols, bgs', 1), ln, rows[0], scrub);
    PlaceholderOver(rows[0], bgs[1], scrub);
    assert DoneRows(rows, bgs', 1) == none + [LastDrawn(rows[0], bgs[1])];
  }

  /** Rows that flow: history and screen drawn as one run, separated by newlines. */
  lemma FlowShows(start: Term, base: Term, pk: Pk, lines: seq<Line>, rows: seq<Row>, bgs: seq<Color>)
    requires Canvased(base, rows, bgs) && Untouched(start, base, pk, bgs) && pk.pen == DEFAULT_STYLE
    requires |rows| > 0 && AllStored(lines, rows, base.cols) && base.row == 0 && base.col == 0
    ensures exists end :: Drawn(start, base, DrawRows(pk, lines, base.cols, false), rows, Shifted(rows, bgs), |rows|, end)
  {
    hide Drawn, Stored, DrawRow, LeadingContinuation, Untouched, Exec, Shifted;
    assert lines[0].wrapped == rows[0].wrapped by { StoredWrap(lines[0], rows[0], base.cols); }
    var bgs' := Shifted(rows, bgs);
    if !rows[0].wrapped {
      ShiftedSame(rows, bgs);
    }
    var (p1, scrub) := if rows[0].wrapped then LeadingContinuation(pk, lines[0], base.cols) else (pk, false);
    var (p, end) := DrawRow(p1, lines[0], base.cols, scrub);
    if rows[0].wrapped {
      FirstContinued(start, base, pk, rows, bgs, lines[0]);
    } else {
      FirstNew(start, base, pk, rows, bgs, lines[0]);
    }
    FlowFrom(start, base, p, lines, rows, bgs', 1, end);
    assert DrawRows(pk, lines, base.cols, false) == DrawRowsFrom(p, lines, 1, end, base.cols, false);
  }

  lemma StoredWrap(ln: Line, row: Row, cols: nat)
    requires Stored(ln, row, cols)
    ensures ln.wrapped == row.wrapped
  {
  }

  lemma ShiftedSame(rows: seq<Row>, bgs: seq<Color>)
    requires |rows| == 0 || !rows[0].wrapped
    ensures Shifted(rows, bgs) == bgs
  {
  }

  // ---- rows placed one by one on a screen that must not scroll ----

  /** Nothing but the rows drawn is settled: the cursor can be anywhere. */
  ghost predicate Placed(start: Term, base: Term, pk: Pk, rows: seq<Row>, bgs: seq<Color>, n: nat) {
    && Canvased(base, rows, bgs) && n <= |rows| <= |bgs| && pk.pen == DEFAULT_STYLE
    && (exists r: nat, c: nat :: r < base.rows && c <= base.cols
          && Shows(start, pk, base.(screen := DoneRows(rows, bgs, n) + RestRows(base.cols, bgs, n), row := r, col := c, pen := DEFAULT_STYLE)))
  }

  lemma DrawnPlaced(start: Term, base: Term, pk: Pk, rows: seq<Row>, bgs: seq<Color>, n: nat, prev: RowEnd)
    requires Drawn(start, base, pk, rows, bgs, n, prev) && |rows| <= |bgs|
    ensures Placed(start, base, pk, rows, bgs, n)
  {
    var done, rest := DoneRows(rows, bgs, n), RestRows(base.cols, bgs, n);
    assert done[0..] == done && base.history + done[..0] == base.history;
    var t := At(base, done, rest, prev.x, DEFAULT_STYLE);
    assert t == base.(screen := done + rest, row := n - 1, col := prev.x, pen := DEFAULT_STYLE);
  }

  /** A row that holds nothing is left as the screen has it. */
  lemma SkipPlaced(start: Term, base: Term, pk: Pk, rows: seq<Row>, bgs: seq<Color>, n: nat, ln: Line)
    requires Placed(start, base, pk, rows, bgs, n) && n < |rows|
    requires Stored(ln, rows[n], base.cols) && !ln.wrapped && BlankLine(ln)
    ensures Placed(start, base, pk, rows, bgs, n + 1)
  {
    hide Exec, Landed, Stored, DoneRows;
    StoredWrap(ln, rows[n], base.cols);
    BlankShown(ln, rows[n], base.cols, bgs[n]);
    SameScreen(base, rows, bgs, n);
  }

  lemma BlankShown(ln: Line, row: Row, cols: nat, bg: Color)
    requires Stored(ln, row, cols) && !ln.wrapped && BlankLine(ln) && cols > 0
    ensures LastDrawn(row, bg) == BlankRow(cols, bg)
  {
    hide Inked, Wet;
    assert Items(ln, cols) == [];
    assert row.cells == Blanks(cols, Default);
    InkTail(row.cells, 0, DEFAULT_STYLE, false);
    NothingInked(row.cells);
    assert [] + Nulls(cols, Default) == Blanks(cols, Default);
    assert Drawable(row.cells) == Blanks(cols, Default) && Wet(row.cells) == {};
    assert LastDrawn(row, bg).cells == Blanks(cols, bg);
  }

  lemma SameScreen(base: Term, rows: seq<Row>, bgs: seq<Color>, n: nat)
    requires Canvased(base, rows, bgs) && n < |rows| <= |bgs| && !rows[n].wrapped
    requires LastDrawn(rows[n], bgs[n]) == BlankRow(base.cols, bgs[n])
    ensures DoneRows(rows, bgs, n + 1) + RestRows(base.cols, bgs, n + 1) == DoneRows(rows, bgs, n) + RestRows(base.cols, bgs, n)
  {
    hide Landed, Drawable, Bare, RunsOn;
    assert RestRows(base.cols, bgs, n) == [BlankRow(base.cols, bgs[n])] + RestRows(base.cols, bgs, n + 1);
    assert DoneRows(rows, bgs, n + 1) == DoneRows(rows, bgs, n) + [LastDrawn(rows[n], bgs[n])];
  }

  lemma CupPlaced(start: Term, base: Term, pk: Pk, rows: seq<Row>, bgs: seq<Color>, n: nat, ln: Line)
    requires Placed(start, base, pk, rows, bgs, n) && n < |rows|
    requires Stored(ln, rows[n], base.cols) && !ln.wrapped
    ensures var (p, end) := DrawRow(Emit(pk, Cup(n, 0)), ln, base.cols, false);
            Drawn(start, base, p, rows, bgs, n + 1, end)
  {
    hide Exec, DrawRow, Items, Landed, LastDrawn, Drawable, Wet, Bare, RunsOn, Stored, Over, Left, Clean;
    NotTail(ln, rows[n], base.cols);
    StoredWrap(ln, rows[n], base.cols);
    var done, rest := DoneRows(rows, bgs, n), RestRows(base.cols, bgs, n);
    var r: nat, c: nat :| r < base.rows && c <= base.cols
       && Shows(start, pk, base.(screen := done + rest, row := r, col := c, pen := DEFAULT_STYLE));
    var init := BlankRow(base.cols, bgs[n]);
    ShowsEmit(start, pk, base.(screen := done + rest, row := r, col := c, pen := DEFAULT_STYLE), Cup(n, 0));
    var all := done + [init];
    assert all[0..] == all && base.history + all[..0] == base.history;
    assert rest == [init] + RestRows(base.cols, bgs, n + 1);
    assert done + rest == all + RestRows(base.cols, bgs, n + 1);
    BlanksClean(base.cols, bgs[n]);
    CupFits(base, rows, bgs, n);
    DrawFresh(start, base, Emit(pk, Cup(n, 0)), done, init, RestRows(base.cols, bgs, n + 1), ln, rows[n], false);
    OneLower(rows, bgs, n);
    LandedPlain(rows[n], bgs[n]);
  }

  /** A row that does not continue leaves the rows above it as they are. */
  lemma OneLower(rows: seq<Row>, bgs: seq<Color>, n: nat)
    requires n < |rows| && !rows[n].wrapped && forall k :: 0 <= k < |rows| ==> |rows[k].cells| > 0
    ensures DoneRows(rows, bgs, n + 1) == DoneRows(rows, bgs, n) + [LastDrawn(rows[n], Ground(rows, bgs, n))]
  {
    hide Landed, Drawable, Bare, RunsOn, Ground;
  }

  lemma LandedPlain(row: Row, bg: Color)
    requires !row.wrapped
    ensures Over(Drawable(row.cells), Wet(row.cells), Blanks(|row.cells|, bg), false) == LastDrawn(row, bg).cells
  {
  }

  lemma CupFits(base: Term, rows: seq<Row>, bgs: seq<Color>, n: nat)
    requires Canvased(base, rows, bgs) && n < |rows| <= |bgs|
    ensures Fits(base, DoneRows(rows, bgs, n) + [BlankRow(base.cols, bgs[n])], RestRows(base.cols, bgs, n + 1))
  {
    hide Landed;
    var rest := RestRows(base.cols, bgs, n + 1);
    forall r | 0 <= r < |rest| ensures |rest[r].cells| == base.cols { assert rest[r] == BlankRow(base.cols, bgs[n + 1 + r]); }
  }

  /** The rows from `n` on; a continued row finds the row above it just drawn. */
  lemma {:induction false} PlaceFrom(start: Term, base: Term, pk: Pk, lines: seq<Line>, rows: seq<Row>, bgs: seq<Color>, n: nat, prev: RowEnd)
    requires Placed(start, base, pk, rows, bgs, n) && AllStored(lines, rows, base.cols)
    requires n < |rows| && rows[n].wrapped ==> Drawn(start, base, pk, rows, bgs, n, prev)
    ensures base.cols >= 1
    ensures Placed(start, base, DrawRowsFrom(pk, lines, n, prev, base.cols, true), rows, bgs, |rows|)
    decreases |rows| - n
  {
    hide Drawn, Stored, DrawRow, ContinueRow, Placed, BlankLine;
    PlacedBasics(start, base, pk, rows, bgs, n);
    if n < |rows| {
      var ln := lines[n];
      assert ln.wrapped == rows[n].wrapped by { StoredWrap(ln, rows[n], base.cols); }
      if n + 1 < |rows| {
        StoredWrap(lines[n + 1], rows[n + 1], base.cols);
      }
      if ln.wrapped {
        DrawnCount(start, base, pk, rows, bgs, n, prev);
        Advance(start, base, pk, rows, bgs, n, prev, ln);
        var (p1, scrub) := ContinueRow(pk, prev, ln, base.cols);
        var (p, end) := DrawRow(p1, ln, base.cols, scrub);
        DrawnPlaced(start, base, p, rows, bgs, n + 1, end);
        PlaceFrom(start, base, p, lines, rows, bgs, n + 1, end);
      } else if BlankLine(ln) && !Continues(lines, n + 1) {
        SkipPlaced(start, base, pk, rows, bgs, n, ln);
        PlaceFrom(start, base, pk, lines, rows, bgs, n + 1, prev);
      } else {
        CupPlaced(start, base, pk, rows, bgs, n, ln);
        var (p, end) := DrawRow(Emit(pk, Cup(n, 0)), ln, base.cols, false);
        DrawnPlaced(start, base, p, rows, bgs, n + 1, end);
        PlaceFrom(start, base, p, lines, rows, bgs, n + 1, end);
      }
    }
  }

  lemma PlacedBasics(start: Term, base: Term, pk: Pk, rows: seq<Row>, bgs: seq<Color>, n: nat)
    requires Placed(start, base, pk, rows, bgs, n)
    ensures n <= |rows| <= |bgs| && base.cols >= 1
  {
  }

  /** Rows placed from wherever the cursor stands on an untouched screen. */
  lemma PlaceShows(start: Term, base: Term, pk: Pk, lines: seq<Line>, rows: seq<Row>, bgs: seq<Color>)
    requires Canvased(base, rows, bgs) && 0 < |rows| <= |bgs| && pk.pen == DEFAULT_STYLE
    requires AllStored(lines, rows, base.cols)
    requires Shows(start, pk, base.(screen := RestRows(base.cols, bgs, 0), pen := DEFAULT_STYLE))
    ensures Placed(start, base, DrawRows(pk, lines, base.cols, true), rows, Shifted(rows, bgs), |rows|)
  {
    hide Exec, DrawRow, Items, Landed, LeadingContinuation;
    StoredWrap(lines[0], rows[0], base.cols);
    if rows[0].wrapped {
      FirstContinued(start, base, pk, rows, bgs, lines[0]);
      var (p1, scrub) := LeadingContinuation(pk, lines[0], base.cols);
      var (p, end) := DrawRow(p1, lines[0], base.cols, scrub);
      DrawnPlaced(start, base, p, rows, Shifted(rows, bgs), 1, end);
      PlaceFrom(start, base, p, lines, rows, Shifted(rows, bgs), 1, end);
    } else {
      assert DoneRows(rows, bgs, 0) + RestRows(base.cols, bgs, 0) == RestRows(base.cols, bgs, 0);
      assert Placed(start, base, pk, rows, bgs, 0) by {
        assert base.row < base.rows && base.col <= base.cols;
      }
      PlaceFrom(start, base, pk, lines, rows, bgs, 0, NO_END);
    }
  }
}
