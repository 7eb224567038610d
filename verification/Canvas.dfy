/** A terminal being drawn from the top: rows `done` so far, the rest of the screen still as it was.
    Rows beyond the height of the screen have scrolled into the history. */
module Canvas {
  import opened Terminal
  import opened Lines
  import opened Drawing
  import opened RowProofs

  ghost function Above(rows: nat, done: seq<Row>): (h: nat)
    ensures h <= |done|
  {
    if |done| > rows then |done| - rows else 0
  }

  /** The terminal with `done` drawn and the cursor on its last row. */
  ghost function At(base: Term, done: seq<Row>, rest: seq<Row>, col: nat, pen: Style): Term
    requires |done| > 0 && base.rows > 0
  {
    var h := Above(base.rows, done);
    base.(history := base.history + done[..h], screen := done[h..] + rest, row := |done| - 1 - h, col := col, pen := pen)
  }

  ghost predicate Wide(rows: seq<Row>, cols: nat) {
    forall r :: 0 <= r < |rows| ==> |rows[r].cells| == cols
  }

  /** A whole-screen scrolling region, with room left below or none; the alternate screen never scrolls. */
  ghost predicate Fits(base: Term, done: seq<Row>, rest: seq<Row>) {
    && base.Valid() && base.cols >= 2 && base.rows >= 2 && base.top == 0 && base.bot == base.rows - 1
    && |done| > 0 && Wide(done, base.cols) && Wide(rest, base.cols)
    && (if |done| <= base.rows then |done| + |rest| == base.rows else rest == [] && base.parked.NoParked?)
  }

  lemma AtValid(base: Term, done: seq<Row>, rest: seq<Row>, col: nat, pen: Style)
    requires Fits(base, done, rest) && col <= base.cols
    ensures At(base, done, rest, col, pen).Valid()
    ensures At(base, done, rest, col, pen).screen[At(base, done, rest, col, pen).row] == done[|done| - 1]
  {
  }

  /** Changing the row under the cursor changes the last row drawn. */
  lemma OnAt(base: Term, done: seq<Row>, last: Row, rest: seq<Row>, col: nat, pen: Style, cells: seq<Cell>, col': nat, pen': Style)
    requires Fits(base, done + [last], rest) && |cells| == base.cols
    ensures On(At(base, done + [last], rest, col, pen), cells, col', pen')
         == At(base, done + [last.(cells := cells)], rest, col', pen')
  {
    var a, b := done + [last], done + [last.(cells := cells)];
    var h := Above(base.rows, a);
    var row := |a| - 1 - h;
    assert a[..h] == b[..h];
    assert (a[h..] + rest)[row] == last;
    assert (a[h..] + rest)[row := last.(cells := cells)] == b[h..] + rest;
  }

  /** The row that comes under the cursor next: the screen's own, or one scrolled in. */
  ghost function Next(base: Term, rest: seq<Row>, bg: Color): Row {
    if rest != [] then rest[0] else BlankRow(base.cols, bg)
  }

  ghost function Remaining(rest: seq<Row>): seq<Row> {
    if rest != [] then rest[1..] else []
  }

  ghost predicate CanAdvance(base: Term, rest: seq<Row>) {
    rest == [] ==> base.parked.NoParked?
  }

  lemma ScrollAt(base: Term, done: seq<Row>, col: nat, pen: Style)
    requires Fits(base, done, []) && base.parked.NoParked? && col <= base.cols
    ensures At(base, done, [], col, pen).Valid()
    ensures ScrollUp(At(base, done, [], col, pen)) == At(base, done + [BlankRow(base.cols, pen.bg)], [], col, pen)
  {
    AtValid(base, done, [], col, pen);
    var t := At(base, done, [], col, pen);
    var blank := BlankRow(base.cols, pen.bg);
    var h := Above(base.rows, done);
    var b := done + [blank];
    assert t.screen == done[h..];
    assert b[..h + 1] == done[..h] + [done[h]];
    assert base.history + b[..h + 1] == base.history + done[..h] + [t.screen[0]];
    assert t.screen[..0] + t.screen[1..base.rows] + [blank] + t.screen[base.rows..] == b[h + 1..] + [];
  }

  lemma NewLineAt(base: Term, done: seq<Row>, rest: seq<Row>, col: nat, pen: Style)
    requires Fits(base, done, rest) && col <= base.cols && CanAdvance(base, rest)
    ensures At(base, done, rest, col, pen).Valid()
    ensures Step(At(base, done, rest, col, pen), CrLf)
         == At(base, done + [Next(base, rest, pen.bg).(wrapped := false)], Remaining(rest), 0, pen)
    ensures Fits(base, done + [Next(base, rest, pen.bg).(wrapped := false)], Remaining(rest))
  {
    hide ScrollUp;
    AtValid(base, done, rest, col, pen);
    AtValid(base, done, rest, 0, pen);
    if rest == [] {
      ScrollAt(base, done, 0, pen);
    } else {
      assert (done + rest)[|done| := rest[0].(wrapped := false)] == done + [rest[0].(wrapped := false)] + rest[1..];
      var b := done + [rest[0].(wrapped := false)];
      assert done[0..] == done && b[0..] == b;
    }
  }

  lemma FitsMore(base: Term, done: seq<Row>, last: Row, rest: seq<Row>, last': Row, next: Row)
    requires Fits(base, done + [last], rest) && CanAdvance(base, rest)
    requires |last'.cells| == |next.cells| == base.cols
    ensures Fits(base, done + [last', next], Remaining(rest))
  {
    forall r | 0 <= r < |done|
      ensures |done[r].cells| == base.cols
    {
      assert done[r] == (done + [last])[r];
    }
  }

  lemma WrapAtBottom(t: Term)
    requires t.Valid() && t.row == t.bot && t.top < t.bot
    ensures var u, b := ScrollUp(t), t.bot;
            var last := u.screen[b - 1].(cells := NullsFrom(u.screen[b - 1].cells, t.col, t.pen));
            Wrap(t) == u.(screen := u.screen[b := u.screen[b].(wrapped := true)][b - 1 := last], col := 0)
  {
    hide NullsFrom;
  }

  lemma WrapScrolls(base: Term, done: seq<Row>, last: Row, col: nat, pen: Style)
    requires Fits(base, done + [last], []) && col <= base.cols && base.parked.NoParked? && |last.cells| == base.cols
    ensures At(base, done + [last], [], col, pen).Valid()
    ensures Wrap(At(base, done + [last], [], col, pen))
         == At(base, done + [last.(cells := NullsFrom(last.cells, col, pen)), BlankRow(base.cols, pen.bg).(wrapped := true)], [], 0, pen)
  {
    hide ScrollUp, NullsFrom, Wrap, Blanks;
    var a := done + [last];
    var last' := last.(cells := NullsFrom(last.cells, col, pen));
    var blank := BlankRow(base.cols, pen.bg);
    var next := blank.(wrapped := true);
    var b, c := done + [last', next], a + [blank];
    ScrollAt(base, a, col, pen);
    AtValid(base, a, [], col, pen);
    WrapAtBottom(At(base, a, [], col, pen));
    var s := At(base, c, [], col, pen);
    var h := Above(base.rows, b);
    assert s.screen == c[h..] && c[h..][base.rows - 2] == last && c[h..][base.rows - 1] == blank;
    LastTwo(c, b, h, base.rows);
  }

  /** Two lists that differ in their last two elements, cut at the same place. */
  lemma LastTwo(c: seq<Row>, b: seq<Row>, h: nat, n: nat)
    requires 2 <= n && |c| == |b| == h + n && c[..h + n - 2] == b[..h + n - 2]
    ensures c[h..][n - 1 := b[h + n - 1]][n - 2 := b[h + n - 2]] == b[h..] + [] && c[..h] == b[..h]
  {
    assert forall i :: h <= i < h + n - 2 ==> c[i] == c[..h + n - 2][i] == b[i];
    assert c[..h] == c[..h + n - 2][..h];
  }

  lemma WrapDown(base: Term, done: seq<Row>, last: Row, rest: seq<Row>, col: nat, pen: Style)
    requires Fits(base, done + [last], rest) && col <= base.cols && rest != [] && |last.cells| == base.cols
    ensures At(base, done + [last], rest, col, pen).Valid()
    ensures Wrap(At(base, done + [last], rest, col, pen))
         == At(base, done + [last.(cells := NullsFrom(last.cells, col, pen)), rest[0].(wrapped := true)], rest[1..], 0, pen)
  {
    hide ScrollUp, NullsFrom;
    var a := done + [last];
    var last' := last.(cells := NullsFrom(last.cells, col, pen));
    var next := rest[0].(wrapped := true);
    var b := done + [last', next];
    AtValid(base, a, rest, col, pen);
    assert a[0..] == a && b[0..] == b && a[..0] == b[..0];
    assert (a + rest)[|a| := next][|a| - 1 := last'] == b + rest[1..];
  }

  lemma WrapAt(base: Term, done: seq<Row>, last: Row, rest: seq<Row>, col: nat, pen: Style)
    requires Fits(base, done + [last], rest) && col <= base.cols && CanAdvance(base, rest) && |last.cells| == base.cols
    ensures At(base, done + [last], rest, col, pen).Valid()
    ensures var last' := last.(cells := NullsFrom(last.cells, col, pen));
            var next := Next(base, rest, pen.bg).(wrapped := true);
            && Wrap(At(base, done + [last], rest, col, pen)) == At(base, done + [last', next], Remaining(rest), 0, pen)
            && Fits(base, done + [last', next], Remaining(rest))
  {
    hide Wrap, NullsFrom, At;
    FitsMore(base, done, last, rest, last.(cells := NullsFrom(last.cells, col, pen)), Next(base, rest, pen.bg).(wrapped := true));
    if rest == [] {
      WrapScrolls(base, done, last, col, pen);
    } else {
      WrapDown(base, done, last, rest, col, pen);
    }
  }

  /** Printing in the last column leaves the wrap pending; printing again joins the next row on. */
  lemma PrintWraps(base: Term, done: seq<Row>, last: Row, rest: seq<Row>, col: nat, pen: Style, g: Glyph)
    requires Fits(base, done + [last], rest) && CanAdvance(base, rest)
    requires col <= base.cols && col + g.Width() > base.cols
    requires |last.cells| == base.cols && (col > 0 ==> !last.cells[col - 1].WideLead())
    ensures At(base, done + [last], rest, col, pen).Valid()
    ensures var init := Next(base, rest, pen.bg).cells;
            |init| == base.cols
            && Step(At(base, done + [last], rest, col, pen), Print(g))
            == At(base, done + [last.(cells := NullsFrom(last.cells, col, pen)), Row(WriteCells(init, 0, g, pen), true)],
                  Remaining(rest), g.Width(), pen)
  {
    hide WriteCells, NullsFrom, Wrap;
    WrapAt(base, done, last, rest, col, pen);
    var t := At(base, done + [last], rest, col, pen);
    AtValid(base, done + [last], rest, col, pen);
    assert (done + [last])[|done|] == last;
    assert SetCells(t, last.cells) == t by {
      assert t.screen[t.row := t.screen[t.row].(cells := last.cells)] == t.screen;
    }
    var last' := last.(cells := NullsFrom(last.cells, col, pen));
    var next := Next(base, rest, pen.bg).(wrapped := true);
    var b := done + [last'];
    assert done + [last', next] == b + [next];
    AtValid(base, b + [next], Remaining(rest), 0, pen);
    OnAt(base, b, next, Remaining(rest), 0, pen, WriteCells(next.cells, 0, g, pen), g.Width(), pen);
    assert b + [next.(cells := WriteCells(next.cells, 0, g, pen))] == done + [last', Row(WriteCells(next.cells, 0, g, pen), true)];
  }

  /** The packer steps back up, erases the placeholder in the last cell, and comes down again. */
  function StepBack(pk: Pk, cols: nat, bg: Color): Pk
    requires cols >= 1
  {
    var p2 := Emit(SetPen(Emit(Emit(pk, Cuu), Cha(cols - 1)), Erased(bg)), Ech(1));
    Emit(Emit(SetPen(p2, DEFAULT_STYLE), Cud), Cha(0))
  }

  /** Up to the last column of the row above, that cell erased, and down again to the first column. */
  lemma BackAndErase(start: Term, pk: Pk, t: Term, bg: Color)
    requires Shows(start, pk, t) && t.pen == DEFAULT_STYLE && t.top == 0 < t.row && t.row <= t.bot == t.rows - 1
    ensures var above := t.screen[t.row - 1];
            var erased := above.(cells := EraseCells(above.cells, t.cols - 1, 1, Erased(bg)));
            Shows(start, StepBack(pk, t.cols, bg), t.(screen := t.screen[t.row - 1 := erased], col := 0))
  {
    hide EraseCells, Exec, Emit;
    var cols := t.cols;
    var above := t.screen[t.row - 1];
    var up := t.(row := t.row - 1, col := cols - 1);
    ShowsEmit(start, pk, t, Cuu);
    ShowsEmit(start, Emit(pk, Cuu), t.(row := t.row - 1, col := Min(t.col, cols - 1)), Cha(cols - 1));
    var p1 := Emit(Emit(pk, Cuu), Cha(cols - 1));
    ShowsPen(start, p1, up, Erased(bg));
    var p2 := SetPen(p1, Erased(bg));
    assert On(up, above.cells, cols - 1, Erased(bg)) == up.(pen := Erased(bg)) by {
      assert up.screen[up.row := up.screen[up.row].(cells := above.cells)] == up.screen;
    }
    EraseShows(start, p2, up, above.cells, cols - 1, 1);
    var t3 := On(up, EraseCells(above.cells, cols - 1, 1, Erased(bg)), cols - 1, Erased(bg));
    ComeDown(start, Emit(p2, Ech(1)), t3);
  }

  lemma ComeDown(start: Term, pk: Pk, t: Term)
    requires Shows(start, pk, t) && t.row < t.bot == t.rows - 1 && t.col == t.cols - 1
    ensures Shows(start, Emit(Emit(SetPen(pk, DEFAULT_STYLE), Cud), Cha(0)), t.(row := t.row + 1, col := 0, pen := DEFAULT_STYLE))
  {
    hide Exec, Emit;
    ShowsPen(start, pk, t, DEFAULT_STYLE);
    var p, t1 := SetPen(pk, DEFAULT_STYLE), t.(pen := DEFAULT_STYLE);
    ShowsEmit(start, p, t1, Cud);
    ShowsEmit(start, Emit(p, Cud), t1.(row := t.row + 1), Cha(0));
  }

  lemma StepBackShows(start: Term, base: Term, pk: Pk, done: seq<Row>, a: Row, b: Row, rest: seq<Row>, col: nat, bg: Color)
    requires Fits(base, done + [a, b], rest) && col <= base.cols && |a.cells| == base.cols
    requires Shows(start, pk, At(base, done + [a, b], rest, col, DEFAULT_STYLE))
    ensures Shows(start, StepBack(pk, base.cols, bg),
                  At(base, done + [a.(cells := EraseCells(a.cells, base.cols - 1, 1, Erased(bg))), b], rest, 0, DEFAULT_STYLE))
  {
    hide EraseCells, Exec, StepBack;
    var t := At(base, done + [a, b], rest, col, DEFAULT_STYLE);
    var h := Above(base.rows, done + [a, b]);
    assert t.screen[t.row - 1] == a by {
      assert (done + [a, b])[|done|] == a;
    }
    BackAndErase(start, pk, t, bg);
    var erased := a.(cells := EraseCells(a.cells, base.cols - 1, 1, Erased(bg)));
    var c := done + [erased, b];
    assert t.screen[t.row - 1 := erased] == c[h..] + rest && c[..h] == (done + [a, b])[..h];
  }

  lemma LastSpace(start: Term, base: Term, pk: Pk, done: seq<Row>, last: Row, rest: seq<Row>)
    requires Fits(base, done + [last], rest) && |last.cells| == base.cols
    requires !last.cells[base.cols - 2].WideLead() && pk.pen == DEFAULT_STYLE
    requires Shows(start, pk, At(base, done + [last], rest, base.cols - 1, DEFAULT_STYLE))
    ensures Shows(start, Emit(pk, Print(SPACE)),
                  At(base, done + [last.(cells := last.cells[base.cols - 1 := Lead(SPACE, DEFAULT_STYLE)])], rest, base.cols, DEFAULT_STYLE))
  {
    hide Step;
    var cols := base.cols;
    var t := At(base, done + [last], rest, cols - 1, DEFAULT_STYLE);
    AtValid(base, done + [last], rest, cols - 1, DEFAULT_STYLE);
    OnAt(base, done, last, rest, cols - 1, DEFAULT_STYLE, last.cells, cols - 1, DEFAULT_STYLE);
    assert last.(cells := last.cells) == last;
    var put := last.cells[cols - 1 := Lead(SPACE, DEFAULT_STYLE)];
    assert WriteCells(Unpaired(last.cells, cols - 1, DEFAULT_STYLE), cols - 1, SPACE, DEFAULT_STYLE) == put;
    hide WriteCells, Unpaired;
    PrintShows(start, pk, t, last.cells, cols - 1, SPACE);
    OnAt(base, done, last, rest, cols - 1, DEFAULT_STYLE, put, cols, DEFAULT_STYLE);
  }

  /** A space printed with the wrap pending: the next row is joined on, holding a placeholder. */
  lemma WrapSpace(start: Term, base: Term, pk: Pk, done: seq<Row>, last: Row, rest: seq<Row>)
    requires Fits(base, done + [last], rest) && CanAdvance(base, rest) && |last.cells| == base.cols
    requires !last.cells[base.cols - 1].WideLead() && pk.pen == DEFAULT_STYLE
    requires Clean(Next(base, rest, Default).cells)
    requires Shows(start, pk, At(base, done + [last], rest, base.cols, DEFAULT_STYLE))
    ensures |Next(base, rest, Default).cells| == base.cols
    ensures Shows(start, Emit(pk, Print(SPACE)),
                  At(base, done + [last, Row(Next(base, rest, Default).cells[0 := Lead(SPACE, DEFAULT_STYLE)], true)],
                     Remaining(rest), 1, DEFAULT_STYLE))
  {
    hide Step, At;
    var cols := base.cols;
    PrintWraps(base, done, last, rest, cols, DEFAULT_STYLE, SPACE);
    ShowsEmit(start, pk, At(base, done + [last], rest, cols, DEFAULT_STYLE), Print(SPACE));
    assert NullsFrom(last.cells, cols, DEFAULT_STYLE) == last.cells;
    assert last.(cells := last.cells) == last;
    var init := Next(base, rest, Default).cells;
    assert !init[1].Tail? && |init| == cols;
    assert WriteCells(init, 0, SPACE, DEFAULT_STYLE) == init[0 := Lead(SPACE, DEFAULT_STYLE)];
    AtPen(base, done + [last, Row(init[0 := Lead(SPACE, DEFAULT_STYLE)], true)], Remaining(rest), 1, DEFAULT_STYLE);
  }

  lemma AtPen(base: Term, done: seq<Row>, rest: seq<Row>, col: nat, pen: Style)
    requires |done| > 0 && base.rows > 0
    ensures At(base, done, rest, col, pen).pen == pen
  {
  }

  lemma FitsTop(base: Term, row: Row, rest: seq<Row>)
    requires Fits(base, [row], rest) && rest != []
    ensures base.cols >= 2 && |row.cells| == |rest[0].cells| == base.cols && CanAdvance(base, rest)
    ensures Next(base, rest, Default) == rest[0] && Remaining(rest) == rest[1..]
    ensures forall top: Row :: |top.cells| == base.cols ==> Fits(base, [top], rest)
  {
    assert [row][0] == row;
  }

  lemma FitsPair(base: Term, top: Row, next: Row, rest: seq<Row>)
    requires rest != [] && Fits(base, [top], rest) && |next.cells| == base.cols
    ensures Fits(base, [top, next], rest[1..])
  {
    var both := [top, next];
    assert [top][0] == both[0] && both[1] == next;
  }

  /** A dummy row is wrapped from and deleted, which moves the continued row up into its place. */
  lemma LeadingShows(start: Term, base: Term, pk: Pk, row: Row, rest: seq<Row>, ln: Line)
    requires Fits(base, [row], rest) && pk.pen == DEFAULT_STYLE && Clean(row.cells)
    requires rest != [] && Clean(rest[0].cells)
    requires Shows(start, pk, At(base, [row], rest, 0, DEFAULT_STYLE).(row := base.row, col := base.col))
    ensures |rest[0].cells| == base.cols
    ensures Shows(start, LeadingContinuation(pk, ln, base.cols).0,
                  At(base, [Row(rest[0].cells[0 := Lead(SPACE, DEFAULT_STYLE)], true)], rest[1..] + [BlankRow(base.cols, Default)], 0, DEFAULT_STYLE))
  {
    hide At, Exec, FirstCell, Fits, Emit, Blanks;
    FitsTop(base, row, rest);
    var cols := base.cols;
    var none: seq<Row> := [];
    assert [row] == none + [row] && [row][0] == row;
    AtCup(start, base, pk, [row], rest, cols - 1);
    var p1 := Emit(pk, Cup(0, cols - 1));
    LastSpace(start, base, p1, none, row, rest);
    var p2 := Emit(p1, Print(SPACE));
    var full := row.(cells := row.cells[cols - 1 := Lead(SPACE, DEFAULT_STYLE)]);
    assert none + [full] == [full];
    WrapSpace(start, base, p2, none, full, rest);
    var p3 := Emit(p2, Print(SPACE));
    var next := Row(rest[0].cells[0 := Lead(SPACE, DEFAULT_STYLE)], true);
    assert none + [full, next] == [full, next];
    FitsPair(base, full, next, rest);
    DeleteTop(start, base, p3, full, next, rest[1..]);
  }

  /** CUP to a place on the first row, from wherever the cursor stands. */
  lemma AtCup(start: Term, base: Term, pk: Pk, done: seq<Row>, rest: seq<Row>, to: nat)
    requires Fits(base, done, rest) && |done| == 1 && to < base.cols
    requires Shows(start, pk, At(base, done, rest, 0, DEFAULT_STYLE).(row := base.row, col := base.col))
    ensures Shows(start, Emit(pk, Cup(0, to)), At(base, done, rest, to, DEFAULT_STYLE))
  {
    ShowsEmit(start, pk, At(base, done, rest, 0, DEFAULT_STYLE).(row := base.row, col := base.col), Cup(0, to));
  }

  lemma TopDeleted(both: seq<Row>, top: Row, next: Row, rest: seq<Row>, blank: Row, n: nat)
    requires both == [top, next] + rest && |both| == n
    ensures both[..0] + both[1..n] + [blank] + both[n..] == [next] + (rest + [blank])
  {
    assert both[1..n] == [next] + rest && both[n..] == [];
  }

  lemma DeleteTop(start: Term, base: Term, pk: Pk, top: Row, next: Row, rest: seq<Row>)
    requires Fits(base, [top, next], rest)
    requires Shows(start, pk, At(base, [top, next], rest, 1, DEFAULT_STYLE))
    ensures Shows(start, Emit(Emit(pk, Cup(0, 0)), Dl),
                  At(base, [next], rest + [BlankRow(base.cols, Default)], 0, DEFAULT_STYLE))
  {
    hide Exec, Blanks, Emit;
    var both, one := [top, next], [next];
    var blank := BlankRow(base.cols, Default);
    assert both[0..] == both && both[..0] == [] && one[0..] == one && one[..0] == [];
    var t := At(base, both, rest, 1, DEFAULT_STYLE);
    ShowsEmit(start, pk, t, Cup(0, 0));
    var t1 := t.(row := 0, col := 0);
    ShowsEmit(start, Emit(pk, Cup(0, 0)), t1, Dl);
    assert t1.screen == both + rest && |t1.screen| == base.rows;
    TopDeleted(t1.screen, top, next, rest, blank, base.rows);
  }
}
