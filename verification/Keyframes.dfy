/** A keyframe written out as terminal output and executed on a cleared terminal. */
module Keyframes {
  import opened Common
  import opened Folds
  import opened Terminal
  import opened Lines
  import opened Drawing
  import opened RowProofs
  import opened Canvas
  import opened RowsProofs

  // ---- what is written ----

  function StartPk(): Pk {
    Pk([Sgr(DEFAULT_STYLE), Cup(0, 0)], DEFAULT_STYLE)
  }

  function NormalScreen(t: Term): seq<Row> {
    if t.parked.Parked? then t.parked.screen else t.screen
  }

  function SetRegion(pk: Pk, top: nat, bot: nat, rows: nat): Pk {
    if top != 0 || bot != rows - 1 then Emit(pk, Region(top, bot)) else pk
  }

  /** The switch to the alternate screen, which saves the cursor and the pen it leaves, and a pen reset. */
  function SwitchScreen(pk: Pk): Pk {
    Pk(pk.out + [EnterAlt] + [Sgr(DEFAULT_STYLE)], DEFAULT_STYLE)
  }

  function PlaceAndPen(pk: Pk, lines: seq<Line>, row: nat, col: nat, pen: Style, cols: nat): Pk
    requires cols >= 1
  {
    SetPen(PlaceCursor(pk, lines, row, col, cols), pen)
  }

  function WriteScreens(t: Term): Pk
    requires t.cols >= 1 && t.rows >= 1
  {
    var p1 := DrawRows(StartPk(), EncodeAll(t.history) + EncodeAll(NormalScreen(t)), t.cols, false);
    if t.parked.Parked? then
      var k := t.parked;
      var p2 := PlaceAndPen(SetRegion(p1, k.top, k.bot, t.rows), EncodeAll(k.screen), k.row, k.col, k.pen, t.cols);
      DrawRows(SwitchScreen(p2), EncodeAll(t.screen), t.cols, true)
    else p1
  }

  function WriteSaved(pk: Pk, t: Term): Pk
    requires t.cols >= 1 && t.rows >= 1
  {
    if t.saved != Slot(0, 0, DEFAULT_STYLE) then
      Emit(PlaceAndPen(pk, EncodeAll(t.screen), Min(t.saved.row, t.rows - 1), t.saved.col, t.saved.pen, t.cols), SaveCursor)
    else pk
  }

  /** Everything written for the state `t`: rows, regions, the parked screen, cursors and pen. */
  function Keyframe(t: Term): Pk
    requires t.cols >= 1 && t.rows >= 1
  {
    var p := WriteSaved(SetRegion(WriteScreens(t), t.top, t.bot, t.rows), t);
    PlaceAndPen(p, EncodeAll(t.screen), t.row, t.col, t.pen, t.cols)
  }

  // ---- placing the cursor ----

  /** Where a cursor comes to stand: waiting past the last column only behind a written cell. */
  function CursorCol(rows: seq<Row>, row: nat, col: nat, cols: nat): nat
    requires cols >= 1 && row < |rows| && |rows[row].cells| == cols
  {
    if col < cols then col else if rows[row].cells[cols - 1].Null? then cols - 1 else cols
  }

  lemma {:induction false} LastCharTells(its: seq<Item>, col: nat, cols: nat)
    requires col + |Flat(its)| <= cols
    ensures match LastChar(its, col, cols)
            case Some(c) => col <= c.0 && c.0 + c.1.Width() == cols == col + |Flat(its)| && Flat(its)[c.0 - col] == Lead(c.1, c.2)
            case None => Flat(its) == [] || col + |Flat(its)| < cols || Flat(its)[|Flat(its)| - 1].Null?
    decreases |its|
  {
    if its != [] {
      var w := its[0].Width();
      assert Flat(its) == CellsOf(its[0]) + Flat(its[1..]);
      if !(its[0].Char? && col + w == cols) {
        LastCharTells(its[1..], col + w, cols);
      }
    }
  }

  /** The written cells are the same; where one is empty the other is. */
  ghost predicate SameWritten(a: seq<Cell>, b: seq<Cell>) {
    |a| == |b| && forall c :: 0 <= c < |a| ==> (if b[c].Null? then a[c].Null? else a[c] == b[c])
  }

  ghost predicate Agree(screen: seq<Row>, rows: seq<Row>) {
    |screen| == |rows| && forall r :: 0 <= r < |rows| ==> SameWritten(screen[r].cells, rows[r].cells)
  }

  /** Writing the last character of a row again changes nothing and leaves the wrap pending. */
  lemma RewriteSame(cells: seq<Cell>, row: seq<Cell>, c: nat, g: Glyph, st: Style)
    requires Whole(row) && SameWritten(cells, row) && c + g.Width() == |row| && row[c] == Lead(g, st)
    ensures WriteCells(Unpaired(cells, c, st), c, g, st) == cells
  {
    if c > 0 {
      assert !row[c - 1].WideLead() && !cells[c - 1].WideLead();
    }
    assert Unpaired(cells, c, st) == cells;
  }

  lemma PlaceCursorShows(start: Term, t: Term, pk: Pk, lines: seq<Line>, rows: seq<Row>, row: nat, col: nat)
    requires Shows(start, pk, t) && AllStored(lines, rows, t.cols) && Agree(t.screen, rows) && row < t.rows
    ensures var p := PlaceCursor(pk, lines, row, col, t.cols);
            Shows(start, p, t.(row := row, col := CursorCol(rows, row, col, t.cols), pen := p.pen))
  {
    hide Exec, WriteCells, Unpaired;
    var cols := t.cols;
    if col < cols {
      ShowsEmit(start, pk, t, Cup(row, col));
    } else {
      assert Stored(lines[row], rows[row], cols);
      var its := Items(lines[row], cols);
      LastCharTells(its, 0, cols);
      match LastChar(its, 0, cols)
      case None =>
        assert rows[row].cells[cols - 1].Null?;
        ShowsEmit(start, pk, t, Cup(row, cols - 1));
      case Some(c) =>
        assert rows[row].cells == Flat(its);
        ShowsEmit(start, pk, t, Cup(row, c.0));
        var p1, t1 := Emit(pk, Cup(row, c.0)), t.(row := row, col := c.0);
        ShowsPen(start, p1, t1, c.2);
        var p2, t2 := SetPen(p1, c.2), t1.(pen := c.2);
        var cells := t.screen[row].cells;
        assert SameWritten(cells, rows[row].cells);
        OnSame(t2);
        PrintShows(start, p2, t2, cells, c.0, c.1);
        RewriteSame(cells, rows[row].cells, c.0, c.1, c.2);
    }
  }

  lemma OnSame(t: Term)
    requires t.row < |t.screen|
    ensures forall col, pen :: On(t, t.screen[t.row].cells, col, pen) == t.(col := col, pen := pen)
  {
    assert t.screen[t.row := t.screen[t.row].(cells := t.screen[t.row].cells)] == t.screen;
  }

  lemma PlaceAndPenShows(start: Term, t: Term, pk: Pk, lines: seq<Line>, rows: seq<Row>, row: nat, col: nat, pen: Style)
    requires Shows(start, pk, t) && AllStored(lines, rows, t.cols) && Agree(t.screen, rows) && row < t.rows
    ensures Shows(start, PlaceAndPen(pk, lines, row, col, pen, t.cols),
                  t.(row := row, col := CursorCol(rows, row, col, t.cols), pen := pen))
  {
    hide Exec, PlaceCursor;
    PlaceCursorShows(start, t, pk, lines, rows, row, col);
    var p := PlaceCursor(pk, lines, row, col, t.cols);
    ShowsPen(start, p, t.(row := row, col := CursorCol(rows, row, col, t.cols), pen := p.pen), pen);
  }

  lemma LandedAgrees(row: Row, cells: seq<Cell>, bg: Color, joined: bool)
    requires SameWritten(cells, row.cells)
    ensures SameWritten(Landed(row, cells, bg, joined).cells, row.cells)
  {
    hide Wet;
  }

  // ---- what it makes of a terminal ----

  /** A state a restore is made of: whole characters, on a grid of two rows and columns or more. */
  ghost predicate Restorable(t: Term) {
    && t.Valid() && t.cols >= 2 && t.rows >= 2 && t.top < t.bot
    && Grid(t.history, t.cols) && Grid(t.screen, t.cols)
    && t.saved.row < t.rows && t.saved.col <= t.cols
    && (t.parked.Parked? ==>
          var k := t.parked;
          |k.screen| == t.rows && Grid(k.screen, t.cols) && k.row < t.rows && k.col <= t.cols && k.top < k.bot < t.rows)
  }

  ghost function Grounds(n: nat, bg: Color): seq<Color> {
    seq(n, i => bg)
  }

  /** History and normal screen as the restored terminal holds them. */
  ghost function FlowRows(t: Term): (r: seq<Row>)
    requires Restorable(t)
    ensures |r| == |t.history| + t.rows
  {
    var all := t.history + NormalScreen(t);
    DoneRows(all, Shifted(all, Grounds(t.rows, Default)), |all|)
  }

  /** The displayed screen: the normal one, or the alternate one, which comes up in the background of
      the pen that was parked with the normal one. */
  ghost function DisplayedRows(t: Term): (r: seq<Row>)
    requires Restorable(t)
    ensures |r| == t.rows
  {
    if t.parked.Parked? then
      DoneRows(t.screen, Shifted(t.screen, Grounds(t.rows, t.parked.pen.bg)), t.rows)
    else FlowRows(t)[|t.history|..]
  }

  /** The state the restored terminal is in. */
  ghost function Restored(t: Term): Term
    requires Restorable(t)
  {
    t.(history := FlowRows(t)[..|t.history|],
       screen := DisplayedRows(t),
       col := CursorCol(t.screen, t.row, t.col, t.cols),
       saved := t.saved.(col := CursorCol(t.screen, t.saved.row, t.saved.col, t.cols)),
       parked := if t.parked.NoParked? then NoParked
                 else t.parked.(screen := FlowRows(t)[|t.history|..],
                                col := CursorCol(t.parked.screen, t.parked.row, t.parked.col, t.cols)))
  }

  lemma StoredAll(rows: seq<Row>, cols: nat)
    requires cols > 0 && Grid(rows, cols)
    ensures AllStored(EncodeAll(rows), rows, cols)
  {
    hide Stored, Encode;
    forall i | 0 <= i < |rows|
      ensures Stored(EncodeAll(rows)[i], rows[i], cols)
    {
      EncodeStored(rows[i], cols);
    }
  }

  lemma StoredBoth(a: seq<Row>, b: seq<Row>, cols: nat)
    requires cols > 0 && Grid(a, cols) && Grid(b, cols)
    ensures AllStored(EncodeAll(a) + EncodeAll(b), a + b, cols)
  {
    hide Stored, Encode;
    StoredAll(a, cols);
    StoredAll(b, cols);
    var lines, rows := EncodeAll(a) + EncodeAll(b), a + b;
    forall i | 0 <= i < |rows|
      ensures Stored(lines[i], rows[i], cols)
    {
      if i < |a| {
        assert lines[i] == EncodeAll(a)[i] && rows[i] == a[i];
      } else {
        assert lines[i] == EncodeAll(b)[i - |a|] && rows[i] == b[i - |a|];
      }
    }
  }

  lemma LeftAgrees(rows: seq<Row>, i: nat)
    requires i < |rows| && forall k :: 0 <= k < |rows| ==> |rows[k].cells| > 0
    ensures SameWritten(Left(rows, |rows|, i), rows[i].cells)
  {
    hide RunsOn, InkAt;
    var cells := rows[i].cells;
    forall c | 0 <= c < |cells|
      ensures if cells[c].Null? then Drawable(cells)[c].Null? else Drawable(cells)[c] == cells[c]
    {
      InkSame(cells, c, DEFAULT_STYLE, false);
    }
  }

  lemma ShownAgrees(rows: seq<Row>, bgs: seq<Color>, from: nat)
    requires from <= |rows| && forall k :: 0 <= k < |rows| ==> |rows[k].cells| > 0
    ensures Agree(DoneRows(rows, bgs, |rows|)[from..], rows[from..])
  {
    hide Landed, Ground;
    var done := DoneRows(rows, bgs, |rows|);
    forall r | from <= r < |rows|
      ensures SameWritten(done[r].cells, rows[r].cells)
    {
      LeftAgrees(rows, r);
      LandedAgrees(rows[r], Left(rows, |rows|, r), Ground(rows, bgs, r), r + 1 < |rows| && rows[r + 1].wrapped);
    }
  }

  lemma StartShows(rows: nat, cols: nat)
    requires rows >= 2 && cols >= 2
    ensures Untouched(Fresh(rows, cols), Fresh(rows, cols), StartPk(), Grounds(rows, Default))
    ensures Shows(Fresh(rows, cols), StartPk(), Fresh(rows, cols))
  {
    var f := Fresh(rows, cols);
    assert f.Valid();
    assert Exec(f, []) == f;
    var none := Pk([], DEFAULT_STYLE);
    FoldOne(Apply, f, [], Sgr(DEFAULT_STYLE));
    assert [] + [Sgr(DEFAULT_STYLE)] == [Sgr(DEFAULT_STYLE)];
    var p := Pk([Sgr(DEFAULT_STYLE)], DEFAULT_STYLE);
    assert Shows(f, p, f);
    ShowsEmit(f, p, f, Cup(0, 0));
    assert Emit(p, Cup(0, 0)) == StartPk();
    assert f.(screen := RestRows(cols, Grounds(rows, Default), 0), pen := DEFAULT_STYLE) == f by {
      assert RestRows(cols, Grounds(rows, Default), 0) == BlankScreen(rows, cols, Default);
    }
  }

  /** History and normal screen, drawn as one run of rows. */
  ghost function Flowed(t: Term, col: nat): Term
    requires Restorable(t)
  {
    Fresh(t.rows, t.cols).(history := FlowRows(t)[..|t.history|], screen := FlowRows(t)[|t.history|..],
                           row := t.rows - 1, col := col)
  }

  lemma FlowedShows(t: Term)
    requires Restorable(t)
    ensures exists col: nat ::
      Shows(Fresh(t.rows, t.cols), DrawRows(StartPk(), EncodeAll(t.history) + EncodeAll(NormalScreen(t)), t.cols, false), Flowed(t, col))
  {
    hide Exec, Stored, Landed, DrawRows, Encode;
    var f, all := Fresh(t.rows, t.cols), t.history + NormalScreen(t);
    var lines, bgs := EncodeAll(t.history) + EncodeAll(NormalScreen(t)), Grounds(t.rows, Default);
    StartShows(t.rows, t.cols);
    StoredBoth(t.history, NormalScreen(t), t.cols);
    assert Canvased(f, all, bgs);
    FlowShows(f, f, StartPk(), lines, all, bgs);
    var end :| Drawn(f, f, DrawRows(StartPk(), lines, t.cols, false), all, Shifted(all, bgs), |all|, end);
    var done := DoneRows(all, Shifted(all, bgs), |all|);
    var h := |t.history|;
    assert Above(t.rows, done) == h;
    assert f.history + done[..h] == done[..h] && done[h..] + [] == done[h..];
    assert At(f, done, RestRows(t.cols, Shifted(all, bgs), |all|), end.x, DEFAULT_STYLE) == Flowed(t, end.x);
  }

  lemma RegionShows(start: Term, t: Term, pk: Pk, top: nat, bot: nat)
    requires Shows(start, pk, t) && top < bot < t.rows && t.top == 0 && t.bot == t.rows - 1
    ensures exists row: nat, col: nat :: row < t.rows && Shows(start, SetRegion(pk, top, bot, t.rows), t.(top := top, bot := bot, row := row, col := col))
  {
    if top != 0 || bot != t.rows - 1 {
      ShowsEmit(start, pk, t, Region(top, bot));
      assert Shows(start, SetRegion(pk, top, bot, t.rows), t.(top := top, bot := bot, row := 0, col := 0));
    } else {
      assert t == t.(top := top, bot := bot, row := t.row, col := t.col);
    }
  }

  /** What the switch to the alternate screen leaves. */
  ghost function Switched(t: Term): Term
    requires Restorable(t) && t.parked.Parked?
  {
    var k := t.parked;
    var f := Fresh(t.rows, t.cols);
    f.(history := FlowRows(t)[..|t.history|], screen := BlankScreen(t.rows, t.cols, k.pen.bg),
       row := k.row, col := CursorCol(k.screen, k.row, k.col, t.cols), parked := Restored(t).parked)
  }

  lemma SwitchShows(t: Term, pk: Pk, col: nat)
    requires Restorable(t) && t.parked.Parked? && Shows(Fresh(t.rows, t.cols), pk, Flowed(t, col))
    ensures var k := t.parked;
            Shows(Fresh(t.rows, t.cols),
                  SwitchScreen(PlaceAndPen(SetRegion(pk, k.top, k.bot, t.rows), EncodeAll(k.screen), k.row, k.col, k.pen, t.cols)),
                  Switched(t))
  {
    hide Exec, Stored, DoneRows, PlaceAndPen, Encode, FlowRows;
    var f, k := Fresh(t.rows, t.cols), t.parked;
    var t0 := Flowed(t, col);
    RegionShows(f, t0, pk, k.top, k.bot);
    var p1 := SetRegion(pk, k.top, k.bot, t.rows);
    var r: nat, c: nat :| r < t.rows && Shows(f, p1, t0.(top := k.top, bot := k.bot, row := r, col := c));
    var t1 := t0.(top := k.top, bot := k.bot, row := r, col := c);
    StoredAll(k.screen, t.cols);
    FlowAgrees(t);
    PlaceAndPenShows(f, t1, p1, EncodeAll(k.screen), k.screen, k.row, k.col, k.pen);
    var p2 := PlaceAndPen(p1, EncodeAll(k.screen), k.row, k.col, k.pen, t.cols);
    var t2 := t1.(row := k.row, col := CursorCol(k.screen, k.row, k.col, t.cols), pen := k.pen);
    ShowsEmit(f, p2, t2, EnterAlt);
    var p3 := Emit(p2, EnterAlt);
    ShowsReset(f, p3, Step(t2, EnterAlt), DEFAULT_STYLE);
    assert Step(t2, EnterAlt).(pen := DEFAULT_STYLE) == Switched(t);
    assert SwitchScreen(p2) == Pk(p3.out + [Sgr(DEFAULT_STYLE)], DEFAULT_STYLE);
  }

  lemma FlowAgrees(t: Term)
    requires Restorable(t)
    ensures Agree(FlowRows(t)[|t.history|..], NormalScreen(t))
  {
    hide Landed;
    var all := t.history + NormalScreen(t);
    ShownAgrees(all, Shifted(all, Grounds(t.rows, Default)), |t.history|);
    assert all[|t.history|..] == NormalScreen(t);
  }

  lemma DisplayedAgrees(t: Term)
    requires Restorable(t)
    ensures Agree(DisplayedRows(t), t.screen)
  {
    hide Landed;
    if t.parked.Parked? {
      ShownAgrees(t.screen, Shifted(t.screen, Grounds(t.rows, t.parked.pen.bg)), 0);
      var done := DoneRows(t.screen, Shifted(t.screen, Grounds(t.rows, t.parked.pen.bg)), |t.screen|);
      assert done[0..] == done && t.screen[0..] == t.screen;
    } else {
      FlowAgrees(t);
    }
  }

  /** Both screens as they come out, before the regions and cursors of the displayed one. */
  ghost function Screens(t: Term, row: nat, col: nat): Term
    requires Restorable(t)
  {
    Fresh(t.rows, t.cols).(history := FlowRows(t)[..|t.history|], screen := DisplayedRows(t),
                           parked := Restored(t).parked, row := row, col := col)
  }

  lemma ScreensShow(t: Term)
    requires Restorable(t)
    ensures exists row: nat, col: nat :: row < t.rows && Shows(Fresh(t.rows, t.cols), WriteScreens(t), Screens(t, row, col))
  {
    hide Exec, Stored, DoneRows, PlaceAndPen, Encode, FlowRows, DrawRows;
    var f := Fresh(t.rows, t.cols);
    FlowedShows(t);
    var p1 := DrawRows(StartPk(), EncodeAll(t.history) + EncodeAll(NormalScreen(t)), t.cols, false);
    var col: nat :| Shows(f, p1, Flowed(t, col));
    if t.parked.NoParked? {
      assert Screens(t, t.rows - 1, col) == Flowed(t, col);
    } else {
      SwitchShows(t, p1, col);
      var k := t.parked;
      var p2 := SwitchScreen(PlaceAndPen(SetRegion(p1, k.top, k.bot, t.rows), EncodeAll(k.screen), k.row, k.col, k.pen, t.cols));
      AlternateShows(t, p2);
    }
  }

  lemma AlternateShows(t: Term, pk: Pk)
    requires Restorable(t) && t.parked.Parked? && Shows(Fresh(t.rows, t.cols), pk, Switched(t))
    ensures exists row: nat, col: nat :: row < t.rows
              && Shows(Fresh(t.rows, t.cols), DrawRows(pk, EncodeAll(t.screen), t.cols, true), Screens(t, row, col))
  {
    hide Exec, Stored, Encode, FlowRows, DrawRows, Landed, Ground;
    var f, base, bgs := Fresh(t.rows, t.cols), Switched(t), Grounds(t.rows, t.parked.pen.bg);
    StoredAll(t.screen, t.cols);
    assert Canvased(base, t.screen, bgs);
    assert RestRows(t.cols, bgs, 0) == BlankScreen(t.rows, t.cols, t.parked.pen.bg);
    assert base.(screen := RestRows(t.cols, bgs, 0), pen := DEFAULT_STYLE) == base;
    PlaceShows(f, base, pk, EncodeAll(t.screen), t.screen, bgs);
    var bgs' := Shifted(t.screen, bgs);
    var r: nat, c: nat :| r < t.rows && c <= t.cols
      && Shows(f, DrawRows(pk, EncodeAll(t.screen), t.cols, true),
               base.(screen := DoneRows(t.screen, bgs', t.rows) + RestRows(t.cols, bgs', t.rows), row := r, col := c, pen := DEFAULT_STYLE));
    assert DoneRows(t.screen, bgs', t.rows) + RestRows(t.cols, bgs', t.rows) == DisplayedRows(t);
    assert Screens(t, r, c) == base.(screen := DisplayedRows(t), row := r, col := c, pen := DEFAULT_STYLE);
  }

  lemma SavedShows(t: Term, pk: Pk, row: nat, col: nat)
    requires Restorable(t) && row < t.rows
    requires Shows(Fresh(t.rows, t.cols), pk, Screens(t, row, col).(top := t.top, bot := t.bot))
    ensures exists r: nat, c: nat, pen :: r < t.rows
              && Shows(Fresh(t.rows, t.cols), WriteSaved(pk, t),
                       Screens(t, r, c).(top := t.top, bot := t.bot, saved := Restored(t).saved, pen := pen))
  {
    hide Exec, Stored, PlaceAndPen, Encode, FlowRows, DisplayedRows;
    var f := Fresh(t.rows, t.cols);
    var t0 := Screens(t, row, col).(top := t.top, bot := t.bot);
    if t.saved != Slot(0, 0, DEFAULT_STYLE) {
      StoredAll(t.screen, t.cols);
      DisplayedAgrees(t);
      PlaceAndPenShows(f, t0, pk, EncodeAll(t.screen), t.screen, t.saved.row, t.saved.col, t.saved.pen);
      var p1 := PlaceAndPen(pk, EncodeAll(t.screen), t.saved.row, t.saved.col, t.saved.pen, t.cols);
      var c := CursorCol(t.screen, t.saved.row, t.saved.col, t.cols);
      var t1 := t0.(row := t.saved.row, col := c, pen := t.saved.pen);
      ShowsEmit(f, p1, t1, SaveCursor);
      assert Min(t.saved.row, t.rows - 1) == t.saved.row;
      assert Step(t1, SaveCursor) == Screens(t, t.saved.row, c).(top := t.top, bot := t.bot, saved := Restored(t).saved, pen := t.saved.pen);
    } else {
      assert t0 == Screens(t, row, col).(top := t.top, bot := t.bot, saved := Restored(t).saved, pen := DEFAULT_STYLE);
    }
  }

  /** Executed on a cleared terminal, the keyframe's output leaves exactly this state. */
  lemma KeyframeShows(t: Term)
    requires Restorable(t)
    ensures Exec(Fresh(t.rows, t.cols), Keyframe(t).out) == Restored(t)
  {
    hide Stored, PlaceAndPen, Encode, FlowRows, DisplayedRows, WriteScreens, WriteSaved;
    var f := Fresh(t.rows, t.cols);
    ScreensShow(t);
    var p0 := WriteScreens(t);
    var r0: nat, c0: nat :| r0 < t.rows && Shows(f, p0, Screens(t, r0, c0));
    RegionShows(f, Screens(t, r0, c0), p0, t.top, t.bot);
    var p1 := SetRegion(p0, t.top, t.bot, t.rows);
    var r1: nat, c1: nat :| r1 < t.rows && Shows(f, p1, Screens(t, r0, c0).(top := t.top, bot := t.bot, row := r1, col := c1));
    assert Screens(t, r0, c0).(row := r1, col := c1) == Screens(t, r1, c1);
    SavedShows(t, p1, r1, c1);
    var p2 := WriteSaved(p1, t);
    var r2: nat, c2: nat, pen :| r2 < t.rows
      && Shows(f, p2, Screens(t, r2, c2).(top := t.top, bot := t.bot, saved := Restored(t).saved, pen := pen));
    var t2 := Screens(t, r2, c2).(top := t.top, bot := t.bot, saved := Restored(t).saved, pen := pen);
    StoredAll(t.screen, t.cols);
    DisplayedAgrees(t);
    PlaceAndPenShows(f, t2, p2, EncodeAll(t.screen), t.screen, t.row, t.col, t.pen);
    assert t2.(row := t.row, col := CursorCol(t.screen, t.row, t.col, t.cols), pen := t.pen) == Restored(t);
  }

  // ---- when that is the state it was made from ----

  /** A plain empty cell keeps the background its row came in with; this one is not in that case. */
  ghost predicate CellKept(rows: seq<Row>, i: nat, c: nat)
    requires i < |rows| && c < |rows[i].cells|
  {
    || rows[i].cells[c] != Null(DEFAULT_STYLE)
    || (c == 0 && rows[i].wrapped) || Cleared(rows[i].cells, c)
    || (c == |rows[i].cells| - 1 && i + 1 < |rows| && rows[i + 1].wrapped)
  }

  /** An empty last cell with more than a background is made by the character before it, or left by the
      wide one that wraps to the next row; erasing cannot make it. */
  ghost predicate EdgeKept(rows: seq<Row>, i: nat)
    requires i < |rows| && forall k :: 0 <= k < |rows| ==> |rows[k].cells| > 0
  {
    var cells := rows[i].cells;
    MarkedNull(cells, |cells| - 1) ==>
      if i + 1 < |rows| && rows[i + 1].wrapped then RunsOn(rows, i + 1) else ByBefore(cells, |cells| - 1)
  }

  /** Every empty cell with more than a background is one that drawing can make. */
  ghost predicate RowKept(rows: seq<Row>, i: nat)
    requires i < |rows| && forall k :: 0 <= k < |rows| ==> |rows[k].cells| > 0
  {
    && (forall c :: 0 <= c < |rows[i].cells| - 1 ==> InkKept(rows[i].cells, c, DEFAULT_STYLE, false))
    && EdgeKept(rows, i)
  }

  /** No plain empty cell stands in a row that comes in with a background, and no empty cell asks for more
      than it can be given. */
  ghost predicate Unstained(rows: seq<Row>, bgs: seq<Color>)
    requires forall k :: 0 <= k < |rows| ==> |rows[k].cells| > 0
  {
    && (forall i, c :: 0 <= i < |rows| && 0 <= c < |rows[i].cells| ==> Ground(rows, bgs, i) == Default || CellKept(rows, i, c))
    && (forall i :: 0 <= i < |rows| ==> RowKept(rows, i))
  }

  lemma LastInk(cells: seq<Cell>)
    requires |cells| > 0
    ensures var k := |cells| - 1; InkKept(cells, k, DEFAULT_STYLE, false) <==> (MarkedNull(cells, k) ==> ByBefore(cells, k))
  {
  }

  lemma LeftSame(rows: seq<Row>, i: nat)
    requires i < |rows| && forall k :: 0 <= k < |rows| ==> |rows[k].cells| > 0
    ensures var left, cells := Left(rows, |rows|, i), rows[i].cells;
            && (left == cells <==> RowKept(rows, i))
            && (forall c :: 0 <= c < |cells| && left[c] != cells[c] ==> MarkedNull(cells, c) && left[c].Null?)
  {
    hide RunsOn, InkAt, InkKept;
    var left, cells := Left(rows, |rows|, i), rows[i].cells;
    var k := |cells| - 1;
    LastInk(cells);
    forall c | 0 <= c < |cells|
      ensures Drawable(cells)[c] == cells[c] <==> InkKept(cells, c, DEFAULT_STYLE, false)
      ensures Drawable(cells)[c] != cells[c] ==> MarkedNull(cells, c) && Drawable(cells)[c].Null?
    {
      InkSame(cells, c, DEFAULT_STYLE, false);
    }
    assert left == cells <==> left[k] == cells[k] && forall c :: 0 <= c < k ==> left[c] == cells[c];
  }

  /** A cell that ought to be plain and empty is wet only where a stand-in has been erased. */
  lemma WetPlain(cells: seq<Cell>, c: nat)
    requires c < |cells| && cells[c] == Null(DEFAULT_STYLE)
    ensures c in Wet(cells) <==> Cleared(cells, c)
  {
    hide Cleared;
  }

  lemma LandedSame(rows: seq<Row>, bgs: seq<Color>, i: nat)
    requires i < |rows| && forall k :: 0 <= k < |rows| ==> |rows[k].cells| > 0
    ensures Shown(rows, bgs, |rows|, i) == rows[i]
       <==> RowKept(rows, i) && forall c :: 0 <= c < |rows[i].cells| ==> Ground(rows, bgs, i) == Default || CellKept(rows, i, c)
  {
    hide Ground, Left, RowKept, RunsOn, Wet, Cleared;
    var bg, row, joined := Ground(rows, bgs, i), rows[i], i + 1 < |rows| && rows[i + 1].wrapped;
    var left := Left(rows, |rows|, i);
    LeftSame(rows, i);
    var shown := Landed(row, left, bg, joined).cells;
    forall c | 0 <= c < |row.cells|
      ensures left[c] == row.cells[c] ==> (shown[c] == row.cells[c] <==> (bg == Default || CellKept(rows, i, c)))
      ensures left[c] != row.cells[c] ==> shown[c] != row.cells[c]
    {
      if row.cells[c] == Null(DEFAULT_STYLE) {
        WetPlain(row.cells, c);
      }
    }
    assert Landed(row, left, bg, joined) == row <==> shown == row.cells;
  }

  lemma DoneSame(rows: seq<Row>, bgs: seq<Color>)
    requires forall k :: 0 <= k < |rows| ==> |rows[k].cells| > 0
    ensures DoneRows(rows, bgs, |rows|) == rows <==> Unstained(rows, bgs)
  {
    hide Landed, Ground, CellKept, RowKept, Left;
    var done := DoneRows(rows, bgs, |rows|);
    forall i | 0 <= i < |rows|
      ensures done[i] == rows[i]
         <==> RowKept(rows, i) && forall c :: 0 <= c < |rows[i].cells| ==> Ground(rows, bgs, i) == Default || CellKept(rows, i, c)
    {
      LandedSame(rows, bgs, i);
    }
  }

  ghost predicate CursorKept(rows: seq<Row>, row: nat, col: nat, cols: nat)
    requires cols >= 1 && row < |rows| && |rows[row].cells| == cols
  {
    col == cols ==> !rows[row].cells[cols - 1].Null?
  }

  /** What a restore can put back exactly. */
  ghost predicate Faithful(t: Term)
    requires Restorable(t)
  {
    var all := t.history + NormalScreen(t);
    && Unstained(all, Shifted(all, Grounds(t.rows, Default)))
    && CursorKept(t.screen, t.row, t.col, t.cols)
    && CursorKept(t.screen, t.saved.row, t.saved.col, t.cols)
    && (t.parked.Parked? ==>
          && Unstained(t.screen, Shifted(t.screen, Grounds(t.rows, t.parked.pen.bg)))
          && CursorKept(t.parked.screen, t.parked.row, t.parked.col, t.cols))
  }

  lemma RestoredSame(t: Term)
    requires Restorable(t)
    ensures Restored(t) == t <==> Faithful(t)
  {
    hide Unstained, DoneRows, Grid;
    var all := t.history + NormalScreen(t);
    var h := |t.history|;
    assert forall k :: 0 <= k < |all| ==> |all[k].cells| > 0 by { RowsNonEmpty(t); }
    DoneSame(all, Shifted(all, Grounds(t.rows, Default)));
    assert all[..h] == t.history && all[h..] == NormalScreen(t);
    var flow := FlowRows(t);
    assert flow == all <==> flow[..h] == t.history && flow[h..] == NormalScreen(t) by {
      assert flow == flow[..h] + flow[h..];
    }
    if t.parked.Parked? {
      DoneSame(t.screen, Shifted(t.screen, Grounds(t.rows, t.parked.pen.bg)));
    }
  }

  lemma RowsNonEmpty(t: Term)
    requires Restorable(t)
    ensures forall k :: 0 <= k < |t.history + NormalScreen(t)| ==> |(t.history + NormalScreen(t))[k].cells| > 0
  {
  }

  /** The round trip: a keyframe's output, executed on a cleared terminal, gives back the very state it
      was written from (both screens, the history, regions, cursors, pens), exactly when no row comes
      in stained, every marked empty cell can be made, and every waiting cursor waits behind a written
      cell. */
  lemma KeyframeRoundTrip(t: Term)
    requires Restorable(t)
    ensures Exec(Fresh(t.rows, t.cols), Keyframe(t).out) == t <==> Faithful(t)
  {
    hide Exec, Fresh, Keyframe, Restorable, Faithful;
    KeyframeShows(t);
    RestoredSame(t);
  }

  const X := Lead(Glyph("x", false), DEFAULT_STYLE)
  const RED := Lead(Glyph("z", false), Erased(Indexed(1)))
  const GAP := Null(DEFAULT_STYLE)

  /** One row of history, then a full row continued by a red character and nothing after it: the wrap
      that puts the last row back happens at the bottom of the screen, under a red pen. */
  const STAINED_BY_WRAP := Term(2, 2, [Row([X, X], false)], [Row([X, X], false), Row([RED, GAP], true)],
                              1, 1, DEFAULT_STYLE, 0, 1, Slot(0, 0, DEFAULT_STYLE), NoParked)

  /** A red pen parked with the normal screen, and an alternate screen with an empty cell. */
  const STAINED_BY_PEN := Term(2, 2, [], [Row([X, GAP], false), Row([GAP, GAP], false)], 0, 0, DEFAULT_STYLE, 0, 1,
                             Slot(0, 0, DEFAULT_STYLE),
                             Parked([Row([X, X], false), Row([X, X], false)], 0, 0, Erased(Indexed(1)), 0, 1))

  /** A bold empty cell, left of a wide character that another style has been printed in front of, in
      the last column: neither the character before it nor erasing makes it. */
  const BOLD := Style(Default, Default, 1)

  const EDGE_LOST := Term(2, 2, [], [Row([X, Null(BOLD)], false), Row([GAP, GAP], false)], 0, 0, DEFAULT_STYLE, 0, 1,
                         Slot(0, 0, DEFAULT_STYLE), NoParked)

  /** Two bold empty cells in a row: two wide characters were overwritten from the left, one after the other. */
  const TWO_MARKED := Wide4([Null(BOLD), Null(BOLD), X, GAP])

  /** A bold empty cell, a narrow bold character and a bold empty cell. */
  const PEN_TAKEN := Wide4([Null(BOLD), Lead(Glyph("b", false), BOLD), Null(BOLD), GAP])

  /** The same around a wide character. */
  const WIDE_BETWEEN := Wide4([Null(BOLD), Lead(Glyph("漢", true), BOLD), Tail(BOLD), Null(BOLD)])

  const BLANK4: seq<Cell> := [GAP, GAP, GAP, GAP]

  /** A screen of two rows, the second one empty. */
  function Wide4(cells: seq<Cell>): Term {
    Term(4, 2, [], [Row(cells, false), Row(BLANK4, false)], 0, 0, DEFAULT_STYLE, 0, 1, Slot(0, 0, DEFAULT_STYLE), NoParked)
  }

  lemma PairWhole(a: Cell, b: Cell)
    requires !a.WideLead() && !a.Tail? && !b.WideLead() && !b.Tail?
    ensures Whole([a, b])
  {
  }

  lemma CounterexamplesRestorable()
    ensures Restorable(STAINED_BY_WRAP) && Restorable(STAINED_BY_PEN) && Restorable(EDGE_LOST)
  {
    hide Whole;
    PairWhole(X, X);
    PairWhole(X, GAP);
    PairWhole(GAP, GAP);
    PairWhole(RED, GAP);
    PairWhole(X, Null(BOLD));
  }

  /** The condition bites: these states do not come back as they were. */
  lemma StainedStates()
    ensures Restorable(STAINED_BY_WRAP) && Exec(Fresh(2, 2), Keyframe(STAINED_BY_WRAP).out) != STAINED_BY_WRAP
    ensures Restorable(STAINED_BY_PEN) && Exec(Fresh(2, 2), Keyframe(STAINED_BY_PEN).out) != STAINED_BY_PEN
  {
    hide Exec, Keyframe, Restorable, RowKept, Cleared;
    CounterexamplesRestorable();
    var a := STAINED_BY_WRAP;
    KeyframeRoundTrip(a);
    var all, bgs := a.history + a.screen, Grounds(2, Default);
    assert all[0] == a.history[0] && all[1] == a.screen[0] && all[2] == a.screen[1];
    assert Shifted(all, bgs) == bgs && RunsOn(all, 2) && Ground(all, bgs, 2) == Indexed(1);
    NotCleared(all[2].cells);
    assert !CellKept(all, 2, 1);
    var b := STAINED_BY_PEN;
    KeyframeRoundTrip(b);
    var red := Grounds(2, Indexed(1));
    assert Shifted(b.screen, red) == red && Ground(b.screen, red, 0) == Indexed(1);
    NotCleared(b.screen[0].cells);
    assert !CellKept(b.screen, 0, 1);
  }

  lemma NotCleared(cells: seq<Cell>)
    requires |cells| == 2 && cells[0].Lead?
    ensures !Cleared(cells, 1)
  {
  }

  lemma EdgeIsLost()
    ensures Restorable(EDGE_LOST) && Exec(Fresh(2, 2), Keyframe(EDGE_LOST).out) != EDGE_LOST
  {
    hide Exec, Keyframe, Restorable, CellKept, InkKept;
    CounterexamplesRestorable();
    KeyframeRoundTrip(EDGE_LOST);
    var all := EDGE_LOST.history + EDGE_LOST.screen;
    assert all[0] == EDGE_LOST.screen[0] && !EdgeKept(all, 0) && !RowKept(all, 0);
  }

  lemma Wide4Restorable(cells: seq<Cell>)
    requires |cells| == 4 && Whole(cells)
    ensures Restorable(Wide4(cells))
  {
    assert Whole(BLANK4);
  }

  /** Marked empty cells that cannot be made: the second of two, and one that takes the default pen. */
  lemma MarkedStates()
    ensures Restorable(TWO_MARKED) && Exec(Fresh(2, 4), Keyframe(TWO_MARKED).out) != TWO_MARKED
    ensures Restorable(PEN_TAKEN) && Exec(Fresh(2, 4), Keyframe(PEN_TAKEN).out) != PEN_TAKEN
  {
    hide Exec, Keyframe, Restorable, CellKept, EdgeKept;
    MarkedLost(TWO_MARKED.screen[0].cells, 1);
    MarkedLost(PEN_TAKEN.screen[0].cells, 0);
  }

  lemma MarkedLost(cells: seq<Cell>, c: nat)
    requires |cells| == 4 && Whole(cells) && c < 3 && !InkKept(cells, c, DEFAULT_STYLE, false)
    ensures Restorable(Wide4(cells)) && Exec(Fresh(2, 4), Keyframe(Wide4(cells)).out) != Wide4(cells)
  {
    hide Exec, Keyframe, Restorable, CellKept, EdgeKept, InkKept, Whole;
    Wide4Restorable(cells);
    var t := Wide4(cells);
    KeyframeRoundTrip(t);
    var all := t.history + t.screen;
    assert all[0] == t.screen[0] && !RowKept(all, 0);
  }

  /** Around a wide character they can. */
  lemma WideBetweenKept()
    ensures Restorable(WIDE_BETWEEN) && Exec(Fresh(2, 4), Keyframe(WIDE_BETWEEN).out) == WIDE_BETWEEN
  {
    hide Exec, Keyframe, Restorable, Unstained, Shifted;
    Wide4Restorable(WIDE_BETWEEN.screen[0].cells);
    KeyframeRoundTrip(WIDE_BETWEEN);
    var all := WIDE_BETWEEN.history + WIDE_BETWEEN.screen;
    assert all == WIDE_BETWEEN.screen;
    WideBetweenUnstained(all);
  }

  lemma WideBetweenUnstained(all: seq<Row>)
    requires all == WIDE_BETWEEN.screen
    ensures Unstained(all, Shifted(all, Grounds(2, Default)))
  {
    hide InkKept, CellKept, ByBefore, RunsOn;
    WideBetweenMade(all[0].cells);
    assert EdgeKept(all, 0) && EdgeKept(all, 1);
    assert RowKept(all, 0) && RowKept(all, 1);
  }

  lemma WideBetweenMade(cells: seq<Cell>)
    requires cells == WIDE_BETWEEN.screen[0].cells
    ensures forall c :: 0 <= c < 4 ==> InkKept(cells, c, DEFAULT_STYLE, false) && InkKept(BLANK4, c, DEFAULT_STYLE, false)
    ensures ByBefore(cells, 3)
  {
    assert Made(cells, 0) && !TakesPen(cells, 0);
  }

  // ---- a keyframe with nothing to say ----

  /** Nothing in history, nothing drawn, nothing set: judged by the text and styles of the stored rows. */
  predicate Pristine(t: Term)
    requires t.rows >= 1
  {
    && t.history == [] && t.parked.NoParked?
    && t.row == 0 && t.col == 0 && t.saved == Slot(0, 0, DEFAULT_STYLE) && t.pen == DEFAULT_STYLE
    && t.top == 0 && t.bot == t.rows - 1
    && forall r :: 0 <= r < |t.screen| ==> Encode(t.screen[r]).text == [] && Encode(t.screen[r]).spans == []
  }

  /** What a cleared terminal is given to show the state: nothing at all when it is pristine. */
  function RestoreOps(t: Term): seq<Op>
    requires t.cols >= 1 && t.rows >= 1
  {
    if Pristine(t) then [] else Keyframe(t).out
  }

  /** No cell was written to, not even with a space, and no row continues another. */
  ghost predicate Untyped(screen: seq<Row>) {
    forall r :: 0 <= r < |screen| ==> !screen[r].wrapped && forall c :: 0 <= c < |screen[r].cells| ==> !screen[r].cells[c].Lead?
  }

  lemma PristineRow(row: Row)
    requires Whole(row.cells) && Encode(row).text == []
    ensures row == BlankRow(|row.cells|, Default)
       <==> !row.wrapped && forall c :: 0 <= c < |row.cells| ==> !row.cells[c].Lead?
  {
    assert TextEnd(row.cells) == 0;
    assert forall c :: 0 <= c < |row.cells| ==> Trimmable(row.cells[c]);
    if forall c :: 0 <= c < |row.cells| ==> !row.cells[c].Lead? {
      forall c | 0 <= c < |row.cells|
        ensures row.cells[c] == Null(DEFAULT_STYLE)
      {
        if c > 0 {
          assert !row.cells[c - 1].WideLead();
        }
      }
      assert row.cells == Blanks(|row.cells|, Default);
    }
  }

  lemma PristineFresh(t: Term)
    requires Restorable(t) && Pristine(t)
    ensures t == Fresh(t.rows, t.cols) <==> Untyped(t.screen)
  {
    hide Encode;
    forall r | 0 <= r < t.rows
      ensures t.screen[r] == BlankRow(t.cols, Default)
         <==> !t.screen[r].wrapped && forall c :: 0 <= c < |t.screen[r].cells| ==> !t.screen[r].cells[c].Lead?
    {
      PristineRow(t.screen[r]);
    }
    assert t == Fresh(t.rows, t.cols) <==> t.screen == BlankScreen(t.rows, t.cols, Default);
    assert t.screen == BlankScreen(t.rows, t.cols, Default) <==> forall r :: 0 <= r < t.rows ==> t.screen[r] == BlankRow(t.cols, Default);
  }

  /** The restore as a whole: what a cleared terminal shows is the state itself, exactly when the
      keyframe written is faithful, or when the one left unsaid had nothing typed on its screen. */
  lemma RestoreRoundTrip(t: Term)
    requires Restorable(t)
    ensures Exec(Fresh(t.rows, t.cols), RestoreOps(t)) == t <==> if Pristine(t) then Untyped(t.screen) else Faithful(t)
  {
    hide Keyframe, Restorable, Faithful, Pristine, Untyped;
    assert t.cols >= 1 && t.rows >= 1 by { RestorableSizes(t); }
    if Pristine(t) {
      PristineFresh(t);
    } else {
      KeyframeRoundTrip(t);
    }
  }

  lemma RestorableSizes(t: Term)
    requires Restorable(t)
    ensures t.cols >= 1 && t.rows >= 1
  {
  }

  /** A typed space is a written cell, but a screen holding only typed spaces counts as pristine. */
  lemma TypedSpacesForgotten()
    ensures var t := Fresh(2, 2).(screen := [Row([Lead(SPACE, DEFAULT_STYLE), GAP], false), BlankRow(2, Default)]);
            Restorable(t) && Pristine(t) && Exec(Fresh(2, 2), RestoreOps(t)) != t
  {
    hide Exec, Keyframe;
    var row := Row([Lead(SPACE, DEFAULT_STYLE), GAP], false);
    var t := Fresh(2, 2).(screen := [row, BlankRow(2, Default)]);
    assert Restorable(t);
    assert TextEnd(row.cells) == 0 && TextEnd(Blanks(2, Default)) == 0;
    assert Pristine(t);
    RestoreRoundTrip(t);
    assert t.screen[0].cells[0].Lead?;
  }
}
