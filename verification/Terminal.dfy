/** The part of a terminal that a restore drives: a grid of cells above which scrolled-off rows
    pile up, a cursor that can wait past the last column, a pen, a scrolling region, a saved cursor
    and a parked normal screen.  Follows muxd/vt.go with autowrap on and insert mode off. */
module Terminal {
  import opened Folds

  datatype Color = Default | Indexed(index: nat) | Rgb(r: nat, g: nat, b: nat)

  datatype Style = Style(fg: Color, bg: Color, attrs: nat)

  const DEFAULT_STYLE := Style(Default, Default, 0)

  /** What an erase leaves: the background of the pen and nothing else. */
  function Erased(bg: Color): Style {
    Style(Default, bg, 0)
  }

  /** One character together with the marks stacked on it. */
  datatype Glyph = Glyph(text: string, wide: bool) {
    function Width(): nat {
      if wide then 2 else 1
    }
  }

  const SPACE := Glyph(" ", false)

  datatype Cell = Null(style: Style) | Lead(glyph: Glyph, style: Style) | Tail(style: Style) {
    predicate WideLead() {
      Lead? && glyph.wide
    }
  }

  datatype Row = Row(cells: seq<Cell>, wrapped: bool)

  datatype Slot = Slot(row: nat, col: nat, pen: Style)

  /** The normal screen while the alternate one is displayed. */
  datatype Parked = NoParked | Parked(screen: seq<Row>, row: nat, col: nat, pen: Style, top: nat, bot: nat)

  datatype Term = Term(
    cols: nat, rows: nat,
    history: seq<Row>, screen: seq<Row>,
    row: nat, col: nat, pen: Style,
    top: nat, bot: nat, saved: Slot, parked: Parked)
  {
    ghost predicate Valid() {
      && cols >= 1 && rows >= 1
      && |screen| == rows
      && (forall r :: 0 <= r < rows ==> |screen[r].cells| == cols)
      && row < rows && col <= cols
      && top <= bot < rows
    }
  }

  datatype Op =
    | Print(glyph: Glyph)
    | CrLf
    | Cup(row: nat, col: nat)
    | Cuf(n: nat)
    | Cha(col: nat)
    | Cuu
    | Cud
    | Ech(n: nat)
    | Sgr(style: Style)
    | Dl
    | Region(top: nat, bot: nat)
    | SaveCursor
    | EnterAlt  // CSI ? 1049 h

  function Blanks(cols: nat, bg: Color): (cells: seq<Cell>)
    ensures |cells| == cols
  {
    seq(cols, i => Null(Erased(bg)))
  }

  function BlankRow(cols: nat, bg: Color): Row {
    Row(Blanks(cols, bg), false)
  }

  function BlankScreen(rows: nat, cols: nat, bg: Color): (s: seq<Row>)
    ensures |s| == rows
  {
    seq(rows, i => BlankRow(cols, bg))
  }

  /** A terminal as it comes up, and as the restore's prelude leaves it. */
  function Fresh(rows: nat, cols: nat): Term
    requires rows >= 1
  {
    Term(cols, rows, [], BlankScreen(rows, cols, Default), 0, 0, DEFAULT_STYLE,
         0, rows - 1, Slot(0, 0, DEFAULT_STYLE), NoParked)
  }

  function Min(a: int, b: int): int { if a <= b then a else b }

  function SetCells(t: Term, cells: seq<Cell>): Term
    requires t.row < |t.screen|
  {
    t.(screen := t.screen[t.row := t.screen[t.row].(cells := cells)])
  }

  /** The scrolling region moves up one row; a row leaving the top of the normal screen enters the
      history, and the row coming in is erased in the pen's background. */
  function ScrollUp(t: Term): (t': Term)
    requires t.Valid()
    ensures t'.Valid()
  {
    var blank := BlankRow(t.cols, t.pen.bg);
    t.(history := if t.top == 0 && t.parked.NoParked? then t.history + [t.screen[0]] else t.history,
       screen := t.screen[..t.top] + t.screen[t.top + 1..t.bot + 1] + [blank] + t.screen[t.bot + 1..])
  }

  /** Cells from `from` on become empty ones in `style`. */
  function NullsFrom(cells: seq<Cell>, from: nat, style: Style): (r: seq<Cell>)
    requires from <= |cells|
    ensures |r| == |cells|
  {
    cells[..from] + seq(|cells| - from, i => Null(style))
  }

  function MarkWrapped(t: Term, r: nat): Term
    requires r < |t.screen|
  {
    t.(screen := t.screen[r := t.screen[r].(wrapped := true)])
  }

  function ClearTail(t: Term, r: nat, from: nat): Term
    requires r < |t.screen| && from <= |t.screen[r].cells|
  {
    t.(screen := t.screen[r := t.screen[r].(cells := NullsFrom(t.screen[r].cells, from, t.pen))])
  }

  /** The autowrap's move to the next row, which then continues the one left; what the row left
      still had after the cursor is emptied in the pen's whole style. */
  function Wrap(t: Term): (t': Term)
    requires t.Valid()
    ensures t'.Valid() && t'.col == 0 && t'.pen == t.pen && t'.cols == t.cols && t'.rows == t.rows
  {
    if t.row == t.bot then
      var s := MarkWrapped(ScrollUp(t), t.bot);
      (if t.bot > t.top then ClearTail(s, t.bot - 1, t.col) else s).(col := 0)
    else if t.row + 1 < t.rows then
      ClearTail(MarkWrapped(t, t.row + 1), t.row, t.col).(row := t.row + 1, col := 0)
    else
      ClearTail(MarkWrapped(t, t.row), t.row, t.col).(col := 0)
  }

  /** A character written at `col`; a wide one whose half is printed over is emptied. */
  function WriteCells(cells: seq<Cell>, col: nat, g: Glyph, pen: Style): (r: seq<Cell>)
    requires col + g.Width() <= |cells|
    ensures |r| == |cells|
  {
    var put := if g.wide then cells[col := Lead(g, pen)][col + 1 := Tail(pen)] else cells[col := Lead(g, pen)];
    var next := col + g.Width();
    if next < |cells| && put[next].Tail? then put[next := Null(pen)] else put
  }

  /** A wide character whose second half the cursor stands on is emptied before printing. */
  function Unpaired(cells: seq<Cell>, col: nat, pen: Style): (r: seq<Cell>)
    requires col <= |cells|
    ensures |r| == |cells|
  {
    if col > 0 && cells[col - 1].WideLead() then cells[col - 1 := Null(pen)] else cells
  }

  function PrintGlyph(t: Term, g: Glyph): (t': Term)
    requires t.Valid() && g.Width() <= t.cols
    ensures t'.Valid()
  {
    var a := SetCells(t, Unpaired(t.screen[t.row].cells, t.col, t.pen));
    var b := if t.col + g.Width() > t.cols then Wrap(a) else a;
    SetCells(b, WriteCells(b.screen[b.row].cells, b.col, g, b.pen)).(col := b.col + g.Width())
  }

  function EraseCells(cells: seq<Cell>, from: nat, n: nat, style: Style): (r: seq<Cell>)
    requires from <= |cells|
    ensures |r| == |cells|
  {
    var a := if from > 0 && cells[from - 1].WideLead() then cells[from - 1 := Null(style)] else cells;
    var end := from + n;
    var b := if 0 < end < |a| && a[end - 1].WideLead() then a[end := Null(style)] else a;
    if end >= |b| then NullsFrom(b, from, style)
    else b[..from] + seq(n, i => Null(style)) + b[end..]
  }

  function LineFeed(t: Term): (t': Term)
    requires t.Valid()
    ensures t'.Valid()
  {
    if t.row == t.bot then ScrollUp(t)
    else if t.row + 1 < t.rows then
      t.(row := t.row + 1, screen := t.screen[t.row + 1 := t.screen[t.row + 1].(wrapped := false)])
    else t
  }

  function DeleteLine(t: Term): (t': Term)
    requires t.Valid()
    ensures t'.Valid()
  {
    if t.top <= t.row <= t.bot then
      t.(screen := t.screen[..t.row] + t.screen[t.row + 1..t.bot + 1] + [BlankRow(t.cols, t.pen.bg)] + t.screen[t.bot + 1..],
         col := 0)
    else t.(col := Min(t.col, t.cols - 1))
  }

  function Step(t: Term, op: Op): (t': Term)
    requires t.Valid()
    requires op.Print? ==> op.glyph.Width() <= t.cols
    ensures t'.Valid() && t'.cols == t.cols && t'.rows == t.rows
  {
    match op
    case Print(g) => PrintGlyph(t, g)
    case CrLf => LineFeed(t.(col := 0))
    case Cup(r, c) => t.(row := Min(r, t.rows - 1), col := Min(c, t.cols - 1))
    case Cuf(n) => t.(col := Min(Min(t.col, t.cols - 1) + n, t.cols - 1))
    case Cha(c) => t.(col := Min(c, t.cols - 1))
    case Cuu => t.(row := if t.row == t.top || t.row == 0 then t.row else t.row - 1, col := Min(t.col, t.cols - 1))
    case Cud => t.(row := if t.row == t.bot || t.row == t.rows - 1 then t.row else t.row + 1, col := Min(t.col, t.cols - 1))
    case Ech(n) =>
      var c := Min(t.col, t.cols - 1);
      SetCells(t, EraseCells(t.screen[t.row].cells, c, n, Erased(t.pen.bg))).(col := c)
    case Sgr(s) => t.(pen := s)
    case Dl => DeleteLine(t)
    case Region(top, bot) => if top < bot < t.rows then t.(top := top, bot := bot, row := 0, col := 0) else t
    case SaveCursor => t.(saved := Slot(t.row, t.col, t.pen))
    case EnterAlt =>
      if t.parked.Parked? then t.(saved := Slot(t.row, t.col, t.pen))
      else t.(parked := Parked(t.screen, t.row, t.col, t.pen, t.top, t.bot),
              screen := BlankScreen(t.rows, t.cols, t.pen.bg), top := 0, bot := t.rows - 1,
              saved := Slot(0, 0, DEFAULT_STYLE))
  }

  /** Operations act on a grid of at least two columns, so every character fits. */
  ghost function Apply(t: Term, op: Op): Term {
    if t.Valid() && t.cols >= 2 then Step(t, op) else t
  }

  /** What a terminal shows after a run of operations. */
  ghost function Exec(t: Term, ops: seq<Op>): Term {
    Fold(Apply, t, ops)
  }
}
