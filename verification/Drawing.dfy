/** What the packer writes for a row, as functions of what it has written so far.  The packer's
    methods are proved to write exactly this; the lemmas elsewhere say what a terminal makes of it. */
module Drawing {
  import opened Common
  import opened Terminal
  import opened Lines

  /** What has been written, and the pen the packer believes the terminal holds. */
  datatype Pk = Pk(out: seq<Op>, pen: Style)

  function Emit(p: Pk, op: Op): (r: Pk)
    ensures r.pen == p.pen
  {
    Pk(p.out + [op], p.pen)
  }

  function SetPen(p: Pk, st: Style): Pk {
    if st != p.pen then Pk(p.out + [Sgr(st)], st) else p
  }

  function Forward(p: Pk, n: int): Pk {
    if n > 0 then Emit(p, Cuf(n)) else p
  }

  /** An empty cell in this style carries more than erasing can give it. */
  predicate Marked(st: Style) {
    st.fg != Default || st.attrs != 0
  }

  const WIDE_FILLER := Glyph("中", true)

  /** How a drawn row ended: the cursor's column, and whether the last cell is empty, in which style. */
  datatype RowEnd = RowEnd(x: nat, empty: bool, tail: Style)

  const NO_END := RowEnd(0, false, DEFAULT_STYLE)

  /** The locals of the drawing loop; `end` is the column after the last cell read. */
  datatype Draw = Draw(pk: Pk, x: nat, skip: nat, runStart: nat, run: nat, runBg: Color,
                       scrub: bool, end: nat, lastEmpty: bool, lastStyle: Style)

  function StartDraw(pk: Pk, scrub: bool): Draw {
    Draw(pk, 0, 0, 0, 0, Default, scrub, 0, false, DEFAULT_STYLE)
  }

  function FlushSkip(d: Draw): Draw {
    d.(pk := Forward(d.pk, d.skip), x := d.x + d.skip, skip := 0)
  }

  function FlushRun(d: Draw): Draw {
    if d.run == 0 then d
    else
      var e :=
        if d.runBg != Default then
          var s := FlushSkip(d);
          s.(pk := Emit(SetPen(s.pk, Erased(d.runBg)), Ech(d.run)), scrub := d.scrub && d.runStart != 0)
        else if d.scrub && d.runStart == 0 then
          var s := FlushSkip(d);
          s.(pk := Emit(SetPen(s.pk, DEFAULT_STYLE), Ech(1)), scrub := false)
        else d;
      e.(skip := e.skip + e.run, run := 0)
  }

  /** An empty cell joins the run being gathered. */
  function DrawBlank(d: Draw, st: Style): Draw {
    var d1 := d.(end := d.end + 1, lastEmpty := true, lastStyle := st);
    var d2 := if d.run > 0 && st.bg != d.runBg then FlushRun(d1) else d1;
    var d3 := if d2.run == 0 then d2.(runStart := d.end, runBg := st.bg) else d2;
    d3.(run := d3.run + 1)
  }

  function ToCell(d: Draw): Draw {
    FlushSkip(FlushRun(d))
  }

  function DrawChar(d: Draw, g: Glyph, st: Style): Draw {
    var d1 := ToCell(d.(end := d.end + g.Width(), lastEmpty := false));
    d1.(pk := Emit(SetPen(d1.pk, st), Print(g)), x := d1.x + g.Width(), scrub := false)
  }

  /** An empty cell that erasing cannot make: a wide character is printed and its first half emptied
      by printing over the second, with a stand-in unless the item after it is such a character. */
  function MarkedOps(pk: Pk, col: nat, st: Style, next: Option<Item>): Pk {
    var p1 := Emit(Emit(pk, Print(WIDE_FILLER)), Cha(col + 1));
    if next.Some? && next.value.Char? && next.value.style == st then p1
    else
      var p2 := Emit(Emit(SetPen(p1, st), Print(SPACE)), Cha(col + 1));
      if next.Some? && next.value.Char? then p2
      else Emit(SetPen(p2, Erased(if next.Some? then next.value.style.bg else Default)), Ech(1))
  }

  function DrawMarked(d: Draw, st: Style, next: Option<Item>): Draw {
    var col := d.end;
    var d1 := ToCell(d.(end := col + 1, lastEmpty := true, lastStyle := st));
    var d2 := d1.(pk := MarkedOps(d1.pk, col, st, next), x := d1.x + 1, scrub := d1.scrub && col != 0);
    if next.Some? && next.value.Blank? then d2.(skip := d2.skip + 1, end := col + 2, lastStyle := next.value.style) else d2
  }

  /** A character followed by an empty cell in its own style: printed over half of a wide one. */
  function BeforeMarkedOps(pk: Pk, col: nat, g: Glyph, st: Style): Pk {
    Emit(SetPen(Emit(Emit(Emit(pk, Cha(col + g.Width() - 1)), Print(WIDE_FILLER)), Cha(col)), st), Print(g))
  }

  function DrawBeforeMarked(d: Draw, g: Glyph, st: Style): Draw {
    var col := d.end;
    var d1 := ToCell(d.(end := col + g.Width(), lastEmpty := false));
    d1.(pk := BeforeMarkedOps(d1.pk, col, g, st),
        x := d1.x + g.Width(), skip := d1.skip + 1, end := col + g.Width() + 1,
        lastEmpty := true, lastStyle := st, scrub := false)
  }

  function Peek(its: seq<Item>): Option<Item> {
    if |its| > 1 then Some(its[1]) else None
  }

  predicate TakesMarked(d: Draw, its: seq<Item>, cols: nat, rowMarked: bool)
    requires |its| > 0
  {
    its[0].Blank? && rowMarked && Marked(its[0].style) && d.end + 1 < cols
  }

  predicate TakesBeforeMarked(d: Draw, its: seq<Item>, cols: nat, rowMarked: bool)
    requires |its| > 0
  {
    its[0].Char? && rowMarked && d.end + its[0].Width() < cols
    && |its| > 1 && its[1].Blank? && Marked(its[1].style) && its[1].style == its[0].style
  }

  /** One turn of the loop, and how many items it used. */
  function DrawTurn(d: Draw, its: seq<Item>, cols: nat, rowMarked: bool): (r: (Draw, nat))
    requires |its| > 0
    ensures 1 <= r.1 <= |its|
  {
    if TakesMarked(d, its, cols, rowMarked) then
      var next := Peek(its);
      (DrawMarked(d, its[0].style, next), if next.Some? && next.value.Blank? then 2 else 1)
    else if TakesBeforeMarked(d, its, cols, rowMarked) then
      (DrawBeforeMarked(d, its[0].glyph, its[0].style), 2)
    else if its[0].Blank? then (DrawBlank(d, its[0].style), 1)
    else (DrawChar(d, its[0].glyph, its[0].style), 1)
  }

  function DrawFrom(d: Draw, its: seq<Item>, cols: nat, rowMarked: bool): Draw
    decreases |its|
  {
    if its == [] then d
    else
      var (d', n) := DrawTurn(d, its, cols, rowMarked);
      DrawFrom(d', its[n..], cols, rowMarked)
  }

  function FinishRow(d: Draw, cols: nat): (Pk, RowEnd) {
    var d1 := FlushRun(d);
    var p := if d1.scrub then Emit(SetPen(d1.pk, DEFAULT_STYLE), Ech(1)) else d1.pk;
    (SetPen(p, DEFAULT_STYLE),
     if d1.end < cols then RowEnd(d1.x, true, DEFAULT_STYLE) else RowEnd(d1.x, d1.lastEmpty, d1.lastStyle))
  }

  predicate AnyMarked(spans: seq<Span>) {
    exists k :: 0 <= k < |spans| && Marked(spans[k].style)
  }

  /** Everything `drawRow` writes for a stored row, and how the row ends. */
  function DrawRow(pk: Pk, ln: Line, cols: nat, scrub: bool): (Pk, RowEnd) {
    FinishRow(DrawFrom(StartDraw(pk, scrub), Items(ln, cols), cols, AnyMarked(ln.spans)), cols)
  }

  // ---- how a row is joined to the one above it ----

  datatype Kind = Empty | Narrow | Wide | NoWrap

  function FirstCell(ln: Line, cols: nat): (Kind, Style) {
    var its := Items(ln, cols);
    if its == [] || its[0].Blank? then (Empty, DEFAULT_STYLE)
    else
      var st := its[0].style;
      if (Marked(st) || |ln.spans| > 0) && |its| > 1 && its[1].Blank? && Marked(its[1].style) && its[1].style == st
         && its[0].Width() < cols then (NoWrap, st)
      else (if its[0].glyph.wide then Wide else Narrow, st)
  }

  predicate NeedsScrub(kind: Kind) {
    kind == Empty || kind == NoWrap
  }

  function ContinueRow(pk: Pk, prev: RowEnd, next: Line, cols: nat): (Pk, bool) {
    var (kind, first) := FirstCell(next, cols);
    if prev.x >= cols then
      if NeedsScrub(kind) then (Emit(Emit(pk, Print(SPACE)), Cha(0)), true) else (pk, false)
    else if kind == Wide && prev.empty && prev.tail == first then (Forward(pk, cols - 1 - prev.x), false)
    else
      var p1 := Emit(Emit(Forward(pk, cols - 1 - prev.x), Print(SPACE)), Print(SPACE));
      var p2 := Emit(SetPen(Emit(Emit(p1, Cuu), Cha(cols - 1)), Erased(prev.tail.bg)), Ech(1));
      (Emit(Emit(SetPen(p2, DEFAULT_STYLE), Cud), Cha(0)), NeedsScrub(kind))
  }

  function LeadingContinuation(pk: Pk, next: Line, cols: nat): (Pk, bool)
    requires cols >= 1
  {
    (Emit(Emit(Emit(Emit(Emit(pk, Cup(0, cols - 1)), Print(SPACE)), Print(SPACE)), Cup(0, 0)), Dl),
     NeedsScrub(FirstCell(next, cols).0))
  }

  predicate BlankLine(ln: Line) {
    ln.text == [] && ln.content == 0 && ln.spans == []
  }

  predicate Continues(lines: seq<Line>, i: nat) {
    i < |lines| && lines[i].wrapped
  }

  /** The rows from `i` on; `prev` is how the row drawn last ended. */
  function DrawRowsFrom(pk: Pk, lines: seq<Line>, i: nat, prev: RowEnd, cols: nat, absolute: bool): Pk
    requires cols >= 1
    decreases |lines| - i
  {
    if i >= |lines| then pk
    else
      var ln := lines[i];
      if absolute && !ln.wrapped && BlankLine(ln) && !Continues(lines, i + 1) then
        DrawRowsFrom(pk, lines, i + 1, prev, cols, absolute)
      else
        var (p1, scrub) :=
          if ln.wrapped && i > 0 then ContinueRow(pk, prev, ln, cols)
          else if ln.wrapped then LeadingContinuation(pk, ln, cols)
          else if absolute then (Emit(pk, Cup(i, 0)), false)
          else if i > 0 then (Emit(pk, CrLf), false)
          else (pk, false);
        var (p2, end) := DrawRow(p1, ln, cols, scrub);
        DrawRowsFrom(p2, lines, i + 1, end, cols, absolute)
  }

  function DrawRows(pk: Pk, lines: seq<Line>, cols: nat, absolute: bool): Pk
    requires cols >= 1
  {
    DrawRowsFrom(pk, lines, 0, NO_END, cols, absolute)
  }

  /** The character that ends in the last column, if one does, and the column it starts in. */
  function LastChar(its: seq<Item>, col: nat, cols: nat): Option<(nat, Glyph, Style)> {
    if its == [] then None
    else if its[0].Char? && col + its[0].Width() == cols then Some((col, its[0].glyph, its[0].style))
    else LastChar(its[1..], col + its[0].Width(), cols)
  }

  /** The cursor; past the last column it is left by writing that column's character again. */
  function PlaceCursor(pk: Pk, lines: seq<Line>, row: nat, col: nat, cols: nat): Pk
    requires cols >= 1
  {
    if col < cols then Emit(pk, Cup(row, col))
    else
      match if row < |lines| then LastChar(Items(lines[row], cols), 0, cols) else None
      case Some(c) => Emit(SetPen(Emit(pk, Cup(row, c.0)), c.2), Print(c.1))
      case None => Emit(pk, Cup(row, cols - 1))
  }
}
