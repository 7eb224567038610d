/** What a restore's prelude does to the terminal it finds, and what a restore after it shows. */
module Prelude {
  import opened Common
  import opened Folds
  import opened Terminal
  import opened Lines
  import opened Drawing
  import opened Keyframes
  import opened W = Writer
  import opened P = XParser

  const NO_SLOT := Slot(0, 0, DEFAULT_STYLE)

  // ---- the prelude on a terminal of any state ----

  /** CSI ? 1049 l: the normal screen comes back with its own region and saved cursor, and the cursor is
      restored from there, whichever screen was displayed. */
  function LeaveAlt(t: Term): Term
    requires t.rows >= 1 && t.cols >= 1
  {
    var back :=
      if t.parked.NoParked? then t
      else
        var k := t.parked;
        var top, bot := Min(k.top, t.rows - 1), Min(k.bot, t.rows - 1);
        t.(screen := k.screen, parked := NoParked, saved := Slot(k.row, k.col, k.pen),
           top := if bot <= top then 0 else top, bot := if bot <= top then t.rows - 1 else bot);
    back.(row := Min(back.saved.row, t.rows - 1), col := Min(back.saved.col, t.cols - 1), pen := back.saved.pen)
  }

  /** CSI r: the whole screen; a region of less than two rows is ignored. */
  function WholeRegion(t: Term): Term
    requires t.rows >= 1
  {
    if t.rows < 2 then t else t.(top := 0, bot := t.rows - 1, row := 0, col := 0)
  }

  /** CSI 2 J and CSI 3 J. */
  function EraseAll(t: Term): Term {
    t.(screen := BlankScreen(t.rows, t.cols, t.pen.bg), history := [])
  }

  function AfterPrelude(t: Term): Term
    requires t.rows >= 1 && t.cols >= 1
  {
    EraseAll(WholeRegion(LeaveAlt(t)).(pen := DEFAULT_STYLE, row := 0, col := 0))
  }

  /** The saved cursor of the normal screen, displayed or parked. */
  function NormalSlot(t: Term): Slot {
    if t.parked.Parked? then Slot(t.parked.row, t.parked.col, t.parked.pen) else t.saved
  }

  /** All that the prelude leaves of what it finds is the saved cursor. */
  lemma PreludeClears(t: Term)
    requires t.Valid()
    ensures AfterPrelude(t) == Fresh(t.rows, t.cols).(saved := NormalSlot(t))
    ensures AfterPrelude(t) == Fresh(t.rows, t.cols) <==> NormalSlot(t) == NO_SLOT
  {
    hide BlankScreen;
  }

  // ---- the prelude's bytes ----

  /** What the terminal does with those actions of the browser's parser that a prelude is made of and that
      change its screens, region, cursor or pen; the rest set modes and character sets. */
  function Performed(t: Term, a: Action): Term {
    if t.rows < 1 || t.cols < 1 || !a.CsiSeq? || a.inter != [] then t
    else if a == CsiSeq([0x3f, 0x31, 0x30, 0x34, 0x39], [], 0x6c) then LeaveAlt(t)
    else if a == CsiSeq([], [], 0x72) then WholeRegion(t)
    else if a == CsiSeq([0x30], [], 0x6d) then t.(pen := DEFAULT_STYLE)
    else if a == CsiSeq([], [], 0x48) then t.(row := 0, col := 0)
    else if a == CsiSeq([0x32], [], 0x4a) then t.(screen := BlankScreen(t.rows, t.cols, t.pen.bg))
    else if a == CsiSeq([0x33], [], 0x4a) then t.(history := [])
    else t
  }

  ghost function Perform(t: Term, acts: seq<Action>): Term {
    Fold(Performed, t, acts)
  }

  lemma PerformNext(t: Term, acts: seq<Action>, k: nat)
    requires k < |acts|
    ensures Perform(t, acts[..k + 1]) == Performed(Perform(t, acts[..k]), acts[k])
  {
    hide Performed, Fold;
    assert acts[..k + 1] == acts[..k] + [acts[k]];
    FoldOne(Performed, t, acts[..k], acts[k]);
  }

  lemma NothingPerformed(t: Term)
    ensures Perform(t, []) == t
  {
  }

  lemma PerformControl(t: Term, x: X)
    ensures Perform(t, Cancelling(x)) == t
  {
    FoldOne(Performed, t, [], Control(0x18));
  }

  /** Piece by piece. */
  lemma EachPerformed(t: Term)
    requires t.rows >= 1 && t.cols >= 1
    ensures Performed(t, ActionOf(PIECES[0])) == LeaveAlt(t) && Performed(t, ActionOf(PIECES[1])) == WholeRegion(t)
    ensures forall i :: 2 <= i < 6 ==> Performed(t, ActionOf(PIECES[i])) == t
    ensures Performed(t, ActionOf(PIECES[6])) == t.(pen := DEFAULT_STYLE)
    ensures forall i :: 7 <= i < 12 ==> Performed(t, ActionOf(PIECES[i])) == t
    ensures Performed(t, ActionOf(PIECES[12])) == t.(row := 0, col := 0)
    ensures Performed(t, ActionOf(PIECES[13])) == t.(screen := BlankScreen(t.rows, t.cols, t.pen.bg))
    ensures Performed(t, ActionOf(PIECES[14])) == t.(history := [])
  {
    hide LeaveAlt, WholeRegion, BlankScreen;
  }

  lemma {:induction false} SameSize(t: Term, acts: seq<Action>)
    requires t.rows >= 1 && t.cols >= 1
    ensures Perform(t, acts).rows == t.rows && Perform(t, acts).cols == t.cols
    decreases |acts|
  {
    if acts != [] {
      SameSize(t, acts[..|acts| - 1]);
    }
  }

  /** The pieces up to `k`, where those between do nothing. */
  lemma {:induction false} PiecesIdle(t: Term, from: nat, k: nat)
    requires t.rows >= 1 && t.cols >= 1 && from <= k <= 15
    requires (2 <= from && k <= 6) || (7 <= from && k <= 12)
    ensures Perform(t, Actions(PIECES)[..k]) == Perform(t, Actions(PIECES)[..from])
    decreases k
  {
    hide Fold, Performed, Perform;
    if from < k {
      PiecesIdle(t, from, k - 1);
      PerformNext(t, Actions(PIECES), k - 1);
      SameSize(t, Actions(PIECES)[..k - 1]);
      EachPerformed(Perform(t, Actions(PIECES)[..k - 1]));
    }
  }

  lemma PieceDone(t: Term, k: nat) returns (r: Term)
    requires t.rows >= 1 && t.cols >= 1 && k < 15
    ensures r == Perform(t, Actions(PIECES)[..k]) && r.rows == t.rows && r.cols == t.cols
    ensures Perform(t, Actions(PIECES)[..k + 1]) == Performed(r, ActionOf(PIECES[k]))
  {
    hide Fold, Performed, Perform;
    r := Perform(t, Actions(PIECES)[..k]);
    SameSize(t, Actions(PIECES)[..k]);
    PerformNext(t, Actions(PIECES), k);
  }

  lemma PiecesPerformed(t: Term)
    requires t.rows >= 1 && t.cols >= 1
    ensures Perform(t, Actions(PIECES)) == AfterPrelude(t)
  {
    hide Fold, Performed, Perform, LeaveAlt, WholeRegion, BlankScreen, Actions;
    var acts := Actions(PIECES);
    NothingPerformed(t);
    assert acts[..0] == [] && acts[..15] == acts by { AllPieces(); }
    var t0 := PieceDone(t, 0);
    EachPerformed(t0);
    var t1 := PieceDone(t, 1);
    EachPerformed(t1);
    PiecesIdle(t, 2, 6);
    var t6 := PieceDone(t, 6);
    EachPerformed(t6);
    PiecesIdle(t, 7, 12);
    var t12 := PieceDone(t, 12);
    EachPerformed(t12);
    var t13 := PieceDone(t, 13);
    EachPerformed(t13);
    var t14 := PieceDone(t, 14);
    EachPerformed(t14);
  }

  lemma AllPieces()
    ensures |Actions(PIECES)| == 15
  {
  }

  /** From wherever a browser and its terminal are, what the browser hands on for the prelude's bytes makes of
      the terminal what the prelude is said to. */
  lemma PreludeBytesClear(w: Browser, t: Term)
    requires Clean(w.x) && t.Valid()
    ensures var y := ReceiveAll(w, PreludeBytes());
            && w.x.log <= y.x.log
            && Perform(t, y.x.log[|w.x.log|..]) == AfterPrelude(t) == Fresh(t.rows, t.cols).(saved := NormalSlot(t))
  {
    hide Fold, Performed, ReceiveAll, AfterPrelude, Actions, PreludeBytes, Fresh;
    PreludeSyncs(w, []);
    var y := ReceiveAll(w, PreludeBytes());
    assert y.x.log == w.x.log + (Cancelling(w.x) + Actions(PIECES));
    assert y.x.log[|w.x.log|..] == Cancelling(w.x) + Actions(PIECES);
    FoldConcat(Performed, t, Cancelling(w.x), Actions(PIECES));
    PerformControl(t, w.x);
    PiecesPerformed(t);
    PreludeClears(t);
  }

  // ---- what a restore draws does not look at the saved cursor ----

  predicate Saves(op: Op) {
    op.SaveCursor? || op.EnterAlt?
  }

  predicate SavesNothing(ops: seq<Op>) {
    forall i :: 0 <= i < |ops| ==> !Saves(ops[i])
  }

  lemma StepElsewhere(t: Term, op: Op, slot: Slot)
    ensures !Saves(op) ==> Apply(t.(saved := slot), op) == Apply(t, op).(saved := slot) && Apply(t, op).saved == t.saved
  {
    hide PrintGlyph, LineFeed, DeleteLine, EraseCells, BlankScreen;
    if t.Valid() && t.cols >= 2 {
      match op
      case Print(g) => PrintElsewhere(t, g, slot);
      case CrLf => LineFeedElsewhere(t.(col := 0), slot);
      case Dl => DeleteElsewhere(t, slot);
      case _ =>
    }
  }

  lemma LineFeedElsewhere(t: Term, slot: Slot)
    requires t.Valid()
    ensures LineFeed(t.(saved := slot)) == LineFeed(t).(saved := slot) && LineFeed(t).saved == t.saved
  {
    hide BlankRow;
  }

  lemma DeleteElsewhere(t: Term, slot: Slot)
    requires t.Valid()
    ensures DeleteLine(t.(saved := slot)) == DeleteLine(t).(saved := slot) && DeleteLine(t).saved == t.saved
  {
    hide BlankRow;
  }

  lemma PrintElsewhere(t: Term, g: Glyph, slot: Slot)
    requires t.Valid() && g.Width() <= t.cols
    ensures PrintGlyph(t.(saved := slot), g) == PrintGlyph(t, g).(saved := slot) && PrintGlyph(t, g).saved == t.saved
  {
    hide WriteCells, Unpaired;
    var a := SetCells(t, Unpaired(t.screen[t.row].cells, t.col, t.pen));
    WrapElsewhere(a, slot);
  }

  lemma WrapElsewhere(t: Term, slot: Slot)
    requires t.Valid()
    ensures Wrap(t.(saved := slot)) == Wrap(t).(saved := slot) && Wrap(t).saved == t.saved
  {
    hide NullsFrom, BlankRow;
  }

  lemma {:induction false} ExecElsewhere(t: Term, ops: seq<Op>, slot: Slot)
    requires SavesNothing(ops)
    ensures Exec(t.(saved := slot), ops) == Exec(t, ops).(saved := slot) && Exec(t, ops).saved == t.saved
    decreases |ops|
  {
    hide Apply;
    if ops != [] {
      var k := |ops| - 1;
      ExecElsewhere(t, ops[..k], slot);
      StepElsewhere(Exec(t, ops[..k]), ops[k], slot);
    }
  }

  lemma StepSaves(t: Term, op: Op, slot: Slot)
    requires t.Valid() && t.cols >= 2 && Saves(op)
    ensures Apply(t.(saved := slot), op) == Apply(t, op)
  {
    hide BlankScreen;
  }

  lemma {:induction false} ExecValid(t: Term, ops: seq<Op>)
    requires t.Valid() && t.cols >= 2
    ensures Exec(t, ops).Valid() && Exec(t, ops).cols == t.cols
    decreases |ops|
  {
    hide Term.Valid;
    if ops != [] {
      ExecValid(t, ops[..|ops| - 1]);
    }
  }

  /** Once something is saved, what was saved before is forgotten. */
  lemma {:induction false} ExecSaves(t: Term, ops: seq<Op>, slot: Slot)
    requires t.Valid() && t.cols >= 2 && !SavesNothing(ops)
    ensures Exec(t.(saved := slot), ops) == Exec(t, ops)
    decreases |ops|
  {
    hide Apply, Term.Valid;
    var k := |ops| - 1;
    if SavesNothing(ops[..k]) {
      assert forall i :: 0 <= i < k ==> ops[i] == ops[..k][i];
      ExecElsewhere(t, ops[..k], slot);
      ExecValid(t, ops[..k]);
      StepSaves(Exec(t, ops[..k]), ops[k], slot);
    } else {
      ExecSaves(t, ops[..k], slot);
    }
  }

  // ---- what is drawn saves nothing ----

  lemma EmitSaves(pk: Pk, op: Op)
    ensures SavesNothing(Emit(pk, op).out) <==> SavesNothing(pk.out) && !Saves(op)
  {
    var out := pk.out + [op];
    assert out[|pk.out|] == op;
    assert forall i :: 0 <= i < |pk.out| ==> pk.out[i] == out[i];
  }

  lemma SetPenSaves(pk: Pk, st: Style)
    ensures SavesNothing(SetPen(pk, st).out) <==> SavesNothing(pk.out)
  {
    EmitSaves(pk, Sgr(st));
  }

  /** A pen, and then something that saves nothing. */
  lemma PenSaves(pk: Pk, st: Style, op: Op)
    requires !Saves(op)
    ensures SavesNothing(Emit(SetPen(pk, st), op).out) <==> SavesNothing(pk.out)
  {
    hide SavesNothing, Emit, SetPen;
    SetPenSaves(pk, st);
    EmitSaves(SetPen(pk, st), op);
  }

  lemma ForwardSaves(pk: Pk, n: int)
    ensures SavesNothing(Forward(pk, n).out) <==> SavesNothing(pk.out)
  {
    hide SavesNothing;
    if n > 0 {
      EmitSaves(pk, Cuf(n));
    }
  }

  lemma SkipSaves(d: Draw)
    ensures SavesNothing(FlushSkip(d).pk.out) <==> SavesNothing(d.pk.out)
  {
    ForwardSaves(d.pk, d.skip);
  }

  lemma FlushSaves(d: Draw)
    ensures SavesNothing(FlushRun(d).pk.out) <==> SavesNothing(d.pk.out)
    ensures SavesNothing(ToCell(d).pk.out) <==> SavesNothing(d.pk.out)
  {
    hide SavesNothing, Emit, SetPen, FlushSkip;
    SkipSaves(d);
    PenSaves(FlushSkip(d).pk, Erased(d.runBg), Ech(d.run));
    PenSaves(FlushSkip(d).pk, DEFAULT_STYLE, Ech(1));
    SkipSaves(FlushRun(d));
  }

  lemma MarkedSaves(pk: Pk, col: nat, st: Style, next: Option<Item>)
    ensures SavesNothing(MarkedOps(pk, col, st, next).out) <==> SavesNothing(pk.out)
  {
    hide SavesNothing, Emit, SetPen;
    var p0 := Emit(pk, Print(WIDE_FILLER));
    var p1 := Emit(p0, Cha(col + 1));
    var p2 := Emit(SetPen(p1, st), Print(SPACE));
    EmitSaves(pk, Print(WIDE_FILLER));
    EmitSaves(p0, Cha(col + 1));
    PenSaves(p1, st, Print(SPACE));
    EmitSaves(p2, Cha(col + 1));
    PenSaves(Emit(p2, Cha(col + 1)), Erased(if next.Some? then next.value.style.bg else Default), Ech(1));
  }

  lemma BeforeMarkedSaves(pk: Pk, col: nat, g: Glyph, st: Style)
    ensures SavesNothing(BeforeMarkedOps(pk, col, g, st).out) <==> SavesNothing(pk.out)
  {
    hide SavesNothing, Emit, SetPen;
    var p0 := Emit(pk, Cha(col + g.Width() - 1));
    var p1 := Emit(p0, Print(WIDE_FILLER));
    EmitSaves(pk, Cha(col + g.Width() - 1));
    EmitSaves(p0, Print(WIDE_FILLER));
    EmitSaves(p1, Cha(col));
    PenSaves(Emit(p1, Cha(col)), st, Print(g));
  }

  lemma TurnSaves(d: Draw, its: seq<Item>, cols: nat, rowMarked: bool)
    requires |its| > 0
    ensures SavesNothing(DrawTurn(d, its, cols, rowMarked).0.pk.out) <==> SavesNothing(d.pk.out)
  {
    hide FlushRun, ToCell, SavesNothing, MarkedOps, BeforeMarkedOps, Emit, SetPen;
    var st := its[0].style;
    if TakesMarked(d, its, cols, rowMarked) {
      var e := d.(end := d.end + 1, lastEmpty := true, lastStyle := st);
      FlushSaves(e);
      MarkedSaves(ToCell(e).pk, d.end, st, Peek(its));
    } else if its[0].Blank? {
      FlushSaves(d.(end := d.end + 1, lastEmpty := true, lastStyle := st));
    } else {
      var e := d.(end := d.end + its[0].glyph.Width(), lastEmpty := false);
      FlushSaves(e);
      PenSaves(ToCell(e).pk, st, Print(its[0].glyph));
      BeforeMarkedSaves(ToCell(e).pk, d.end, its[0].glyph, st);
    }
  }

  lemma {:induction false} FromSaves(d: Draw, its: seq<Item>, cols: nat, rowMarked: bool)
    ensures SavesNothing(DrawFrom(d, its, cols, rowMarked).pk.out) <==> SavesNothing(d.pk.out)
    decreases |its|
  {
    hide DrawTurn, SavesNothing;
    if its != [] {
      var (d', n) := DrawTurn(d, its, cols, rowMarked);
      TurnSaves(d, its, cols, rowMarked);
      FromSaves(d', its[n..], cols, rowMarked);
    }
  }

  lemma RowSaves(pk: Pk, ln: Line, cols: nat, scrub: bool)
    ensures SavesNothing(DrawRow(pk, ln, cols, scrub).0.out) <==> SavesNothing(pk.out)
  {
    hide DrawFrom, Items, FlushRun, AnyMarked, SavesNothing, Emit, SetPen;
    var d := DrawFrom(StartDraw(pk, scrub), Items(ln, cols), cols, AnyMarked(ln.spans));
    FromSaves(StartDraw(pk, scrub), Items(ln, cols), cols, AnyMarked(ln.spans));
    FlushSaves(d);
    var e := FlushRun(d).pk;
    PenSaves(e, DEFAULT_STYLE, Ech(1));
    SetPenSaves(e, DEFAULT_STYLE);
    SetPenSaves(Emit(SetPen(e, DEFAULT_STYLE), Ech(1)), DEFAULT_STYLE);
  }

  lemma ContinueSaves(pk: Pk, prev: RowEnd, ln: Line, cols: nat)
    ensures SavesNothing(ContinueRow(pk, prev, ln, cols).0.out) <==> SavesNothing(pk.out)
  {
    hide FirstCell, SavesNothing, Emit, SetPen, Forward;
    EmitSaves(pk, Print(SPACE));
    EmitSaves(Emit(pk, Print(SPACE)), Cha(0));
    if prev.x < cols {
      var f := Forward(pk, cols - 1 - prev.x);
      var p1 := Emit(Emit(f, Print(SPACE)), Print(SPACE));
      var p2 := Emit(SetPen(Emit(Emit(p1, Cuu), Cha(cols - 1)), Erased(prev.tail.bg)), Ech(1));
      ForwardSaves(pk, cols - 1 - prev.x);
      EmitSaves(f, Print(SPACE));
      EmitSaves(Emit(f, Print(SPACE)), Print(SPACE));
      EmitSaves(p1, Cuu);
      EmitSaves(Emit(p1, Cuu), Cha(cols - 1));
      PenSaves(Emit(Emit(p1, Cuu), Cha(cols - 1)), Erased(prev.tail.bg), Ech(1));
      PenSaves(p2, DEFAULT_STYLE, Cud);
      EmitSaves(Emit(SetPen(p2, DEFAULT_STYLE), Cud), Cha(0));
    }
  }

  lemma LeadingSaves(pk: Pk, ln: Line, cols: nat)
    requires cols >= 1
    ensures SavesNothing(LeadingContinuation(pk, ln, cols).0.out) <==> SavesNothing(pk.out)
  {
    hide FirstCell, SavesNothing, Emit;
    var p1 := Emit(pk, Cup(0, cols - 1));
    var p2 := Emit(p1, Print(SPACE));
    var p3 := Emit(p2, Print(SPACE));
    EmitSaves(pk, Cup(0, cols - 1));
    EmitSaves(p1, Print(SPACE));
    EmitSaves(p2, Print(SPACE));
    EmitSaves(p3, Cup(0, 0));
    EmitSaves(Emit(p3, Cup(0, 0)), Dl);
  }

  lemma {:induction false} RowsSave(pk: Pk, lines: seq<Line>, i: nat, prev: RowEnd, cols: nat, absolute: bool)
    requires cols >= 1
    ensures SavesNothing(DrawRowsFrom(pk, lines, i, prev, cols, absolute).out) <==> SavesNothing(pk.out)
    decreases |lines| - i
  {
    hide DrawRow, ContinueRow, LeadingContinuation, SavesNothing, Emit;
    if i < |lines| {
      var ln := lines[i];
      if absolute && !ln.wrapped && BlankLine(ln) && !Continues(lines, i + 1) {
        RowsSave(pk, lines, i + 1, prev, cols, absolute);
      } else {
        ContinueSaves(pk, prev, ln, cols);
        LeadingSaves(pk, ln, cols);
        EmitSaves(pk, Cup(i, 0));
        EmitSaves(pk, CrLf);
        var (p1, scrub) :=
          if ln.wrapped && i > 0 then ContinueRow(pk, prev, ln, cols)
          else if ln.wrapped then LeadingContinuation(pk, ln, cols)
          else if absolute then (Emit(pk, Cup(i, 0)), false)
          else if i > 0 then (Emit(pk, CrLf), false)
          else (pk, false);
        RowSaves(p1, ln, cols, scrub);
        var (p2, end) := DrawRow(p1, ln, cols, scrub);
        RowsSave(p2, lines, i + 1, end, cols, absolute);
      }
    }
  }

  lemma PlaceSaves(pk: Pk, lines: seq<Line>, row: nat, col: nat, pen: Style, cols: nat)
    requires cols >= 1
    ensures SavesNothing(PlaceAndPen(pk, lines, row, col, pen, cols).out) <==> SavesNothing(pk.out)
  {
    hide LastChar, Items, SavesNothing, Emit, SetPen;
    EmitSaves(pk, Cup(row, col));
    EmitSaves(pk, Cup(row, cols - 1));
    if row < |lines| && LastChar(Items(lines[row], cols), 0, cols).Some? {
      var c := LastChar(Items(lines[row], cols), 0, cols).value;
      EmitSaves(pk, Cup(row, c.0));
      PenSaves(Emit(pk, Cup(row, c.0)), c.2, Print(c.1));
    }
    SetPenSaves(PlaceCursor(pk, lines, row, col, cols), pen);
  }

  lemma RegionSaves(pk: Pk, top: nat, bot: nat, rows: nat)
    ensures SavesNothing(SetRegion(pk, top, bot, rows).out) <==> SavesNothing(pk.out)
  {
    hide SavesNothing, Emit;
    EmitSaves(pk, Region(top, bot));
  }

  lemma SwitchSaves(pk: Pk)
    ensures !SavesNothing(SwitchScreen(pk).out)
  {
    assert SwitchScreen(pk).out[|pk.out|] == EnterAlt;
  }

  lemma ScreensSave(t: Term)
    requires t.cols >= 1 && t.rows >= 1
    ensures SavesNothing(WriteScreens(t).out) <==> t.parked.NoParked?
  {
    hide SavesNothing, DrawRowsFrom, PlaceAndPen, SetRegion, SwitchScreen;
    var lines := EncodeAll(t.history) + EncodeAll(NormalScreen(t));
    StartSaves();
    RowsSave(StartPk(), lines, 0, NO_END, t.cols, false);
    if t.parked.Parked? {
      var k := t.parked;
      var p2 := PlaceAndPen(SetRegion(DrawRows(StartPk(), lines, t.cols, false), k.top, k.bot, t.rows),
                            EncodeAll(k.screen), k.row, k.col, k.pen, t.cols);
      SwitchSaves(p2);
      RowsSave(SwitchScreen(p2), EncodeAll(t.screen), 0, NO_END, t.cols, true);
    }
  }

  lemma StartSaves()
    ensures SavesNothing(StartPk().out)
  {
  }

  /** A keyframe saves nothing exactly when the state has nothing saved and no parked screen. */
  lemma KeyframeSaves(t: Term)
    requires t.cols >= 1 && t.rows >= 1
    ensures SavesNothing(Keyframe(t).out) <==> t.parked.NoParked? && t.saved == NO_SLOT
  {
    hide SavesNothing, WriteScreens, PlaceAndPen, SetRegion, Emit;
    var p, lines := WriteScreens(t), EncodeAll(t.screen);
    var r := SetRegion(p, t.top, t.bot, t.rows);
    ScreensSave(t);
    RegionSaves(p, t.top, t.bot, t.rows);
    EmitSaves(PlaceAndPen(r, lines, Min(t.saved.row, t.rows - 1), t.saved.col, t.saved.pen, t.cols), SaveCursor);
    PlaceSaves(r, lines, Min(t.saved.row, t.rows - 1), t.saved.col, t.saved.pen, t.cols);
    PlaceSaves(WriteSaved(r, t), lines, t.row, t.col, t.pen, t.cols);
  }

  // ---- a restore over what was there ----

  /** A restore over any terminal of that size: it shows what it would show on a terminal that has just come
      up, but for the saved cursor, which stays where the state has nothing to save. */
  lemma RestoreOver(before: Term, t: Term)
    requires Restorable(t) && before.Valid() && before.rows == t.rows && before.cols == t.cols
    ensures Exec(AfterPrelude(before), RestoreOps(t))
         == var x := Exec(Fresh(t.rows, t.cols), RestoreOps(t));
            if t.parked.NoParked? && t.saved == NO_SLOT then x.(saved := NormalSlot(before)) else x
    ensures Exec(AfterPrelude(before), RestoreOps(t)) == t
            <==> Exec(Fresh(t.rows, t.cols), RestoreOps(t)) == t
                 && (t.parked.NoParked? && t.saved == NO_SLOT ==> NormalSlot(before) == NO_SLOT)
  {
    hide Exec, Keyframe, AfterPrelude, BlankScreen;
    RestorableSizes(t);
    PreludeClears(before);
    var f := Fresh(t.rows, t.cols);
    OpsSave(t);
    if t.parked.NoParked? && t.saved == NO_SLOT {
      ExecElsewhere(f, RestoreOps(t), NormalSlot(before));
    } else {
      FreshValid(t.rows, t.cols);
      ExecSaves(f, RestoreOps(t), NormalSlot(before));
    }
  }

  lemma OpsSave(t: Term)
    requires t.cols >= 1 && t.rows >= 1
    ensures SavesNothing(RestoreOps(t)) <==> t.parked.NoParked? && t.saved == NO_SLOT
  {
    hide Keyframe;
    KeyframeSaves(t);
  }

  lemma FreshValid(rows: nat, cols: nat)
    requires rows >= 1 && cols >= 1
    ensures Fresh(rows, cols).Valid()
  {
  }

  /** So a page that kept its terminal shows the state exactly when a new one would, unless the state has no
      cursor saved and the page has. */
  lemma RestoredOver(before: Term, t: Term)
    requires Restorable(t) && before.Valid() && before.rows == t.rows && before.cols == t.cols
    ensures Exec(AfterPrelude(before), RestoreOps(t)) == t
            <==> (if Pristine(t) then Untyped(t.screen) else Faithful(t))
                 && (t.parked.NoParked? && t.saved == NO_SLOT ==> NormalSlot(before) == NO_SLOT)
  {
    hide Exec, RestoreOps, AfterPrelude, Fresh, Restorable, Faithful, Pristine, Untyped;
    RestorableSizes(t);
    RestoreOver(before, t);
    RestoreRoundTrip(t);
  }
}
