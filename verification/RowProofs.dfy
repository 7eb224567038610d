/** What a terminal makes of one drawn row. */
module RowProofs {
  import opened Common
  import opened Folds
  import opened Terminal
  import opened Lines
  import opened Drawing

  /** `t` with the row under the cursor, the column and the pen replaced. */
  ghost function On(t: Term, cells: seq<Cell>, col: nat, pen: Style): Term
    requires t.row < |t.screen|
  {
    SetCells(t, cells).(col := col, pen := pen)
  }

  /** Executed from `start`, what has been written leaves the terminal as `t`, pen included. */
  ghost predicate Shows(start: Term, pk: Pk, t: Term) {
    Exec(start, pk.out) == t && pk.pen == t.pen && t.Valid() && t.cols >= 2
  }

  lemma ShowsEmit(start: Term, pk: Pk, t: Term, op: Op)
    requires Shows(start, pk, t)
    ensures Exec(start, Emit(pk, op).out) == Step(t, op)
    ensures !op.Sgr? && Step(t, op).pen == t.pen ==> Shows(start, Emit(pk, op), Step(t, op))
  {
    hide Step;
    FoldOne(Apply, start, pk.out, op);
  }

  lemma ShowsPen(start: Term, pk: Pk, t: Term, st: Style)
    requires Shows(start, pk, t)
    ensures Shows(start, SetPen(pk, st), t.(pen := st))
  {
    if st != pk.pen {
      FoldOne(Apply, start, pk.out, Sgr(st));
    }
  }

  lemma ShowsReset(start: Term, pk: Pk, t: Term, st: Style)
    requires Shows(start, pk, t)
    ensures Shows(start, Pk(pk.out + [Sgr(st)], st), t.(pen := st))
  {
    FoldOne(Apply, start, pk.out, Sgr(st));
  }

  lemma OnPrint(t: Term, cells: seq<Cell>, col: nat, pen: Style, g: Glyph)
    requires t.Valid() && t.cols >= 2 && |cells| == t.cols && col + g.Width() <= t.cols
    ensures Step(On(t, cells, col, pen), Print(g))
         == On(t, WriteCells(Unpaired(cells, col, pen), col, g, pen), col + g.Width(), pen)
  {
    hide WriteCells, Unpaired, Wrap;
    var u := Unpaired(cells, col, pen);
    var w := WriteCells(u, col, g, pen);
    assert t.screen[t.row := t.screen[t.row].(cells := cells)][t.row := t.screen[t.row].(cells := u)]
        == t.screen[t.row := t.screen[t.row].(cells := u)];
    assert t.screen[t.row := t.screen[t.row].(cells := u)][t.row := t.screen[t.row].(cells := w)]
        == t.screen[t.row := t.screen[t.row].(cells := w)];
  }

  lemma OnErase(t: Term, cells: seq<Cell>, col: nat, pen: Style, n: nat)
    requires t.Valid() && t.cols >= 2 && |cells| == t.cols && col < t.cols
    ensures Step(On(t, cells, col, pen), Ech(n)) == On(t, EraseCells(cells, col, n, Erased(pen.bg)), col, pen)
  {
    hide EraseCells;
    var e := EraseCells(cells, col, n, Erased(pen.bg));
    assert t.screen[t.row := t.screen[t.row].(cells := cells)][t.row := t.screen[t.row].(cells := e)]
        == t.screen[t.row := t.screen[t.row].(cells := e)];
  }

  lemma ForwardShows(start: Term, pk: Pk, t: Term, cells: seq<Cell>, col: nat, n: nat)
    requires t.Valid() && |cells| == t.cols && col + n < t.cols
    requires Shows(start, pk, On(t, cells, col, pk.pen))
    ensures Shows(start, Forward(pk, n), On(t, cells, col + n, pk.pen))
  {
    if n > 0 {
      ShowsEmit(start, pk, On(t, cells, col, pk.pen), Cuf(n));
    }
  }

  lemma PrintShows(start: Term, pk: Pk, t: Term, cells: seq<Cell>, col: nat, g: Glyph)
    requires t.Valid() && t.cols >= 2 && |cells| == t.cols && col + g.Width() <= t.cols
    requires Shows(start, pk, On(t, cells, col, pk.pen))
    ensures Shows(start, Emit(pk, Print(g)), On(t, WriteCells(Unpaired(cells, col, pk.pen), col, g, pk.pen), col + g.Width(), pk.pen))
  {
    OnPrint(t, cells, col, pk.pen, g);
    hide Step, WriteCells, Unpaired;
    ShowsEmit(start, pk, On(t, cells, col, pk.pen), Print(g));
  }

  lemma EraseShows(start: Term, pk: Pk, t: Term, cells: seq<Cell>, col: nat, n: nat)
    requires t.Valid() && t.cols >= 2 && |cells| == t.cols && col < t.cols
    requires Shows(start, pk, On(t, cells, col, pk.pen))
    ensures Shows(start, Emit(pk, Ech(n)), On(t, EraseCells(cells, col, n, Erased(pk.pen.bg)), col, pk.pen))
  {
    OnErase(t, cells, col, pk.pen, n);
    hide Step, EraseCells;
    ShowsEmit(start, pk, On(t, cells, col, pk.pen), Ech(n));
  }

  // ---- the cells of a row as it fills up ----

  /** Nothing in a row about to be drawn is half of a wide character. */
  ghost predicate Clean(init: seq<Cell>) {
    forall c :: 0 <= c < |init| ==> !init[c].Tail? && !init[c].WideLead()
  }

  ghost predicate Paired(flat: seq<Cell>) {
    forall i :: 0 <= i < |flat| && flat[i].WideLead() ==> i + 1 < |flat| && flat[i + 1].Tail?
  }

  /** Drawing moves over plain empty cells, which therefore keep what the row held, but for `wet` ones;
      the first cell, when it holds a placeholder, is erased. */
  ghost function Over(flat: seq<Cell>, wet: set<nat>, init: seq<Cell>, scrub: bool): (r: seq<Cell>)
    ensures |r| == |init|
  {
    seq(|init|, c requires 0 <= c < |init| =>
      if c < |flat| && (flat[c] != Null(DEFAULT_STYLE) || (c == 0 && scrub) || c in wet) then flat[c] else init[c])
  }

  ghost predicate Below(wet: set<nat>, n: nat) {
    forall c :: c in wet ==> c < n
  }

  function Nulls(n: nat, bg: Color): (r: seq<Cell>)
    ensures |r| == n
  {
    seq(n, i => Null(Erased(bg)))
  }

  lemma OverPrint(flat: seq<Cell>, wet: set<nat>, init: seq<Cell>, scrub: bool, g: Glyph, st: Style)
    requires Paired(flat) && Clean(init) && |flat| + g.Width() <= |init|
    ensures WriteCells(Unpaired(Over(flat, wet, init, scrub), |flat|, st), |flat|, g, st)
         == Over(flat + CellsOf(Char(g, st)), wet, init, scrub)
  {
    var k := |flat|;
    var a := Over(flat, wet, init, scrub);
    assert k > 0 ==> !a[k - 1].WideLead();
    assert Unpaired(a, k, st) == a;
    assert k + g.Width() < |init| ==> a[k + g.Width()] == init[k + g.Width()];
  }

  lemma OverErase(flat: seq<Cell>, wet: set<nat>, init: seq<Cell>, scrub: bool, n: nat, bg: Color)
    requires Paired(flat) && Clean(init) && 1 <= n && |flat| + n <= |init| && bg != Default
    ensures EraseCells(Over(flat, wet, init, scrub), |flat|, n, Erased(bg)) == Over(flat + Nulls(n, bg), wet, init, scrub)
  {
    var k := |flat|;
    var a, more := Over(flat, wet, init, scrub), Over(flat + Nulls(n, bg), wet, init, scrub);
    assert k > 0 ==> !a[k - 1].WideLead();
    assert a[k + n - 1] == init[k + n - 1];
    EraseInside(a, k, n, Erased(bg));
    forall c | 0 <= c < |init| ensures more[c] == if k <= c < k + n then Null(Erased(bg)) else a[c] {
      OverPrefix(flat, Nulls(n, bg), wet, init, scrub, c);
    }
  }

  /** Erasing between whole characters touches nothing else. */
  lemma EraseInside(a: seq<Cell>, k: nat, n: nat, style: Style)
    requires 1 <= n && k + n <= |a| && (k > 0 ==> !a[k - 1].WideLead()) && !a[k + n - 1].WideLead()
    ensures var e := EraseCells(a, k, n, style);
            forall c :: 0 <= c < |a| ==> e[c] == if k <= c < k + n then Null(style) else a[c]
  {
  }

  lemma OverPrefix(flat: seq<Cell>, more: seq<Cell>, wet: set<nat>, init: seq<Cell>, scrub: bool, c: nat)
    requires c < |init|
    ensures c < |flat| ==> Over(flat + more, wet, init, scrub)[c] == Over(flat, wet, init, scrub)[c]
    ensures |flat| <= c < |flat| + |more| && more[c - |flat|] != Null(DEFAULT_STYLE) ==>
              Over(flat + more, wet, init, scrub)[c] == more[c - |flat|]
    ensures |flat| + |more| <= c ==> Over(flat + more, wet, init, scrub)[c] == init[c] == Over(flat, wet, init, scrub)[c]
  {
  }

  lemma OverScrub(init: seq<Cell>, n: nat)
    requires Clean(init) && 1 <= n <= |init|
    ensures EraseCells(Over([], {}, init, true), 0, 1, Erased(Default)) == Over(Nulls(n, Default), {}, init, true)
  {
    assert Over([], {}, init, true) == init;
  }

  lemma OverSkip(flat: seq<Cell>, wet: set<nat>, init: seq<Cell>, scrub: bool, n: nat)
    requires |flat| + n <= |init| && (|flat| > 0 || !scrub) && Below(wet, |flat|)
    ensures Over(flat + Nulls(n, Default), wet, init, scrub) == Over(flat, wet, init, scrub)
  {
  }

  /** The state of the drawing loop after the cells `flat` of a row that held `init`. */
  ghost predicate Inv(start: Term, t: Term, d: Draw, flat: seq<Cell>, wet: set<nat>, init: seq<Cell>, scrub: bool) {
    && t.Valid() && t.cols >= 2 && |init| == t.cols && Clean(init)
    && |flat| == d.end <= t.cols && d.run <= d.end && Paired(flat)
    && (var k := d.end - d.run;
        && Below(wet, k)
        && Shows(start, d.pk, On(t, Over(flat[..k], wet, init, scrub), d.x, d.pk.pen))
        && d.x + d.skip == k
        && flat[k..] == Nulls(d.run, d.runBg)
        && (d.run > 0 ==> d.runStart == k)
        && d.scrub == (scrub && k == 0))
    && d.lastEmpty == (flat != [] && flat[|flat| - 1].Null?)
    && (d.lastEmpty <==> d.skip + d.run > 0)
  }

  /** Moving to the run and erasing it in a background. */
  lemma GoErase(start: Term, t: Term, d: Draw, cells: seq<Cell>, bg: Color, n: nat)
    requires t.Valid() && t.cols >= 2 && |cells| == t.cols && d.x + d.skip < t.cols
    requires Shows(start, d.pk, On(t, cells, d.x, d.pk.pen))
    ensures var k := d.x + d.skip;
            var p := Emit(SetPen(FlushSkip(d).pk, Erased(bg)), Ech(n));
            p.pen == Erased(bg) && Shows(start, p, On(t, EraseCells(cells, k, n, Erased(bg)), k, Erased(bg)))
  {
    hide EraseCells, Step, Exec;
    ForwardShows(start, d.pk, t, cells, d.x, d.skip);
    var k, s := d.x + d.skip, FlushSkip(d);
    ShowsPen(start, s.pk, On(t, cells, k, s.pk.pen), Erased(bg));
    EraseShows(start, SetPen(s.pk, Erased(bg)), t, cells, k, n);
  }

  /** The cells before the gathered run. */
  lemma BeforeRun(flat: seq<Cell>, k: nat, run: nat, bg: Color)
    requires |flat| == k + run && flat[k..] == Nulls(run, bg) && Paired(flat)
    ensures var done := flat[..k];
            && flat == done + Nulls(run, bg) && flat[..|flat|] == flat && flat[|flat|..] == Nulls(0, bg)
            && (run > 0 ==> Paired(done))
  {
    var done := flat[..k];
    if run > 0 {
      assert flat[k] == flat[k..][0];
      forall i | 0 <= i < k && done[i].WideLead()
        ensures i + 1 < k && done[i + 1].Tail?
      {
        assert flat[i].WideLead() && flat[k].Null?;
      }
    }
  }

  lemma FlushRunInv(start: Term, t: Term, d: Draw, flat: seq<Cell>, wet: set<nat>, init: seq<Cell>, scrub: bool)
    requires Inv(start, t, d, flat, wet, init, scrub)
    ensures Inv(start, t, FlushRun(d), flat, wet, init, scrub) && FlushRun(d).run == 0
    ensures FlushRun(d).end == d.end && FlushRun(d).lastEmpty == d.lastEmpty && FlushRun(d).lastStyle == d.lastStyle
  {
    hide EraseCells, Step, Exec, Over, On, Clean, Paired, Shows, Emit, SetPen;
    var k := d.end - d.run;
    BeforeRun(flat, k, d.run, d.runBg);
    var done := flat[..k];
    var cells := Over(done, wet, init, scrub);
    if d.run > 0 {
      if d.runBg != Default {
        GoErase(start, t, d, cells, d.runBg, d.run);
        OverErase(done, wet, init, scrub, d.run, d.runBg);
      } else if d.scrub && d.runStart == 0 {
        GoErase(start, t, d, cells, Default, 1);
        assert done == [] && flat == Nulls(d.run, Default);
        assert wet == {};
        OverScrub(init, d.run);
      } else {
        OverSkip(done, wet, init, scrub, d.run);
      }
    } else {
      NoRun(d);
    }
  }

  lemma NoRun(d: Draw)
    requires d.run == 0
    ensures FlushRun(d) == d
  {
  }

  /** One more cell in the run being gathered, or the first of one. */
  lemma GrowRun(start: Term, t: Term, d: Draw, flat: seq<Cell>, wet: set<nat>, init: seq<Cell>, scrub: bool, st: Style, r: Draw)
    requires Inv(start, t, d, flat, wet, init, scrub) && d.end < t.cols && (d.run == 0 || st.bg == d.runBg)
    requires r == d.(end := d.end + 1, lastEmpty := true, lastStyle := st,
                     runStart := if d.run == 0 then d.end else d.runStart, runBg := st.bg, run := d.run + 1)
    ensures Inv(start, t, r, flat + [Null(Erased(st.bg))], wet, init, scrub)
  {
    hide Over, On, Exec, Clean, Shows, Paired, Below, Nulls, Term.Valid;
    var k, more := d.end - d.run, flat + [Null(Erased(st.bg))];
    RunCells(flat, k, d.run, st.bg);
    PairedNull(flat, st.bg);
    assert r.end - r.run == k && more[..k] == flat[..k];
    assert more[k..] == Nulls(r.run, r.runBg);
    assert more[|more| - 1].Null?;
  }

  lemma RunCells(flat: seq<Cell>, k: nat, run: nat, bg: Color)
    requires |flat| == k + run
    ensures var more := flat + [Null(Erased(bg))];
            more[..k] == flat[..k] && more[k..] == flat[k..] + [Null(Erased(bg))]
            && Nulls(run, bg) + [Null(Erased(bg))] == Nulls(run + 1, bg)
            && (run == 0 ==> flat[k..] == Nulls(0, bg))
  {
  }

  lemma PairedNull(flat: seq<Cell>, bg: Color)
    requires Paired(flat)
    ensures Paired(flat + [Null(Erased(bg))])
  {
  }

  lemma BlankInv(start: Term, t: Term, d: Draw, flat: seq<Cell>, wet: set<nat>, init: seq<Cell>, scrub: bool, st: Style)
    requires Inv(start, t, d, flat, wet, init, scrub) && d.end < t.cols
    ensures Inv(start, t, DrawBlank(d, st), flat + [Null(Erased(st.bg))], wet, init, scrub)
    ensures DrawBlank(d, st).end == d.end + 1 && DrawBlank(d, st).lastStyle == st
  {
    hide FlushRun, Inv;
    var d1 := d.(end := d.end + 1, lastEmpty := true, lastStyle := st);
    var r := DrawBlank(d, st);
    if d.run > 0 && st.bg != d.runBg {
      FlushRunInv(start, t, d, flat, wet, init, scrub);
      FlushRunKeeps(d, d1);
      GrowRun(start, t, FlushRun(d), flat, wet, init, scrub, st, r);
    } else {
      GrowRun(start, t, d, flat, wet, init, scrub, st, r);
    }
  }

  /** What a flush writes does not depend on the bookkeeping of the last cell. */
  lemma FlushRunKeeps(d: Draw, d1: Draw)
    requires d1 == d.(end := d1.end, lastEmpty := d1.lastEmpty, lastStyle := d1.lastStyle)
    ensures FlushRun(d1) == FlushRun(d).(end := d1.end, lastEmpty := d1.lastEmpty, lastStyle := d1.lastStyle)
  {
  }

  /** The pen held once a gathered run is flushed. */
  function Flushed(d: Draw): Style {
    FlushRun(d).pk.pen
  }

  lemma BlankPenOf(d: Draw, scrub: bool, st: Style)
    requires d.run <= d.end && (d.run > 0 ==> d.runStart == d.end - d.run) && d.scrub == (scrub && d.end - d.run == 0)
    ensures Flushed(DrawBlank(d, st)) == if st.bg != Default then Erased(st.bg)
                                         else if d.end == 0 && scrub then DEFAULT_STYLE else Flushed(d)
  {
    hide Forward;
  }

  lemma BlankPen(start: Term, t: Term, d: Draw, flat: seq<Cell>, wet: set<nat>, init: seq<Cell>, scrub: bool, st: Style)
    requires Inv(start, t, d, flat, wet, init, scrub)
    ensures Flushed(DrawBlank(d, st)) == if st.bg != Default then Erased(st.bg)
                                         else if d.end == 0 && scrub then DEFAULT_STYLE else Flushed(d)
  {
    hide Over, On, Exec, Clean, Shows, Paired, Below, Forward, Flushed, DrawBlank;
    BlankPenOf(d, scrub, st);
  }

  /** The drawing state with nothing gathered. */
  lemma Settled(start: Term, t: Term, e: Draw, flat: seq<Cell>, wet: set<nat>, init: seq<Cell>, scrub: bool)
    requires Inv(start, t, e, flat, wet, init, scrub) && e.run == 0
    ensures t.Valid() && 2 <= t.cols == |init| && Clean(init) && Paired(flat) && Below(wet, |flat|)
    ensures e.x + e.skip == e.end == |flat| <= t.cols && e.scrub == (scrub && flat == [])
    ensures Shows(start, e.pk, On(t, Over(flat, wet, init, scrub), e.x, e.pk.pen))
    ensures e.lastEmpty == (flat != [] && flat[|flat| - 1].Null?)
    ensures e.lastEmpty <==> 0 < e.skip
  {
    hide Exec, Over, On, Clean, Paired, Below;
    assert flat[..|flat|] == flat;
  }

  /** Everything written so far, with the cursor moved up to the next cell. */
  lemma Reached(start: Term, t: Term, d: Draw, flat: seq<Cell>, wet: set<nat>, init: seq<Cell>, scrub: bool)
    requires Inv(start, t, d, flat, wet, init, scrub) && d.end < t.cols
    ensures t.Valid() && 2 <= t.cols == |init| && Clean(init) && Paired(flat) && Below(wet, |flat|) && |flat| == d.end
    ensures var s := ToCell(d);
            && s == FlushRun(d).(pk := s.pk, x := d.end, skip := 0) && s.pk.pen == Flushed(d) && s.run == 0
            && Shows(start, s.pk, On(t, Over(flat, wet, init, scrub), d.end, s.pk.pen))
  {
    hide FlushRun, Over, On, Exec, Clean, Paired, Shows, Inv, Below;
    FlushRunInv(start, t, d, flat, wet, init, scrub);
    var e := FlushRun(d);
    Settled(start, t, e, flat, wet, init, scrub);
    ForwardShows(start, e.pk, t, Over(flat, wet, init, scrub), e.x, e.skip);
  }

  /** The row the cursor is moved to does not depend on the bookkeeping of the last cell. */
  lemma ToCellKeeps(d: Draw, d1: Draw)
    requires d1 == d.(end := d1.end, lastEmpty := d1.lastEmpty, lastStyle := d1.lastStyle)
    ensures ToCell(d1) == ToCell(d).(end := d1.end, lastEmpty := d1.lastEmpty, lastStyle := d1.lastStyle)
    ensures Flushed(d1) == Flushed(d)
  {
    hide FlushRun;
    FlushRunKeeps(d, d1);
  }

  /** The character itself, once the cursor stands where it goes. */
  lemma CharShows(start: Term, t: Term, pk: Pk, flat: seq<Cell>, wet: set<nat>, init: seq<Cell>, scrub: bool, g: Glyph, st: Style)
    requires t.Valid() && 2 <= t.cols == |init| && Clean(init) && Paired(flat) && |flat| + g.Width() <= t.cols
    requires Shows(start, pk, On(t, Over(flat, wet, init, scrub), |flat|, pk.pen))
    ensures var p := Emit(SetPen(pk, st), Print(g));
            p.pen == st
            && Shows(start, p, On(t, Over(flat + CellsOf(Char(g, st)), wet, init, scrub), |flat| + g.Width(), st))
  {
    hide WriteCells, Unpaired, Step, Over, On, Clean, Paired, Exec;
    var cells := Over(flat, wet, init, scrub);
    ShowsOnPen(start, pk, t, cells, |flat|, st);
    PrintShows(start, SetPen(pk, st), t, cells, |flat|, g);
    OverPrint(flat, wet, init, scrub, g, st);
  }

  lemma ShowsOnPen(start: Term, pk: Pk, t: Term, cells: seq<Cell>, col: nat, st: Style)
    requires t.row < |t.screen| && Shows(start, pk, On(t, cells, col, pk.pen))
    ensures SetPen(pk, st).pen == st && Shows(start, SetPen(pk, st), On(t, cells, col, st))
  {
    hide Exec;
    ShowsPen(start, pk, On(t, cells, col, pk.pen), st);
  }

  lemma PairedChar(flat: seq<Cell>, g: Glyph, st: Style)
    requires Paired(flat)
    ensures var more := flat + CellsOf(Char(g, st)); Paired(more) && !more[|more| - 1].Null?
  {
  }

  /** The drawing state right after a written cell. */
  lemma WrittenInv(start: Term, t: Term, r: Draw, flat: seq<Cell>, wet: set<nat>, init: seq<Cell>, scrub: bool)
    requires t.Valid() && t.cols >= 2 && |init| == t.cols && Clean(init) && Paired(flat) && Below(wet, |flat|)
    requires 0 < |flat| == r.end <= t.cols && !flat[|flat| - 1].Null?
    requires r.run == 0 && r.skip == 0 && r.x == r.end && !r.lastEmpty && !r.scrub
    requires Shows(start, r.pk, On(t, Over(flat, wet, init, scrub), r.end, r.pk.pen))
    ensures Inv(start, t, r, flat, wet, init, scrub)
  {
    hide Over, On, Exec, Clean, Paired, Below;
    assert flat[..|flat|] == flat && flat[|flat|..] == Nulls(0, r.runBg);
  }

  /** The drawing state right after an empty cell made and moved over. */
  lemma BehindInv(start: Term, t: Term, r: Draw, flat: seq<Cell>, wet: set<nat>, init: seq<Cell>, scrub: bool)
    requires t.Valid() && t.cols >= 2 && |init| == t.cols && Clean(init) && Paired(flat) && Below(wet, |flat|)
    requires 1 < |flat| == r.end <= t.cols && flat[|flat| - 1].Null?
    requires r.run == 0 && r.skip == 1 && r.x + 1 == r.end && r.lastEmpty && !r.scrub
    requires Shows(start, r.pk, On(t, Over(flat, wet, init, scrub), r.x, r.pk.pen))
    ensures Inv(start, t, r, flat, wet, init, scrub)
  {
    hide Over, On, Exec, Clean, Paired, Below;
    assert flat[..|flat|] == flat && flat[|flat|..] == Nulls(0, r.runBg);
  }

  lemma BelowMore(wet: set<nat>, n: nat, m: nat)
    requires Below(wet, n) && n <= m
    ensures Below(wet, m)
  {
  }

  lemma CharInv(start: Term, t: Term, d: Draw, flat: seq<Cell>, wet: set<nat>, init: seq<Cell>, scrub: bool, g: Glyph, st: Style)
    requires Inv(start, t, d, flat, wet, init, scrub) && d.end + g.Width() <= t.cols
    ensures Inv(start, t, DrawChar(d, g, st), flat + CellsOf(Char(g, st)), wet, init, scrub)
    ensures DrawChar(d, g, st).end == d.end + g.Width() && Flushed(DrawChar(d, g, st)) == st
  {
    hide FlushRun, Over, On, Exec, Clean, Paired, Shows, Inv, Below, ToCell;
    Reached(start, t, d, flat, wet, init, scrub);
    ToCellKeeps(d, d.(end := d.end + g.Width(), lastEmpty := false));
    var s, r := ToCell(d), DrawChar(d, g, st);
    CharShows(start, t, s.pk, flat, wet, init, scrub, g, st);
    PairedChar(flat, g, st);
    BelowMore(wet, |flat|, |flat| + g.Width());
    WrittenInv(start, t, r, flat + CellsOf(Char(g, st)), wet, init, scrub);
    NoRun(r);
  }

  // ---- the turns that make marked empty cells ----

  /** A wide stand-in printed at `k`, with the cursor put back on its second half. */
  ghost function Half(a: seq<Cell>, k: nat, pen: Style): (r: seq<Cell>)
    requires k + 1 < |a|
    ensures |r| == |a|
  {
    a[k := Lead(WIDE_FILLER, pen)][k + 1 := Tail(pen)]
  }

  lemma FillerCells(flat: seq<Cell>, wet: set<nat>, init: seq<Cell>, scrub: bool, k: nat, pen: Style)
    requires Paired(flat) && Clean(init) && |flat| <= k <= |flat| + 1 && k + 1 < |init|
    ensures var a := Over(flat, wet, init, scrub); WriteCells(Unpaired(a, k, pen), k, WIDE_FILLER, pen) == Half(a, k, pen)
  {
    var a := Over(flat, wet, init, scrub);
    assert k > 0 ==> !a[k - 1].WideLead();
    assert k + 2 < |a| ==> a[k + 2] == init[k + 2];
  }

  lemma FillerShows(start: Term, t: Term, pk: Pk, flat: seq<Cell>, wet: set<nat>, init: seq<Cell>, scrub: bool, k: nat, to: nat)
    requires t.Valid() && t.cols >= 2 && |init| == t.cols && Paired(flat) && Clean(init)
    requires |flat| <= k <= |flat| + 1 && k + 1 < t.cols && to < t.cols
    requires Shows(start, pk, On(t, Over(flat, wet, init, scrub), k, pk.pen))
    ensures Shows(start, Emit(Emit(pk, Print(WIDE_FILLER)), Cha(to)), On(t, Half(Over(flat, wet, init, scrub), k, pk.pen), to, pk.pen))
  {
    hide WriteCells, Unpaired, Over, Half, Exec, Clean, Paired;
    var a := Over(flat, wet, init, scrub);
    FillerCells(flat, wet, init, scrub, k, pk.pen);
    PrintShows(start, pk, t, a, k, WIDE_FILLER);
    hide On;
    GoShows(start, Emit(pk, Print(WIDE_FILLER)), t, Half(a, k, pk.pen), k + 2, to);
  }

  lemma GoShows(start: Term, pk: Pk, t: Term, cells: seq<Cell>, col: nat, to: nat)
    requires t.Valid() && t.cols >= 2 && |cells| == t.cols && col <= t.cols && to < t.cols
    requires Shows(start, pk, On(t, cells, col, pk.pen))
    ensures Shows(start, Emit(pk, Cha(to)), On(t, cells, to, pk.pen))
  {
    hide Exec;
    ShowsEmit(start, pk, On(t, cells, col, pk.pen), Cha(to));
  }

  /** Printing over the second half empties the first, in the style printed. */
  lemma OverHalf(flat: seq<Cell>, wet: set<nat>, init: seq<Cell>, scrub: bool, pen: Style, g: Glyph, st: Style)
    requires Paired(flat) && Clean(init) && |flat| + 1 + g.Width() <= |init|
    requires Marked(st)
    ensures var k := |flat|;
      WriteCells(Unpaired(Half(Over(flat, wet, init, scrub), k, pen), k + 1, st), k + 1, g, st)
      == Over(flat + [Null(st)] + CellsOf(Char(g, st)), wet, init, scrub)
  {
    var k := |flat|;
    var h := Half(Over(flat, wet, init, scrub), k, pen);
    var u := Unpaired(h, k + 1, st);
    assert u == h[k := Null(st)];
    var n := k + 1 + g.Width();
    assert n < |init| ==> u[n] == init[n];
  }

  /** The stand-in for a character in another style. */
  lemma StandIn(flat: seq<Cell>, wet: set<nat>, init: seq<Cell>, scrub: bool, st: Style)
    requires Paired(flat) && Clean(init) && |flat| + 1 < |init| && Marked(st)
    ensures var k := |flat|; var held := init[k + 1 := Lead(SPACE, st)];
            && Clean(held)
            && Over(flat + [Null(st)] + CellsOf(Char(SPACE, st)), wet, init, scrub) == Over(flat + [Null(st)], wet, held, scrub)
  {
  }

  lemma OverLonger(flat: seq<Cell>, wet: set<nat>, init: seq<Cell>, scrub: bool, k: nat, c: Cell)
    requires k < |flat| <= |init| && (flat[k] != Null(DEFAULT_STYLE) || k in wet)
    ensures Over(flat, wet, init[k := c], scrub) == Over(flat, wet, init, scrub)
  {
  }

  /** What has been written of a marked empty cell: a wide stand-in, the cursor on its second half. */
  function FillerOps(pk: Pk, k: nat): Pk {
    Emit(Emit(pk, Print(WIDE_FILLER)), Cha(k + 1))
  }

  /** The same, with a space in the cell's style over that half. */
  function SpaceOps(pk: Pk, k: nat, st: Style): Pk {
    Emit(Emit(SetPen(FillerOps(pk, k), st), Print(SPACE)), Cha(k + 1))
  }

  lemma MarkedShows(start: Term, t: Term, pk: Pk, flat: seq<Cell>, wet: set<nat>, init: seq<Cell>, scrub: bool, st: Style)
    requires t.Valid() && 2 <= t.cols == |init| && Clean(init) && Paired(flat) && |flat| + 1 < t.cols && Marked(st)
    requires Shows(start, pk, On(t, Over(flat, wet, init, scrub), |flat|, pk.pen))
    ensures var k := |flat|; var p, q := FillerOps(pk, k), SpaceOps(pk, k, st);
            && p.pen == pk.pen && Shows(start, p, On(t, Half(Over(flat, wet, init, scrub), k, p.pen), k + 1, p.pen))
            && q.pen == st && Shows(start, q, On(t, Over(flat + [Null(st)], wet, init[k + 1 := Lead(SPACE, st)], scrub), k + 1, st))
  {
    hide WriteCells, Unpaired, Step, Over, Half, On, Exec, Clean, Paired, Marked;
    var k, cells := |flat|, Over(flat, wet, init, scrub);
    FillerShows(start, t, pk, flat, wet, init, scrub, k, k + 1);
    var p := FillerOps(pk, k);
    var half := Half(cells, k, p.pen);
    ShowsOnPen(start, p, t, half, k + 1, st);
    PrintShows(start, SetPen(p, st), t, half, k + 1, SPACE);
    OverHalf(flat, wet, init, scrub, p.pen, SPACE, st);
    StandIn(flat, wet, init, scrub, st);
    var held := init[k + 1 := Lead(SPACE, st)];
    GoShows(start, Emit(SetPen(p, st), Print(SPACE)), t, Over(flat + [Null(st)], wet, held, scrub), k + 2, k + 1);
  }

  lemma PairedMore(flat: seq<Cell>, st: Style, g: Glyph, cs: Style)
    requires Paired(flat)
    ensures Paired(flat + [Null(st)]) && Paired(flat + [Null(st)] + CellsOf(Char(g, cs)))
    ensures !(flat + [Null(st)] + CellsOf(Char(g, cs)))[|flat| + g.Width()].Null?
  {
  }

  /** The drawing state after a marked empty cell's stand-ins, for each of what can come next. */
  lemma MarkedState(d: Draw, st: Style, next: Option<Item>)
    ensures var k, s, r := d.end, ToCell(d), DrawMarked(d, st, next);
            && r.run == s.run && r.x == s.x + 1 && r.scrub == (s.scrub && k != 0)
            && r.pk == MarkedOps(s.pk, k, st, next)
            && (if next.Some? && next.value.Blank? then r.skip == s.skip + 1 && r.end == k + 2 && r.lastStyle == next.value.style
                else r.skip == s.skip && r.end == k + 1 && r.lastStyle == st)
            && r.lastEmpty
  {
    hide ToCell, MarkedOps;
    ToCellKeeps(d, d.(end := d.end + 1, lastEmpty := true, lastStyle := st));
  }

  /** A character drawn when nothing is pending. */
  lemma CharState(d: Draw, g: Glyph, st: Style)
    requires d.run == 0 && d.skip == 0
    ensures var r := DrawChar(d, g, st);
            && r == d.(pk := Emit(SetPen(d.pk, st), Print(g)), x := d.x + g.Width(), end := d.end + g.Width(),
                       lastEmpty := false, scrub := false)
    ensures var r := DrawBeforeMarked(d, g, st);
            && r == d.(pk := BeforeMarkedOps(d.pk, d.end, g, st), x := d.x + g.Width(), skip := 1, end := d.end + g.Width() + 1,
                       lastEmpty := true, lastStyle := st, scrub := false)
  {
    hide BeforeMarkedOps, Emit, SetPen;
  }

  /** Marked, and followed by a character in its own style. */
  lemma MarkedSame(start: Term, t: Term, d: Draw, flat: seq<Cell>, wet: set<nat>, init: seq<Cell>, scrub: bool, st: Style, g: Glyph)
    requires Inv(start, t, d, flat, wet, init, scrub) && d.end + 1 + g.Width() <= t.cols && Marked(st)
    ensures var r := DrawChar(DrawMarked(d, st, Some(Char(g, st))), g, st);
            && Inv(start, t, r, flat + [Null(st)] + CellsOf(Char(g, st)), wet, init, scrub)
            && r.end == d.end + 1 + g.Width() && Flushed(r) == st
  {
    hide FlushRun, Over, Exec, On, Marked, Inv, Shows, Paired, Clean, Below, DrawMarked, DrawChar, ToCell, Half, WriteCells, Unpaired;
    var next, k := Some(Char(g, st)), d.end;
    Reached(start, t, d, flat, wet, init, scrub);
    MarkedState(d, st, next);
    var s, d1 := ToCell(d), DrawMarked(d, st, next);
    MarkedShows(start, t, s.pk, flat, wet, init, scrub, st);
    var half := Half(Over(flat, wet, init, scrub), k, d1.pk.pen);
    assert d1.pk == FillerOps(s.pk, k);
    ShowsOnPen(start, d1.pk, t, half, k + 1, st);
    PrintShows(start, SetPen(d1.pk, st), t, half, k + 1, g);
    OverHalf(flat, wet, init, scrub, d1.pk.pen, g, st);
    CharState(d1, g, st);
    PairedMore(flat, st, g, st);
    BelowMore(wet, |flat|, |flat| + 1 + g.Width());
    var r := DrawChar(d1, g, st);
    WrittenInv(start, t, r, flat + [Null(st)] + CellsOf(Char(g, st)), wet, init, scrub);
    NoRun(r);
  }

  // ---- a character with such a cell behind it ----

  lemma OverBefore(flat: seq<Cell>, wet: set<nat>, init: seq<Cell>, scrub: bool, pen: Style, g: Glyph, st: Style)
    requires Paired(flat) && Clean(init) && |flat| + g.Width() < |init| && Marked(st)
    ensures var k := |flat|;
      WriteCells(Unpaired(Half(Over(flat, wet, init, scrub), k + g.Width() - 1, pen), k, st), k, g, st)
      == Over(flat + CellsOf(Char(g, st)) + [Null(st)], wet, init, scrub)
  {
    var k := |flat|;
    var a := Over(flat, wet, init, scrub);
    assert k > 0 ==> !a[k - 1].WideLead();
    var h := Half(a, k + g.Width() - 1, pen);
    assert Unpaired(h, k, st) == h;
  }

  lemma BeforeMarkedShows(start: Term, t: Term, pk: Pk, flat: seq<Cell>, wet: set<nat>, init: seq<Cell>, scrub: bool, g: Glyph, st: Style)
    requires t.Valid() && t.cols >= 2 && |init| == t.cols && Paired(flat) && Clean(init)
    requires |flat| + g.Width() < t.cols && Marked(st)
    requires Shows(start, pk, On(t, Over(flat, wet, init, scrub), |flat|, pk.pen))
    ensures var q := BeforeMarkedOps(pk, |flat|, g, st);
            q.pen == st
            && Shows(start, q, On(t, Over(flat + CellsOf(Char(g, st)) + [Null(st)], wet, init, scrub), |flat| + g.Width(), st))
  {
    hide Over, Exec, Half, WriteCells, Unpaired, Step, On, Clean, Paired, Marked;
    var k := |flat|;
    var at := k + g.Width() - 1;
    var a := Over(flat, wet, init, scrub);
    GoShows(start, pk, t, a, k, at);
    FillerShows(start, t, Emit(pk, Cha(at)), flat, wet, init, scrub, at, k);
    var p := Emit(Emit(Emit(pk, Cha(at)), Print(WIDE_FILLER)), Cha(k));
    var half := Half(a, at, p.pen);
    ShowsOnPen(start, p, t, half, k, st);
    PrintShows(start, SetPen(p, st), t, half, k, g);
    OverBefore(flat, wet, init, scrub, p.pen, g, st);
  }

  lemma PairedBehind(flat: seq<Cell>, g: Glyph, st: Style)
    requires Paired(flat)
    ensures var more := flat + CellsOf(Char(g, st)) + [Null(st)]; Paired(more)
  {
  }

  lemma BeforeMarkedInv(start: Term, t: Term, d: Draw, flat: seq<Cell>, wet: set<nat>, init: seq<Cell>, scrub: bool, g: Glyph, st: Style)
    requires Inv(start, t, d, flat, wet, init, scrub) && d.end + g.Width() < t.cols && Marked(st)
    ensures var r := DrawBeforeMarked(d, g, st);
            && Inv(start, t, r, flat + CellsOf(Char(g, st)) + [Null(st)], wet, init, scrub)
            && r.end == d.end + g.Width() + 1 && r.lastStyle == st && Flushed(r) == st
  {
    hide FlushRun, Over, Exec, On, Marked, Inv, Shows, Paired, Clean, Below, ToCell, BeforeMarkedOps;
    Reached(start, t, d, flat, wet, init, scrub);
    ToCellKeeps(d, d.(end := d.end + g.Width(), lastEmpty := false));
    var s, r := ToCell(d), DrawBeforeMarked(d, g, st);
    BeforeMarkedShows(start, t, s.pk, flat, wet, init, scrub, g, st);
    PairedBehind(flat, g, st);
    BelowMore(wet, |flat|, |flat| + g.Width() + 1);
    BehindInv(start, t, r, flat + CellsOf(Char(g, st)) + [Null(st)], wet, init, scrub);
    NoRun(r);
  }

  // ---- a marked empty cell with something else behind it ----

  lemma HeldClean(init: seq<Cell>, k: nat, st: Style)
    requires Clean(init) && k < |init|
    ensures Clean(init[k := Lead(SPACE, st)])
  {
  }

  /** Everything written up to a stand-in that the next character will replace. */
  lemma MarkedPen(start: Term, t: Term, d: Draw, flat: seq<Cell>, wet: set<nat>, init: seq<Cell>, scrub: bool, st: Style, next: Option<Item>)
    requires Inv(start, t, d, flat, wet, init, scrub) && d.end + 1 < t.cols && Marked(st)
    requires next.Some? && next.value.Char? && next.value.style != st
    ensures var r := DrawMarked(d, st, next);
            && t.Valid() && 2 <= t.cols == |init| && Clean(init) && Paired(flat) && Below(wet, |flat|) && |flat| == d.end
            && r.run == 0 && r.skip == 0 && r.x == r.end == d.end + 1 && !r.scrub
            && Shows(start, r.pk, On(t, Over(flat + [Null(st)], wet, init[d.end + 1 := Lead(SPACE, st)], scrub), d.end + 1, r.pk.pen))
  {
    hide FlushRun, Over, Exec, On, Marked, Inv, Shows, Paired, Clean, Below, ToCell, DrawMarked;
    Reached(start, t, d, flat, wet, init, scrub);
    ScrubOff(start, t, d, flat, wet, init, scrub);
    MarkedState(d, st, next);
    MarkedShows(start, t, ToCell(d).pk, flat, wet, init, scrub, st);
  }

  /** The placeholder is erased before anything else is drawn past the first cell. */
  lemma ScrubOff(start: Term, t: Term, d: Draw, flat: seq<Cell>, wet: set<nat>, init: seq<Cell>, scrub: bool)
    requires Inv(start, t, d, flat, wet, init, scrub)
    ensures ToCell(d).scrub ==> d.end == 0
  {
    hide FlushRun, Over, Exec, On, Shows, Paired, Clean, Below;
    FlushRunInv(start, t, d, flat, wet, init, scrub);
  }

  lemma MarkedOther(start: Term, t: Term, d: Draw, flat: seq<Cell>, wet: set<nat>, init: seq<Cell>, scrub: bool, st: Style, g: Glyph, cs: Style)
    requires Inv(start, t, d, flat, wet, init, scrub) && d.end + 1 + g.Width() <= t.cols && Marked(st) && cs != st
    ensures var r := DrawChar(DrawMarked(d, st, Some(Char(g, cs))), g, cs);
            && Inv(start, t, r, flat + [Null(st)] + CellsOf(Char(g, cs)), wet, init, scrub)
            && r.end == d.end + 1 + g.Width() && Flushed(r) == cs
  {
    hide FlushRun, Over, Exec, Marked, WriteCells, Unpaired, DrawMarked, DrawChar, Step, Inv, On, Shows, Clean, Paired, Below;
    var next := Some(Char(g, cs));
    MarkedPen(start, t, d, flat, wet, init, scrub, st, next);
    var d1 := DrawMarked(d, st, next);
    var k, more := d.end + 1, flat + [Null(st)];
    var held := init[k := Lead(SPACE, st)];
    HeldClean(init, k, st);
    PairedMore(flat, st, g, cs);
    CharShows(start, t, d1.pk, more, wet, held, scrub, g, cs);
    var all := more + CellsOf(Char(g, cs));
    OverLonger(all, wet, init, scrub, k, Lead(SPACE, st));
    CharState(d1, g, cs);
    BelowMore(wet, |flat|, |all|);
    var r := DrawChar(d1, g, cs);
    WrittenInv(start, t, r, all, wet, init, scrub);
    NoRun(r);
  }

  lemma MarkedBefore(start: Term, t: Term, d: Draw, flat: seq<Cell>, wet: set<nat>, init: seq<Cell>, scrub: bool, st: Style, g: Glyph, cs: Style)
    requires Inv(start, t, d, flat, wet, init, scrub) && d.end + 1 + g.Width() < t.cols && Marked(st) && Marked(cs) && cs != st
    ensures var r := DrawBeforeMarked(DrawMarked(d, st, Some(Char(g, cs))), g, cs);
            && Inv(start, t, r, flat + [Null(st)] + CellsOf(Char(g, cs)) + [Null(cs)], wet, init, scrub)
            && r.end == d.end + 2 + g.Width() && r.lastStyle == cs && Flushed(r) == cs
  {
    hide FlushRun, Over, Exec, Marked, On, DrawMarked, DrawBeforeMarked, BeforeMarkedOps, Inv, Shows, Clean, Paired, Below;
    var next := Some(Char(g, cs));
    MarkedPen(start, t, d, flat, wet, init, scrub, st, next);
    var d1 := DrawMarked(d, st, next);
    var k, more := d.end + 1, flat + [Null(st)];
    HeldClean(init, k, st);
    PairedMore(flat, st, g, cs);
    BeforeMarkedShows(start, t, d1.pk, more, wet, init[k := Lead(SPACE, st)], scrub, g, cs);
    var all := more + CellsOf(Char(g, cs)) + [Null(cs)];
    assert all[k] == Lead(g, cs);
    OverLonger(all, wet, init, scrub, k, Lead(SPACE, st));
    PairedBehind(more, g, cs);
    CharState(d1, g, cs);
    BelowMore(wet, |flat|, |all|);
    var r := DrawBeforeMarked(d1, g, cs);
    BehindInv(start, t, r, all, wet, init, scrub);
    NoRun(r);
  }

  /** Two stand-ins, the second for the cell behind a narrow character of the same style: the first is
      printed over before the pen is set, and leaves the cell in the pen that was held. */
  lemma TwiceHalf(flat: seq<Cell>, wet: set<nat>, init: seq<Cell>, scrub: bool, pen: Style, g: Glyph, st: Style)
    requires Paired(flat) && Clean(init) && |flat| + 2 < |init| && Marked(st) && !g.wide && Below(wet, |flat|)
    ensures var k := |flat|;
            var twice := WriteCells(Unpaired(Half(Over(flat, wet, init, scrub), k, pen), k + 1, pen), k + 1, WIDE_FILLER, pen);
            WriteCells(Unpaired(twice, k + 1, st), k + 1, g, st)
            == Over(flat + [Null(pen)] + CellsOf(Char(g, st)) + [Null(st)], wet + {k}, init, scrub)
  {
    var k := |flat|;
    var half := Half(Over(flat, wet, init, scrub), k, pen);
    var u := Unpaired(half, k + 1, pen);
    assert u == half[k := Null(pen)];
    var twice := WriteCells(u, k + 1, WIDE_FILLER, pen);
    assert k + 3 < |init| ==> u[k + 3] == init[k + 3];
    assert twice == u[k + 1 := Lead(WIDE_FILLER, pen)][k + 2 := Tail(pen)];
    assert Unpaired(twice, k + 1, st) == twice;
  }

  /** Behind a wide one the second stand-in stands apart, and the first is emptied in the style printed. */
  lemma ApartHalf(flat: seq<Cell>, wet: set<nat>, init: seq<Cell>, scrub: bool, pen: Style, g: Glyph, st: Style)
    requires Paired(flat) && Clean(init) && |flat| + 3 < |init| && Marked(st) && g.wide
    ensures var k := |flat|;
            var both := WriteCells(Unpaired(Half(Over(flat, wet, init, scrub), k, pen), k + 2, pen), k + 2, WIDE_FILLER, pen);
            WriteCells(Unpaired(both, k + 1, st), k + 1, g, st)
            == Over(flat + [Null(st)] + CellsOf(Char(g, st)) + [Null(st)], wet, init, scrub)
  {
    var k := |flat|;
    var half := Half(Over(flat, wet, init, scrub), k, pen);
    assert Unpaired(half, k + 2, pen) == half;
    assert k + 4 < |init| ==> half[k + 4] == init[k + 4];
    var both := WriteCells(half, k + 2, WIDE_FILLER, pen);
    assert both == half[k + 2 := Lead(WIDE_FILLER, pen)][k + 3 := Tail(pen)];
    assert Unpaired(both, k + 1, st) == both[k := Null(st)];
  }

  /** What the two stand-ins show before the character is printed. */
  lemma TwoFillers(start: Term, t: Term, pk: Pk, half: seq<Cell>, k: nat, g: Glyph, st: Style)
    requires t.Valid() && 2 <= t.cols == |half| && k + 1 + g.Width() < t.cols
    requires Shows(start, pk, On(t, half, k + 1, pk.pen))
    ensures var at := k + g.Width();
            var both := WriteCells(Unpaired(half, at, pk.pen), at, WIDE_FILLER, pk.pen);
            var q := BeforeMarkedOps(pk, k + 1, g, st);
            && q.pen == st
            && Shows(start, q, On(t, WriteCells(Unpaired(both, k + 1, st), k + 1, g, st), k + 1 + g.Width(), st))
  {
    hide WriteCells, Unpaired, On, Exec, Step;
    var at := k + g.Width();
    var both := WriteCells(Unpaired(half, at, pk.pen), at, WIDE_FILLER, pk.pen);
    GoShows(start, pk, t, half, k + 1, at);
    var p := Emit(pk, Cha(at));
    PrintShows(start, p, t, half, at, WIDE_FILLER);
    GoShows(start, Emit(p, Print(WIDE_FILLER)), t, both, at + 2, k + 1);
    var p2 := Emit(Emit(p, Print(WIDE_FILLER)), Cha(k + 1));
    ShowsOnPen(start, p2, t, both, k + 1, st);
    PrintShows(start, SetPen(p2, st), t, both, k + 1, g);
  }

  /** A marked empty cell, a character of its style, and another such cell behind it: the first comes out
      in the pen held when it was reached if the character is narrow, as it should if it is wide. */
  lemma MarkedTwice(start: Term, t: Term, d: Draw, flat: seq<Cell>, wet: set<nat>, init: seq<Cell>, scrub: bool, st: Style, g: Glyph)
    requires Inv(start, t, d, flat, wet, init, scrub) && d.end + 1 + g.Width() < t.cols && Marked(st)
    ensures var r := DrawBeforeMarked(DrawMarked(d, st, Some(Char(g, st))), g, st);
            && Inv(start, t, r, flat + [Null(if g.wide then st else Flushed(d))] + CellsOf(Char(g, st)) + [Null(st)],
                   if g.wide then wet else wet + {d.end}, init, scrub)
            && r.end == d.end + 2 + g.Width() && r.lastStyle == st && Flushed(r) == st
  {
    hide FlushRun, Over, Exec, Marked, On, DrawMarked, DrawBeforeMarked, BeforeMarkedOps, Inv, Shows, Clean, Paired, Below,
         WriteCells, Unpaired, Half, ToCell;
    var next, k := Some(Char(g, st)), d.end;
    Reached(start, t, d, flat, wet, init, scrub);
    ScrubOff(start, t, d, flat, wet, init, scrub);
    MarkedState(d, st, next);
    var s, d1 := ToCell(d), DrawMarked(d, st, next);
    MarkedShows(start, t, s.pk, flat, wet, init, scrub, st);
    assert d1.pk == FillerOps(s.pk, k) && d1.pk.pen == Flushed(d);
    var half := Half(Over(flat, wet, init, scrub), k, d1.pk.pen);
    TwoFillers(start, t, d1.pk, half, k, g, st);
    CharState(d1, g, st);
    var r := DrawBeforeMarked(d1, g, st);
    NoRun(r);
    var kept := Null(if g.wide then st else Flushed(d));
    var all := flat + [kept] + CellsOf(Char(g, st)) + [Null(st)];
    if g.wide {
      ApartHalf(flat, wet, init, scrub, d1.pk.pen, g, st);
      BelowMore(wet, |flat|, |all|);
    } else {
      TwiceHalf(flat, wet, init, scrub, d1.pk.pen, g, st);
      BelowAdded(wet, k, |all|);
    }
    PairedMore(flat, kept.style, g, st);
    PairedBehind(flat + [kept], g, st);
    BehindInv(start, t, r, all, if g.wide then wet else wet + {k}, init, scrub);
  }

  lemma BelowAdded(wet: set<nat>, k: nat, n: nat)
    requires Below(wet, k) && k < n
    ensures Below(wet + {k}, n)
  {
  }

  /** Nothing but a background follows: the stand-in is erased. */
  lemma ErasedStandIn(flat: seq<Cell>, wet: set<nat>, init: seq<Cell>, scrub: bool, st: Style, bg: Color)
    requires Paired(flat) && Clean(init) && |flat| + 1 < |init| && Marked(st)
    ensures var k, more := |flat| + 1, flat + [Null(st)];
      EraseCells(Over(more, wet, init[k := Lead(SPACE, st)], scrub), k, 1, Erased(bg))
      == Over(more + [Null(Erased(bg))], wet + {k}, init, scrub)
  {
  }

  lemma MarkedErased(start: Term, t: Term, d: Draw, flat: seq<Cell>, wet: set<nat>, init: seq<Cell>, scrub: bool, st: Style, next: Option<Item>)
    requires Inv(start, t, d, flat, wet, init, scrub) && d.end + 1 < t.cols && Marked(st)
    requires next.Some? ==> next.value.Blank?
    ensures var r := DrawMarked(d, st, next);
            var bg := if next.Some? then next.value.style.bg else Default;
            && t.Valid() && 2 <= t.cols == |init| && Clean(init) && Paired(flat) && Below(wet, |flat|) && |flat| == d.end
            && r.run == 0 && r.x == d.end + 1 && !r.scrub && r.lastEmpty
            && r.skip == (if next.Some? then 1 else 0) && r.end == r.x + r.skip && r.pk.pen == Erased(bg)
            && (next.Some? ==> r.lastStyle == next.value.style)
            && Shows(start, r.pk, On(t, Over(flat + [Null(st), Null(Erased(bg))], wet + {d.end + 1}, init, scrub), d.end + 1, r.pk.pen))
  {
    hide FlushRun, Over, Exec, Marked, EraseCells, Step, DrawMarked, ToCell, Inv, Shows, On, Clean, Paired, Below;
    var k := d.end + 1;
    var bg := if next.Some? then next.value.style.bg else Default;
    Reached(start, t, d, flat, wet, init, scrub);
    ScrubOff(start, t, d, flat, wet, init, scrub);
    MarkedState(d, st, next);
    var s := ToCell(d);
    MarkedShows(start, t, s.pk, flat, wet, init, scrub, st);
    var q := SpaceOps(s.pk, d.end, st);
    var cells := Over(flat + [Null(st)], wet, init[k := Lead(SPACE, st)], scrub);
    ShowsOnPen(start, q, t, cells, k, Erased(bg));
    EraseShows(start, SetPen(q, Erased(bg)), t, cells, k, 1);
    ErasedStandIn(flat, wet, init, scrub, st, bg);
    assert flat + [Null(st)] + [Null(Erased(bg))] == flat + [Null(st), Null(Erased(bg))];
  }

  lemma PairedErased(flat: seq<Cell>, st: Style, bg: Color)
    requires Paired(flat)
    ensures Paired(flat + [Null(st), Null(Erased(bg))])
  {
  }

  lemma MarkedBlank(start: Term, t: Term, d: Draw, flat: seq<Cell>, wet: set<nat>, init: seq<Cell>, scrub: bool, st: Style, b: Style)
    requires Inv(start, t, d, flat, wet, init, scrub) && d.end + 1 < t.cols && Marked(st)
    ensures var r := DrawMarked(d, st, Some(Blank(b)));
            && Inv(start, t, r, flat + [Null(st), Null(Erased(b.bg))], wet + {d.end + 1}, init, scrub)
            && r.end == d.end + 2 && r.lastStyle == b && Flushed(r) == Erased(b.bg)
  {
    hide FlushRun, Over, Exec, Marked, On, DrawMarked, Inv, Shows, Clean, Paired, Below;
    MarkedErased(start, t, d, flat, wet, init, scrub, st, Some(Blank(b)));
    var all := flat + [Null(st), Null(Erased(b.bg))];
    PairedErased(flat, st, b.bg);
    BelowMore(wet, |flat|, d.end + 1);
    BelowAdded(wet, d.end + 1, d.end + 2);
    var r := DrawMarked(d, st, Some(Blank(b)));
    BehindInv(start, t, r, all, wet + {d.end + 1}, init, scrub);
    NoRun(r);
  }

  // ---- the cells a row comes out with ----

  predicate MarkedNull(cells: seq<Cell>, c: nat)
    requires c < |cells|
  {
    cells[c].Null? && Marked(cells[c].style)
  }

  /** The empty cell follows a written one in its own style: it is what is left of a wide character
      that one was printed over. */
  predicate ByBefore(cells: seq<Cell>, c: nat)
    requires c < |cells|
  {
    0 < c && !cells[c - 1].Null? && cells[c - 1].style == cells[c].style
  }

  /** A marked empty cell made on its own, as the first half of a stand-in; the one after it is not. */
  predicate Made(cells: seq<Cell>, c: nat)
    requires c < |cells|
    decreases c
  {
    MarkedNull(cells, c) && !ByBefore(cells, c) && c + 1 < |cells| && (c == 0 || !Made(cells, c - 1))
  }

  /** The empty cell held the second half of a stand-in, and was erased. */
  predicate Cleared(cells: seq<Cell>, c: nat)
    requires c < |cells|
  {
    0 < c && cells[c].Null? && Made(cells, c - 1)
  }

  /** A made cell whose second half is printed over by the stand-in for the cell behind the character. */
  predicate TakesPen(cells: seq<Cell>, c: nat)
    requires c < |cells|
  {
    && Made(cells, c) && c + 2 < |cells|
    && cells[c + 1].Lead? && !cells[c + 1].glyph.wide && cells[c + 1].style == cells[c].style
    && cells[c + 2] == Null(cells[c].style)
  }

  /** The pen held when column `c` is reached and what was gathered before it is erased: that of the last
      thing printed or erased, or the one the row was begun with. */
  function PenAt(cells: seq<Cell>, c: nat, pen: Style, scrub: bool): Style
    requires c <= |cells|
    decreases c
  {
    if c == 0 then pen
    else
      var cell := cells[c - 1];
      if !cell.Null? || (Marked(cell.style) && ByBefore(cells, c - 1)) then cell.style
      else if cell.style.bg != Default || Cleared(cells, c - 1) then Erased(cell.style.bg)
      else if c == 1 && scrub then DEFAULT_STYLE
      else PenAt(cells, c - 1, pen, scrub)
  }

  /** What the cell comes out as: an empty one with more than a background comes out whole if the
      character before it leaves it behind or it is made on its own, in the pen of the moment if it takes
      that, and with its background only otherwise. */
  function InkAt(cells: seq<Cell>, c: nat, pen: Style, scrub: bool): Cell
    requires c < |cells|
  {
    if !MarkedNull(cells, c) || ByBefore(cells, c) then cells[c]
    else if !Made(cells, c) then Null(Erased(cells[c].style.bg))
    else if TakesPen(cells, c) then Null(PenAt(cells, c, pen, scrub))
    else cells[c]
  }

  function Inked(cells: seq<Cell>, pen: Style, scrub: bool): (r: seq<Cell>)
    ensures |r| == |cells|
    ensures forall c :: 0 <= c < |cells| ==> r[c] == InkAt(cells, c, pen, scrub)
  {
    seq(|cells|, c requires 0 <= c < |cells| => InkAt(cells, c, pen, scrub))
  }

  /** The empty cells that are drawn even when they come out plain. */
  ghost function Wet(cells: seq<Cell>): set<nat> {
    WetTo(cells, |cells|)
  }

  ghost function WetTo(cells: seq<Cell>, n: nat): set<nat>
    requires n <= |cells|
  {
    set c: nat | c < n && (Cleared(cells, c) || TakesPen(cells, c))
  }

  lemma WetBelow(cells: seq<Cell>, n: nat)
    requires n <= |cells|
    ensures Below(WetTo(cells, n), n)
  {
    hide Cleared, TakesPen;
  }

  lemma WetOne(cells: seq<Cell>, n: nat)
    requires n < |cells|
    ensures WetTo(cells, n + 1) == WetTo(cells, n) + if Cleared(cells, n) || TakesPen(cells, n) then {n} else {}
  {
    hide Cleared, TakesPen;
    forall c: nat | c < n + 1
      ensures c in WetTo(cells, n + 1) <==> c in WetTo(cells, n) || (c == n && (Cleared(cells, n) || TakesPen(cells, n)))
    {
    }
  }

  lemma InkedOne(cells: seq<Cell>, n: nat, pen: Style, scrub: bool)
    requires n < |cells|
    ensures Inked(cells, pen, scrub)[..n + 1] == Inked(cells, pen, scrub)[..n] + [InkAt(cells, n, pen, scrub)]
  {
    hide InkAt;
  }

  /** Column `k` begins nothing that what stands before it has a part in. */
  predicate Loose(cells: seq<Cell>, k: nat)
    requires k <= |cells|
  {
    && (k < |cells| ==> !(MarkedNull(cells, k) && ByBefore(cells, k)))
    && (0 < k ==> !Made(cells, k - 1))
  }

  /** One more empty cell with at most a background, or in the last column. */
  lemma InkPlain(cells: seq<Cell>, k: nat, pen: Style, scrub: bool)
    requires k < |cells| && Loose(cells, k) && cells[k].Null? && (!Marked(cells[k].style) || k + 1 == |cells|)
    ensures var bg := cells[k].style.bg;
            && InkAt(cells, k, pen, scrub) == Null(Erased(bg)) && WetTo(cells, k + 1) == WetTo(cells, k) && Loose(cells, k + 1)
            && PenAt(cells, k + 1, pen, scrub) == if bg != Default then Erased(bg)
                                                  else if k == 0 && scrub then DEFAULT_STYLE else PenAt(cells, k, pen, scrub)
  {
    WetOne(cells, k);
    assert !Made(cells, k);
  }

  /** The cells of a character. */
  ghost predicate Holds(cells: seq<Cell>, k: nat, g: Glyph, st: Style) {
    && k + g.Width() <= |cells| && cells[k] == Lead(g, st) && (g.wide ==> cells[k + 1] == Tail(st))
  }

  lemma InkWritten(cells: seq<Cell>, k: nat, g: Glyph, st: Style, pen: Style, scrub: bool)
    requires Holds(cells, k, g, st)
    ensures var n := k + g.Width(); var r := Inked(cells, pen, scrub);
            && r[..n] == r[..k] + CellsOf(Char(g, st)) && WetTo(cells, n) == WetTo(cells, k)
            && PenAt(cells, n, pen, scrub) == st
            && (Loose(cells, n) <==> !(n < |cells| && MarkedNull(cells, n) && cells[n].style == st))
  {
    hide PenAt;
    WetOne(cells, k);
    InkedOne(cells, k, pen, scrub);
    if g.wide {
      WetOne(cells, k + 1);
      InkedOne(cells, k + 1, pen, scrub);
      assert CellsOf(Char(g, st)) == [Lead(g, st)] + [Tail(st)];
    }
    assert !Made(cells, k + g.Width() - 1);
    PenWritten(cells, k + g.Width(), pen, scrub);
  }

  lemma PenWritten(cells: seq<Cell>, n: nat, pen: Style, scrub: bool)
    requires 0 < n <= |cells| && !cells[n - 1].Null?
    ensures PenAt(cells, n, pen, scrub) == cells[n - 1].style
  {
  }

  /** The empty cell a character leaves behind it. */
  lemma InkBehind(cells: seq<Cell>, k: nat, pen: Style, scrub: bool)
    requires k < |cells| && MarkedNull(cells, k) && ByBefore(cells, k)
    ensures InkAt(cells, k, pen, scrub) == cells[k] && WetTo(cells, k + 1) == WetTo(cells, k) && Loose(cells, k + 1)
    ensures PenAt(cells, k + 1, pen, scrub) == cells[k].style
  {
    WetOne(cells, k);
    assert !Made(cells, k);
  }

  /** A cell made on its own. */
  lemma InkMade(cells: seq<Cell>, k: nat, pen: Style, scrub: bool)
    requires k + 1 < |cells| && MarkedNull(cells, k) && Loose(cells, k)
    ensures Made(cells, k) && !Cleared(cells, k)
    ensures !TakesPen(cells, k) ==> InkAt(cells, k, pen, scrub) == cells[k] && WetTo(cells, k + 1) == WetTo(cells, k)
    ensures TakesPen(cells, k) ==>
              InkAt(cells, k, pen, scrub) == Null(PenAt(cells, k, pen, scrub)) && WetTo(cells, k + 1) == WetTo(cells, k) + {k}
  {
    hide PenAt;
    WetOne(cells, k);
  }

  /** The empty cell after one made on its own. */
  lemma InkCleared(cells: seq<Cell>, k: nat, pen: Style, scrub: bool)
    requires 0 < k < |cells| && Made(cells, k - 1) && cells[k].Null?
    ensures var bg := cells[k].style.bg;
            && InkAt(cells, k, pen, scrub) == Null(Erased(bg)) && WetTo(cells, k + 1) == WetTo(cells, k) + {k}
            && Loose(cells, k + 1) && PenAt(cells, k + 1, pen, scrub) == Erased(bg)
  {
    WetOne(cells, k);
    assert !Made(cells, k) && !ByBefore(cells, k);
  }

  // ---- the items of a row and its cells ----

  /** From column `k` on, the row `want` holds the items, and nothing after them. */
  ghost predicate Rest(want: seq<Cell>, k: nat, its: seq<Item>) {
    var n := k + |Flat(its)|;
    && n <= |want| && want[k..n] == Flat(its)
    && forall c :: n <= c < |want| ==> want[c] == Null(DEFAULT_STYLE)
  }

  lemma FlatSplit(its: seq<Item>)
    requires its != []
    ensures Flat(its) == CellsOf(its[0]) + Flat(its[1..])
  {
  }

  lemma FlatNone()
    ensures Flat([]) == []
  {
  }

  /** The first item stands at `k` and the others after it. */
  lemma RestOne(want: seq<Cell>, k: nat, its: seq<Item>)
    requires Rest(want, k, its) && its != []
    ensures var n := k + its[0].Width(); n <= |want| && Rest(want, n, its[1..])
    ensures k < |want|
    ensures its[0].Blank? ==> want[k] == Null(its[0].style)
    ensures its[0].Char? ==> Holds(want, k, its[0].glyph, its[0].style)
  {
    hide Flat;
    FlatSplit(its);
    var f, n := Flat(its), k + its[0].Width();
    assert want[k..k + |f|] == f;
    assert forall i :: 0 <= i < |f| ==> want[k + i] == f[i];
    assert want[n..k + |f|] == f[its[0].Width()..] == Flat(its[1..]);
  }

  /** With no item left there are only plain empty cells. */
  lemma RestNone(want: seq<Cell>, k: nat)
    requires Rest(want, k, [])
    ensures k <= |want| && forall c :: k <= c < |want| ==> want[c] == Null(DEFAULT_STYLE)
  {
  }

  lemma RestWhole(its: seq<Item>, cols: nat)
    requires |Flat(its)| <= cols
    ensures Rest(Padded(Flat(its), cols), 0, its) && |Padded(Flat(its), cols)| == cols
  {
    hide Flat;
    var want := Padded(Flat(its), cols);
    assert want[0..|Flat(its)|] == Flat(its);
  }

  /** A row that carries marked cells says so among its styles. */
  ghost predicate Noticed(its: seq<Item>, rowMarked: bool) {
    forall i :: 0 <= i < |its| && Marked(its[i].style) ==> rowMarked
  }

  lemma NoticedRest(its: seq<Item>, rowMarked: bool)
    requires Noticed(its, rowMarked) && its != []
    ensures Noticed(its[1..], rowMarked)
  {
  }

  // ---- the end of the row ----

  /** How a row that shows `cells` ends: past its last cell when that was written, before it otherwise. */
  ghost predicate EndsAs(end: RowEnd, cells: seq<Cell>) {
    && |cells| > 0
    && (if cells[|cells| - 1].Null? then end.x < |cells| && end.empty && end.tail == cells[|cells| - 1].style
        else end.x == |cells|)
  }

  /** The loop stands at column `k` of the row `want`, everything before it drawn. */
  ghost predicate Mid(start: Term, t: Term, d: Draw, want: seq<Cell>, k: nat, init: seq<Cell>, scrub: bool, pen: Style) {
    && |want| == t.cols && k <= |want|
    && Inv(start, t, d, Inked(want, pen, scrub)[..k], WetTo(want, k), init, scrub)
    && Flushed(d) == PenAt(want, k, pen, scrub)
    && (d.lastEmpty ==> 0 < k && d.lastStyle == want[k - 1].style)
  }

  lemma MidBasics(start: Term, t: Term, d: Draw, want: seq<Cell>, k: nat, init: seq<Cell>, scrub: bool, pen: Style)
    requires Mid(start, t, d, want, k, init, scrub, pen)
    ensures k == d.end <= t.cols == |want| && t.Valid() && t.cols >= 2
    ensures Inv(start, t, d, Inked(want, pen, scrub)[..k], WetTo(want, k), init, scrub)
    ensures Flushed(d) == PenAt(want, k, pen, scrub)
  {
  }

  /** The row is drawn: it shows `want` as far as that can be drawn, but for what it held under plain
      cells, and ends as `want` does. */
  ghost predicate Ends(start: Term, t: Term, d: Draw, want: seq<Cell>, init: seq<Cell>, scrub: bool, pen: Style)
    requires t.row < |t.screen|
  {
    var (pk, end) := FinishRow(d, t.cols);
    && Shows(start, pk, On(t, Over(Inked(want, pen, scrub), Wet(want), init, scrub), end.x, DEFAULT_STYLE))
    && EndsAs(end, want)
  }

  /** The placeholder of a row with nothing in it is erased. */
  lemma ScrubShows(start: Term, t: Term, e: Draw, init: seq<Cell>)
    requires t.Valid() && 2 <= t.cols == |init| && Clean(init) && e.x == 0 && e.skip == 0
    requires Shows(start, e.pk, On(t, Over([], {}, init, true), 0, e.pk.pen))
    ensures var p := Emit(SetPen(e.pk, DEFAULT_STYLE), Ech(1));
            p.pen == DEFAULT_STYLE && Shows(start, p, On(t, Over(Nulls(t.cols, Default), {}, init, true), 0, DEFAULT_STYLE))
  {
    hide Exec, Over, On, Clean, EraseCells;
    GoErase(start, t, e, Over([], {}, init, true), Default, 1);
    OverScrub(init, t.cols);
  }

  /** Nothing but plain empty cells is left. */
  lemma InkTail(want: seq<Cell>, k: nat, pen: Style, scrub: bool)
    requires k <= |want| && Loose(want, k) && forall c :: k <= c < |want| ==> want[c] == Null(DEFAULT_STYLE)
    ensures Inked(want, pen, scrub) == Inked(want, pen, scrub)[..k] + Nulls(|want| - k, Default)
    ensures Wet(want) == WetTo(want, k)
    decreases |want| - k
  {
    var r := Inked(want, pen, scrub);
    if k < |want| {
      InkPlain(want, k, pen, scrub);
      InkedOne(want, k, pen, scrub);
      hide InkAt, PenAt, Made, Cleared, TakesPen, WetTo, Loose;
      InkTail(want, k + 1, pen, scrub);
      assert r[..k] + [Null(DEFAULT_STYLE)] + Nulls(|want| - k - 1, Default) == r[..k] + Nulls(|want| - k, Default);
    } else {
      assert r[..k] == r && r + Nulls(0, Default) == r;
    }
  }

  lemma FinishShows(start: Term, t: Term, d: Draw, want: seq<Cell>, k: nat, init: seq<Cell>, scrub: bool, pen: Style)
    requires Mid(start, t, d, want, k, init, scrub, pen) && Loose(want, k) && Rest(want, k, [])
    ensures Ends(start, t, d, want, init, scrub, pen)
  {
    hide FlushRun, Exec, Over, On, Clean, Paired, Inv, Shows, Inked, WetTo, PenAt, Loose, Rest, Below;
    var flat, wet := Inked(want, pen, scrub)[..k], WetTo(want, k);
    FlushRunInv(start, t, d, flat, wet, init, scrub);
    var e := FlushRun(d);
    Settled(start, t, e, flat, wet, init, scrub);
    RestNone(want, k);
    InkTail(want, k, pen, scrub);
    InkedNull(want, k, pen, scrub);
    var all := Inked(want, pen, scrub);
    var p := e.pk;
    if e.scrub {
      WetBelow(want, 0);
      NothingWet(wet);
      assert flat == [] && all == Nulls(t.cols, Default);
      ScrubShows(start, t, e, init);
      p := Emit(SetPen(e.pk, DEFAULT_STYLE), Ech(1));
    } else {
      OverSkip(flat, wet, init, scrub, t.cols - k);
    }
    ShowsOnPen(start, p, t, Over(all, wet, init, scrub), e.x, DEFAULT_STYLE);
  }

  lemma NothingWet(wet: set<nat>)
    requires Below(wet, 0)
    ensures wet == {}
  {
  }

  /** A cell comes out empty exactly when it is. */
  lemma InkedNull(want: seq<Cell>, k: nat, pen: Style, scrub: bool)
    requires k <= |want|
    ensures 0 < k ==> (Inked(want, pen, scrub)[..k][k - 1].Null? <==> want[k - 1].Null?)
  {
    hide PenAt, Made, TakesPen;
  }

  // ---- the loop, turn by turn ----

  lemma PlainTurn(start: Term, t: Term, d: Draw, want: seq<Cell>, k: nat, init: seq<Cell>, scrub: bool, pen: Style, st: Style)
    requires Mid(start, t, d, want, k, init, scrub, pen) && Loose(want, k)
    requires k < |want| && want[k] == Null(st) && (!Marked(st) || k + 1 == |want|)
    ensures Mid(start, t, DrawBlank(d, st), want, k + 1, init, scrub, pen) && Loose(want, k + 1)
  {
    hide Inv, DrawBlank, FlushRun, Inked, WetTo, PenAt, Loose, InkAt;
    var flat, wet := Inked(want, pen, scrub)[..k], WetTo(want, k);
    MidBasics(start, t, d, want, k, init, scrub, pen);
    InkPlain(want, k, pen, scrub);
    InkedOne(want, k, pen, scrub);
    BlankInv(start, t, d, flat, wet, init, scrub, st);
    BlankPen(start, t, d, flat, wet, init, scrub, st);
  }

  /** A character, alone or with the empty cell it leaves behind it. */
  lemma CharTurn(start: Term, t: Term, d: Draw, want: seq<Cell>, k: nat, init: seq<Cell>, scrub: bool, pen: Style, g: Glyph, st: Style)
    requires Mid(start, t, d, want, k, init, scrub, pen) && Holds(want, k, g, st)
    ensures var n := k + g.Width();
            if n < |want| && MarkedNull(want, n) && want[n].style == st
            then Mid(start, t, DrawBeforeMarked(d, g, st), want, n + 1, init, scrub, pen) && Loose(want, n + 1)
            else Mid(start, t, DrawChar(d, g, st), want, n, init, scrub, pen) && Loose(want, n)
  {
    hide Inv, DrawChar, DrawBeforeMarked, FlushRun, Inked, WetTo, PenAt, Loose, InkAt, Marked;
    var r, wet, n := Inked(want, pen, scrub), WetTo(want, k), k + g.Width();
    MidBasics(start, t, d, want, k, init, scrub, pen);
    InkWritten(want, k, g, st, pen, scrub);
    if n < |want| && MarkedNull(want, n) && want[n].style == st {
      BeforeMarkedInv(start, t, d, r[..k], wet, init, scrub, g, st);
      BehindStyle(want, k, g, st);
      InkBehind(want, n, pen, scrub);
      InkedOne(want, n, pen, scrub);
    } else {
      CharInv(start, t, d, r[..k], wet, init, scrub, g, st);
      CharLast(d, g, st);
    }
  }

  lemma CharLast(d: Draw, g: Glyph, st: Style)
    ensures !DrawChar(d, g, st).lastEmpty
  {
    FlushLast(d.(end := d.end + g.Width(), lastEmpty := false));
    hide FlushRun;
  }

  lemma FlushLast(d: Draw)
    ensures FlushRun(d).lastEmpty == d.lastEmpty
  {
    hide Forward, SetPen, Emit;
  }

  lemma BehindStyle(want: seq<Cell>, k: nat, g: Glyph, st: Style)
    requires Holds(want, k, g, st) && k + g.Width() < |want| && want[k + g.Width()] == Null(st)
    ensures ByBefore(want, k + g.Width())
  {
  }

  /** A marked empty cell with an empty one after it. */
  lemma BlankAfterMarked(start: Term, t: Term, d: Draw, want: seq<Cell>, k: nat, init: seq<Cell>, scrub: bool, pen: Style, st: Style, b: Style)
    requires Mid(start, t, d, want, k, init, scrub, pen) && Loose(want, k) && Marked(st)
    requires k + 1 < |want| && want[k] == Null(st) && want[k + 1] == Null(b)
    ensures Mid(start, t, DrawMarked(d, st, Some(Blank(b))), want, k + 2, init, scrub, pen) && Loose(want, k + 2)
  {
    hide Inv, DrawMarked, FlushRun, Inked, WetTo, PenAt, Loose, InkAt, Marked, Made, Cleared;
    var r, wet := Inked(want, pen, scrub), WetTo(want, k);
    MidBasics(start, t, d, want, k, init, scrub, pen);
    InkMade(want, k, pen, scrub);
    InkedOne(want, k, pen, scrub);
    InkCleared(want, k + 1, pen, scrub);
    InkedOne(want, k + 1, pen, scrub);
    MarkedBlank(start, t, d, r[..k], wet, init, scrub, st, b);
    assert r[..k] + [Null(st), Null(Erased(b.bg))] == r[..k] + [Null(st)] + [Null(Erased(b.bg))];
  }

  /** A marked empty cell with a character after it, alone or with another such cell behind it. */
  lemma CharAfterMarked(start: Term, t: Term, d: Draw, want: seq<Cell>, k: nat, init: seq<Cell>, scrub: bool, pen: Style, st: Style,
                        g: Glyph, cs: Style)
    requires Mid(start, t, d, want, k, init, scrub, pen) && Loose(want, k) && Marked(st)
    requires k + 1 < |want| && want[k] == Null(st) && Holds(want, k + 1, g, cs)
    ensures var n := k + 1 + g.Width(); var d1 := DrawMarked(d, st, Some(Char(g, cs)));
            if n < |want| && MarkedNull(want, n) && want[n].style == cs
            then Mid(start, t, DrawBeforeMarked(d1, g, cs), want, n + 1, init, scrub, pen) && Loose(want, n + 1)
            else Mid(start, t, DrawChar(d1, g, cs), want, n, init, scrub, pen) && Loose(want, n)
  {
    hide Mid, DrawMarked, DrawChar, DrawBeforeMarked, Loose, Marked;
    var n := k + 1 + g.Width();
    if n < |want| && MarkedNull(want, n) && want[n].style == cs {
      if cs == st {
        MarkedAround(start, t, d, want, k, init, scrub, pen, st, g);
      } else {
        OtherAround(start, t, d, want, k, init, scrub, pen, st, g, cs);
      }
    } else {
      CharOnly(start, t, d, want, k, init, scrub, pen, st, g, cs);
    }
  }

  /** Nothing is left behind the character. */
  lemma CharOnly(start: Term, t: Term, d: Draw, want: seq<Cell>, k: nat, init: seq<Cell>, scrub: bool, pen: Style, st: Style,
                 g: Glyph, cs: Style)
    requires Mid(start, t, d, want, k, init, scrub, pen) && Loose(want, k) && Marked(st)
    requires k + 1 < |want| && want[k] == Null(st) && Holds(want, k + 1, g, cs)
    requires var n := k + 1 + g.Width(); !(n < |want| && MarkedNull(want, n) && want[n].style == cs)
    ensures var n := k + 1 + g.Width();
            Mid(start, t, DrawChar(DrawMarked(d, st, Some(Char(g, cs))), g, cs), want, n, init, scrub, pen) && Loose(want, n)
  {
    hide Inv, DrawMarked, DrawChar, FlushRun, Inked, WetTo, PenAt, Loose, InkAt, Made, Cleared, Marked;
    var r, wet, n := Inked(want, pen, scrub), WetTo(want, k), k + 1 + g.Width();
    MidBasics(start, t, d, want, k, init, scrub, pen);
    InkMade(want, k, pen, scrub);
    InkedOne(want, k, pen, scrub);
    InkWritten(want, k + 1, g, cs, pen, scrub);
    hide Holds, TakesPen;
    CharLast(DrawMarked(d, st, Some(Char(g, cs))), g, cs);
    if cs == st {
      MarkedSame(start, t, d, r[..k], wet, init, scrub, st, g);
    } else {
      MarkedOther(start, t, d, r[..k], wet, init, scrub, st, g, cs);
    }
  }

  /** Another marked empty cell is left behind it, in another style. */
  lemma OtherAround(start: Term, t: Term, d: Draw, want: seq<Cell>, k: nat, init: seq<Cell>, scrub: bool, pen: Style, st: Style,
                    g: Glyph, cs: Style)
    requires Mid(start, t, d, want, k, init, scrub, pen) && Loose(want, k) && Marked(st) && cs != st
    requires k + 1 < |want| && want[k] == Null(st) && Holds(want, k + 1, g, cs)
    requires var n := k + 1 + g.Width(); n < |want| && MarkedNull(want, n) && want[n].style == cs
    ensures var n := k + 1 + g.Width();
            Mid(start, t, DrawBeforeMarked(DrawMarked(d, st, Some(Char(g, cs))), g, cs), want, n + 1, init, scrub, pen) && Loose(want, n + 1)
  {
    hide Inv, DrawMarked, DrawBeforeMarked, FlushRun, Inked, WetTo, PenAt, Loose, InkAt, Made, Cleared, Marked;
    var r, wet, n := Inked(want, pen, scrub), WetTo(want, k), k + 1 + g.Width();
    MidBasics(start, t, d, want, k, init, scrub, pen);
    InkMade(want, k, pen, scrub);
    InkedOne(want, k, pen, scrub);
    InkWritten(want, k + 1, g, cs, pen, scrub);
    BehindStyle(want, k + 1, g, cs);
    InkBehind(want, n, pen, scrub);
    InkedOne(want, n, pen, scrub);
    hide Holds, TakesPen;
    MarkedBefore(start, t, d, r[..k], wet, init, scrub, st, g, cs);
  }

  /** Another one is left behind it, in the style of the first. */
  lemma MarkedAround(start: Term, t: Term, d: Draw, want: seq<Cell>, k: nat, init: seq<Cell>, scrub: bool, pen: Style, st: Style, g: Glyph)
    requires Mid(start, t, d, want, k, init, scrub, pen) && Loose(want, k) && Marked(st)
    requires k + 1 < |want| && want[k] == Null(st) && Holds(want, k + 1, g, st)
    requires var n := k + 1 + g.Width(); n < |want| && MarkedNull(want, n) && want[n].style == st
    ensures var n := k + 1 + g.Width();
            Mid(start, t, DrawBeforeMarked(DrawMarked(d, st, Some(Char(g, st))), g, st), want, n + 1, init, scrub, pen) && Loose(want, n + 1)
  {
    hide Inv, DrawMarked, DrawBeforeMarked, FlushRun, Inked, WetTo, PenAt, Loose, InkAt, Made, Cleared, Marked;
    var r, wet, n := Inked(want, pen, scrub), WetTo(want, k), k + 1 + g.Width();
    MidBasics(start, t, d, want, k, init, scrub, pen);
    InkMade(want, k, pen, scrub);
    InkedOne(want, k, pen, scrub);
    InkWritten(want, k + 1, g, st, pen, scrub);
    BehindStyle(want, k + 1, g, st);
    InkBehind(want, n, pen, scrub);
    InkedOne(want, n, pen, scrub);
    assert TakesPen(want, k) <==> !g.wide;
    hide Holds, TakesPen;
    MarkedTwice(start, t, d, r[..k], wet, init, scrub, st, g);
  }

  /** A marked empty cell is the last thing stored. */
  lemma MarkedEnd(start: Term, t: Term, d: Draw, want: seq<Cell>, k: nat, init: seq<Cell>, scrub: bool, pen: Style, st: Style)
    requires Mid(start, t, d, want, k, init, scrub, pen) && Loose(want, k) && Marked(st)
    requires k + 1 < |want| && want[k] == Null(st) && Rest(want, k + 1, [])
    ensures Ends(start, t, DrawMarked(d, st, None), want, init, scrub, pen)
  {
    hide Inv, DrawMarked, FlushRun, Inked, WetTo, PenAt, Loose, InkAt, Marked, Made, Cleared, Exec, Over, On, Shows, Rest, Clean, Paired, Below;
    var r, wet := Inked(want, pen, scrub), WetTo(want, k);
    MidBasics(start, t, d, want, k, init, scrub, pen);
    RestNone(want, k + 1);
    InkMade(want, k, pen, scrub);
    InkedOne(want, k, pen, scrub);
    InkCleared(want, k + 1, pen, scrub);
    InkedOne(want, k + 1, pen, scrub);
    InkTail(want, k + 2, pen, scrub);
    MarkedErased(start, t, d, r[..k], wet, init, scrub, st, None);
    var e := DrawMarked(d, st, None);
    NoRun(e);
    assert r[..k] + [Null(st), Null(DEFAULT_STYLE)] == r[..k] + [Null(st)] + [Null(DEFAULT_STYLE)] == r[..k + 2];
    WetBelow(want, k + 2);
    OverSkip(r[..k + 2], WetTo(want, k + 2), init, scrub, t.cols - k - 2);
    ShowsOnPen(start, e.pk, t, Over(r, Wet(want), init, scrub), e.x, DEFAULT_STYLE);
  }

  // ---- the whole row ----

  /** The turns of the loop, by the first item and what follows it. */
  lemma TurnIs(d: Draw, its: seq<Item>, want: seq<Cell>, k: nat, rowMarked: bool)
    requires its != [] && Rest(want, k, its) && k == d.end && Noticed(its, rowMarked)
    ensures var cols := |want|;
            var (r, n) := DrawTurn(d, its, cols, rowMarked);
            DrawFrom(d, its, cols, rowMarked) == DrawFrom(r, its[n..], cols, rowMarked)
    ensures its[0].Blank? ==>
              var (r, n), st := DrawTurn(d, its, |want|, rowMarked), its[0].style;
              if Marked(st) && k + 1 < |want|
              then r == DrawMarked(d, st, Peek(its)) && n == if |its| > 1 && its[1].Blank? then 2 else 1
              else r == DrawBlank(d, st) && n == 1
    ensures its[0].Char? ==>
              var (r, n), g, st := DrawTurn(d, its, |want|, rowMarked), its[0].glyph, its[0].style;
              var m := k + g.Width();
              && m <= |want|
              && if m < |want| && MarkedNull(want, m) && want[m].style == st
                 then r == DrawBeforeMarked(d, g, st) && n == 2 && |its| > 1 && its[1] == Blank(st)
                 else r == DrawChar(d, g, st) && n == 1
  {
    hide Rest, DrawMarked, DrawBlank, DrawBeforeMarked, DrawChar, Flat, Marked;
    RestOne(want, k, its);
    PlainUnmarked();
    if its[0].Char? {
      var m := k + its[0].Width();
      if |its| > 1 {
        RestOne(want, m, its[1..]);
      } else {
        assert its[1..] == [];
        RestNone(want, m);
      }
    }
  }

  lemma PlainUnmarked()
    ensures !Marked(DEFAULT_STYLE)
  {
  }

  lemma {:induction false} DrawRest(start: Term, t: Term, d: Draw, want: seq<Cell>, k: nat, init: seq<Cell>, scrub: bool, pen: Style,
                                    its: seq<Item>, rowMarked: bool)
    requires Mid(start, t, d, want, k, init, scrub, pen) && Loose(want, k) && Rest(want, k, its) && Noticed(its, rowMarked)
    ensures Ends(start, t, DrawFrom(d, its, t.cols, rowMarked), want, init, scrub, pen)
    decreases |its|, 2
  {
    hide Mid, Ends, DrawBlank, DrawChar, DrawMarked, DrawBeforeMarked, Marked, Rest, Loose, DrawTurn, Noticed, Flat;
    MidBasics(start, t, d, want, k, init, scrub, pen);
    if its == [] {
      DrawFromNone(d, t.cols, rowMarked);
      FinishShows(start, t, d, want, k, init, scrub, pen);
    } else {
      RestOne(want, k, its);
      if its[0].Char? {
        CharTurn(start, t, d, want, k, init, scrub, pen, its[0].glyph, its[0].style);
        DrawCharRest(start, t, d, want, k, init, scrub, pen, its, rowMarked);
      } else if !Marked(its[0].style) || k + 1 == |want| {
        DrawPlainRest(start, t, d, want, k, init, scrub, pen, its, rowMarked);
      } else {
        DrawMarkedRest(start, t, d, want, k, init, scrub, pen, its, rowMarked);
      }
    }
  }

  /** The next item is an empty cell with at most a background, or in the last column. */
  lemma {:induction false} DrawPlainRest(start: Term, t: Term, d: Draw, want: seq<Cell>, k: nat, init: seq<Cell>, scrub: bool, pen: Style,
                                         its: seq<Item>, rowMarked: bool)
    requires Mid(start, t, d, want, k, init, scrub, pen) && Loose(want, k) && Rest(want, k, its) && Noticed(its, rowMarked)
    requires its != [] && its[0].Blank? && k < |want| && (!Marked(its[0].style) || k + 1 == |want|)
    ensures t.row < |t.screen| && Ends(start, t, DrawFrom(d, its, t.cols, rowMarked), want, init, scrub, pen)
    decreases |its|, 0
  {
    hide Mid, Ends, DrawBlank, DrawMarked, Marked, Rest, Loose, DrawTurn, Noticed;
    var st := its[0].style;
    MidBasics(start, t, d, want, k, init, scrub, pen);
    TurnIs(d, its, want, k, rowMarked);
    RestOne(want, k, its);
    NoticedRest(its, rowMarked);
    PlainTurn(start, t, d, want, k, init, scrub, pen, st);
    DrawRest(start, t, DrawBlank(d, st), want, k + 1, init, scrub, pen, its[1..], rowMarked);
  }

  /** The next item has been drawn already. */
  lemma {:induction false} DrawSkipOne(start: Term, t: Term, d: Draw, want: seq<Cell>, k: nat, init: seq<Cell>, scrub: bool, pen: Style,
                                       its: seq<Item>, rowMarked: bool)
    requires its != [] && its[0].Blank? && Rest(want, k, its) && Noticed(its, rowMarked)
    requires Mid(start, t, d, want, k + 1, init, scrub, pen) && Loose(want, k + 1)
    ensures Ends(start, t, DrawFrom(d, its[1..], t.cols, rowMarked), want, init, scrub, pen)
    decreases |its|
  {
    hide Mid, Ends, DrawFrom, Rest, Loose, Noticed;
    RestOne(want, k, its);
    NoticedRest(its, rowMarked);
    DrawRest(start, t, d, want, k + 1, init, scrub, pen, its[1..], rowMarked);
  }

  /** The next item is a marked empty cell, not in the last column. */
  lemma {:induction false} DrawMarkedRest(start: Term, t: Term, d: Draw, want: seq<Cell>, k: nat, init: seq<Cell>, scrub: bool, pen: Style,
                                          its: seq<Item>, rowMarked: bool)
    requires Mid(start, t, d, want, k, init, scrub, pen) && Loose(want, k) && Rest(want, k, its) && Noticed(its, rowMarked)
    requires its != [] && its[0].Blank? && Marked(its[0].style) && k + 1 < |want|
    ensures Ends(start, t, DrawFrom(d, its, t.cols, rowMarked), want, init, scrub, pen)
    decreases |its|, 0
  {
    hide Mid, Ends, DrawBlank, DrawChar, DrawMarked, DrawBeforeMarked, Marked, Rest, Loose, DrawTurn, Noticed;
    var st, rest := its[0].style, its[1..];
    MidBasics(start, t, d, want, k, init, scrub, pen);
    TurnIs(d, its, want, k, rowMarked);
    RestOne(want, k, its);
    NoticedRest(its, rowMarked);
    if rest == [] {
      MarkedEnd(start, t, d, want, k, init, scrub, pen, st);
      DrawFromNone(DrawMarked(d, st, None), t.cols, rowMarked);
    } else {
      RestOne(want, k + 1, rest);
      if rest[0].Blank? {
        var b := rest[0].style;
        BlankAfterMarked(start, t, d, want, k, init, scrub, pen, st, b);
        DrawSkipOne(start, t, DrawMarked(d, st, Some(rest[0])), want, k + 1, init, scrub, pen, rest, rowMarked);
        assert rest[1..] == its[2..];
      } else {
        var g, cs := rest[0].glyph, rest[0].style;
        CharAfterMarked(start, t, d, want, k, init, scrub, pen, st, g, cs);
        MarkedState(d, st, Some(rest[0]));
        DrawCharRest(start, t, DrawMarked(d, st, Some(rest[0])), want, k + 1, init, scrub, pen, rest, rowMarked);
      }
    }
  }

  lemma DrawFromNone(d: Draw, cols: nat, rowMarked: bool)
    ensures DrawFrom(d, [], cols, rowMarked) == d
  {
  }

  /** The next item is a character, and what its turn leaves is known. */
  lemma {:induction false} DrawCharRest(start: Term, t: Term, d: Draw, want: seq<Cell>, k: nat, init: seq<Cell>, scrub: bool, pen: Style,
                                        its: seq<Item>, rowMarked: bool)
    requires its != [] && its[0].Char? && Rest(want, k, its) && Noticed(its, rowMarked) && k == d.end && |want| == t.cols
    requires var g, st := its[0].glyph, its[0].style; var n := k + g.Width();
             if n < |want| && MarkedNull(want, n) && want[n].style == st
             then Mid(start, t, DrawBeforeMarked(d, g, st), want, n + 1, init, scrub, pen) && Loose(want, n + 1)
             else n <= |want| && Mid(start, t, DrawChar(d, g, st), want, n, init, scrub, pen) && Loose(want, n)
    ensures t.row < |t.screen| && Ends(start, t, DrawFrom(d, its, t.cols, rowMarked), want, init, scrub, pen)
    decreases |its|, 1
  {
    hide Mid, Ends, DrawChar, DrawBeforeMarked, Marked, Rest, Loose, DrawTurn, Noticed;
    var g, st := its[0].glyph, its[0].style;
    var n := k + g.Width();
    TurnIs(d, its, want, k, rowMarked);
    RestOne(want, k, its);
    NoticedRest(its, rowMarked);
    if n < |want| && MarkedNull(want, n) && want[n].style == st {
      MidBasics(start, t, DrawBeforeMarked(d, g, st), want, n + 1, init, scrub, pen);
      DrawSkipOne(start, t, DrawBeforeMarked(d, g, st), want, n, init, scrub, pen, its[1..], rowMarked);
      assert its[1..][1..] == its[2..];
    } else {
      MidBasics(start, t, DrawChar(d, g, st), want, n, init, scrub, pen);
      DrawRest(start, t, DrawChar(d, g, st), want, n, init, scrub, pen, its[1..], rowMarked);
    }
  }

  /** A whole row drawn from its first column, begun in any pen: every cell of it as `Inked` says, over
      what the row held under its plain cells, and how it ends. */
  lemma DrawRowShows(start: Term, t: Term, pk: Pk, ln: Line, scrub: bool)
    requires t.Valid() && t.cols >= 2 && t.col == 0 && Shows(start, pk, t)
    requires Clean(t.screen[t.row].cells)
    requires Noticed(Items(ln, t.cols), AnyMarked(ln.spans)) && |Flat(Items(ln, t.cols))| <= t.cols
    ensures var (p, end) := DrawRow(pk, ln, t.cols, scrub);
            var want := Padded(Flat(Items(ln, t.cols)), t.cols);
            && Shows(start, p, On(t, Over(Inked(want, pk.pen, scrub), Wet(want), t.screen[t.row].cells, scrub), end.x, DEFAULT_STYLE))
            && EndsAs(end, want)
  {
    hide DrawFrom, FinishRow, Flat, Padded, AnyMarked, Items, Rest, Mid;
    var its := Items(ln, t.cols);
    var want := Padded(Flat(its), t.cols);
    RestWhole(its, t.cols);
    MidStart(start, t, pk, want, scrub);
    DrawRest(start, t, StartDraw(pk, scrub), want, 0, t.screen[t.row].cells, scrub, pk.pen, its, AnyMarked(ln.spans));
  }

  lemma MidStart(start: Term, t: Term, pk: Pk, want: seq<Cell>, scrub: bool)
    requires t.Valid() && t.cols >= 2 && t.col == 0 && Shows(start, pk, t) && Clean(t.screen[t.row].cells) && |want| == t.cols
    ensures Mid(start, t, StartDraw(pk, scrub), want, 0, t.screen[t.row].cells, scrub, pk.pen) && Loose(want, 0)
  {
    hide Exec, InkAt;
    var init := t.screen[t.row].cells;
    assert On(t, Over([], {}, init, scrub), 0, pk.pen) == t by {
      assert Over([], {}, init, scrub) == init;
      assert t.screen[t.row := t.screen[t.row].(cells := init)] == t.screen;
    }
    assert Inked(want, pk.pen, scrub)[..0] == [] && WetTo(want, 0) == {};
  }

  // ---- when that is the row itself ----

  /** An empty cell with more than a background comes out whole: it is left behind by the character before
      it, or made on its own, in the right pen where it takes the pen. */
  predicate InkKept(cells: seq<Cell>, c: nat, pen: Style, scrub: bool)
    requires c < |cells|
  {
    MarkedNull(cells, c) && !ByBefore(cells, c) ==>
      Made(cells, c) && (TakesPen(cells, c) ==> PenAt(cells, c, pen, scrub) == cells[c].style)
  }

  lemma InkSame(cells: seq<Cell>, c: nat, pen: Style, scrub: bool)
    requires c < |cells|
    ensures InkAt(cells, c, pen, scrub) == cells[c] <==> InkKept(cells, c, pen, scrub)
    ensures InkAt(cells, c, pen, scrub) != cells[c] ==> MarkedNull(cells, c) && InkAt(cells, c, pen, scrub).Null?
  {
    hide PenAt, Made, TakesPen;
  }

  /** A row drawn on a blank one comes out as itself exactly when all its cells are kept. */
  lemma InkedSame(cells: seq<Cell>, pen: Style, scrub: bool)
    ensures Inked(cells, pen, scrub) == cells <==> forall c :: 0 <= c < |cells| ==> InkKept(cells, c, pen, scrub)
  {
    hide InkKept, InkAt;
    forall c | 0 <= c < |cells|
      ensures Inked(cells, pen, scrub)[c] == cells[c] <==> InkKept(cells, c, pen, scrub)
    {
      InkSame(cells, c, pen, scrub);
    }
    assert Inked(cells, pen, scrub) == cells <==> forall c :: 0 <= c < |cells| ==> Inked(cells, pen, scrub)[c] == cells[c];
  }

  /** The cells as a row begun in the default pen comes out. */
  function Drawable(cells: seq<Cell>): (r: seq<Cell>)
    ensures |r| == |cells|
  {
    Inked(cells, DEFAULT_STYLE, false)
  }

  lemma {:induction false} PenSame(cells: seq<Cell>, c: nat, scrub: bool)
    requires c <= |cells|
    ensures PenAt(cells, c, DEFAULT_STYLE, scrub) == PenAt(cells, c, DEFAULT_STYLE, false)
    decreases c
  {
    hide Cleared, ByBefore;
    if c > 0 {
      PenSame(cells, c - 1, scrub);
    }
  }

  /** A placeholder erased in the default pen makes no difference to the pen. */
  lemma DrawableIs(cells: seq<Cell>, scrub: bool)
    ensures Inked(cells, DEFAULT_STYLE, scrub) == Drawable(cells)
  {
    hide PenAt, Made, TakesPen;
    forall c | 0 <= c < |cells|
      ensures InkAt(cells, c, DEFAULT_STYLE, scrub) == InkAt(cells, c, DEFAULT_STYLE, false)
    {
      PenSame(cells, c, scrub);
    }
  }

  /** The second of two such cells, neither left behind by a character: its background is all that is left. */
  lemma SecondMarkedIsLost(cells: seq<Cell>, c: nat, pen: Style, scrub: bool)
    requires c + 1 < |cells| && Made(cells, c) && MarkedNull(cells, c + 1)
    ensures Inked(cells, pen, scrub)[c + 1] == Null(Erased(cells[c + 1].style.bg)) != cells[c + 1]
  {
  }

  /** One before a narrow character of its style that leaves one behind: the pen of the moment. */
  lemma FirstMarkedTakesThePen(cells: seq<Cell>, c: nat, pen: Style, scrub: bool)
    requires c < |cells| && TakesPen(cells, c)
    ensures Inked(cells, pen, scrub)[c] == Null(PenAt(cells, c, pen, scrub))
    ensures c == 0 ==> Inked(cells, pen, scrub)[c] == Null(pen)
    ensures 0 < c && !cells[c - 1].Null? ==> Inked(cells, pen, scrub)[c] == Null(cells[c - 1].style) != cells[c]
  {
  }
}
