/** The reader of stored rows and the packer that writes a keyframe, as the program has them: objects
    that advance through a row and append to what has been written. */
module Packing {
  import opened Common
  import opened Terminal
  import opened Lines
  import opened Drawing
  import opened Keyframes
  import RowProofs

  /** Walks the cells of a stored row left to right. */
  class RowReader {
    const ln: Line
    const cols: nat
    const content: nat
    var off: nat      // next character of the text
    var col: nat      // next column
    var span: nat     // next unread span
    var nulls: nat    // next unread run of cells never written
    var style: Style

    ghost predicate Valid()
      reads this
    {
      && content == ContentOf(ln)
      && off <= |ln.text| && col <= cols && span <= |ln.spans| && nulls <= |ln.nulls|
      && (forall k :: 0 <= k < span ==> ln.spans[k].start <= off)
      && (forall k :: 0 <= k < nulls ==> ln.nulls[k].to <= col)
      && style == StyleBefore(ln.spans, span)
    }

    ghost function Here(): Pos
      reads this
    {
      Pos(off, col)
    }

    constructor (ln: Line, cols: nat)
      ensures Valid() && Here() == Pos(0, 0) && this.ln == ln && this.cols == cols
    {
      this.ln, this.cols, content := ln, cols, ContentOf(ln);
      off, col, span, nulls, style := 0, 0, 0, 0, DEFAULT_STYLE;
    }

    constructor Copy(it: RowReader)
      requires it.Valid()
      ensures Valid() && Here() == it.Here() && ln == it.ln && cols == it.cols
    {
      ln, cols, content := it.ln, it.cols, it.content;
      off, col, span, nulls, style := it.off, it.col, it.span, it.nulls, it.style;
    }

    method IsNull(at: nat) returns (b: bool)
      requires Valid() && col <= at
      requires forall k :: 0 <= k < nulls ==> ln.nulls[k].to <= at
      modifies this`nulls
      ensures old(nulls) <= nulls <= |ln.nulls|
      ensures forall k :: 0 <= k < nulls ==> ln.nulls[k].to <= at
      ensures b == NullAt(ln.nulls, at)
    {
      RunsResume(ln.nulls, at, 0, nulls);
      while nulls < |ln.nulls| && ln.nulls[nulls].to <= at
        invariant old(nulls) <= nulls <= |ln.nulls|
        invariant forall k :: 0 <= k < nulls ==> ln.nulls[k].to <= at
        invariant RunsUpTo(ln.nulls, at, nulls) == RunsUpTo(ln.nulls, at, 0)
      {
        nulls := nulls + 1;
      }
      b := nulls < |ln.nulls| && ln.nulls[nulls].from <= at;
    }

    /** The next cell, or false at the end of what the row stores or at the edge of the grid. */
    method Next() returns (ok: bool, at: nat, item: Item)
      requires Valid()
      modifies this
      ensures Valid()
      ensures match NextItem(ln, cols, old(Here()))
              case Some(n) => ok && item == n.0 && Here() == n.1 && at == old(col)
              case None => !ok && NextItem(ln, cols, Here()) == None
    {
      item, at := Blank(DEFAULT_STYLE), col;
      if off < |ln.text| {
        SpansResume(ln.spans, off, 0, span);
        while span < |ln.spans| && ln.spans[span].start <= off
          invariant span <= |ln.spans|
          invariant forall k :: 0 <= k < span ==> ln.spans[k].start <= off
          invariant SpansUpTo(ln.spans, off, span) == SpansUpTo(ln.spans, off, 0)
          invariant style == StyleBefore(ln.spans, span)
          invariant off == old(off) && col == old(col) && nulls == old(nulls)
          decreases |ln.spans| - span
        {
          style := ln.spans[span].style;
          span := span + 1;
        }
        var g := ln.text[off];
        off := off + 1;
        if col + g.Width() > cols {
          off := |ln.text|;
          col := cols;
          return false, at, item;
        }
        var empty := col >= content;
        if !empty {
          empty := IsNull(col);
        }
        if empty {
          col := col + 1;
          return true, at, Blank(style);
        }
        col := col + g.Width();
        return true, at, Char(g, style);
      }
      if col < content && col < cols {
        var empty := IsNull(at);
        col := col + 1;
        return true, at, if empty then Blank(DEFAULT_STYLE) else Char(SPACE, DEFAULT_STYLE);
      }
      return false, at, item;
    }
  }

  /** Spans start at distinct characters of the text, in order. */
  ghost predicate SpansOk(ln: Line) {
    && (forall k :: 0 <= k < |ln.spans| ==> ln.spans[k].start < |ln.text|)
    && (forall j, k :: 0 <= j < k < |ln.spans| ==> ln.spans[j].start < ln.spans[k].start)
  }

  function Prints(gs: seq<Glyph>): seq<Op> {
    seq(|gs|, i requires 0 <= i < |gs| => Print(gs[i]))
  }

  // ---- plain rows ----

  /** Characters written one after the other, the pen switched where the style changes. */
  function Chars(pk: Pk, its: seq<Item>): Pk
    requires forall i :: 0 <= i < |its| ==> its[i].Char?
    decreases |its|
  {
    if its == [] then pk else Chars(Emit(SetPen(pk, its[0].style), Print(its[0].glyph)), its[1..])
  }

  /** A run of characters in one style goes out as it is stored. */
  lemma {:induction false} CharsPiece(pk: Pk, its: seq<Item>, text: seq<Glyph>, st: Style)
    requires |text| <= |its| && forall i :: 0 <= i < |its| ==> its[i].Char?
    requires forall i :: 0 <= i < |text| ==> its[i] == Char(text[i], st)
    ensures Chars(pk, its) == Chars(if text == [] then pk else Pk(SetPen(pk, st).out + Prints(text), st), its[|text|..])
    decreases |text|
  {
    if text != [] {
      var p := Emit(SetPen(pk, st), Print(text[0]));
      CharsPiece(p, its[1..], text[1..], st);
      assert its[1..][|text| - 1..] == its[|text|..];
      assert SetPen(pk, st).out + Prints(text) == p.out + Prints(text[1..]);
      assert p.out + Prints([]) == p.out && SetPen(p, st) == p;
      assert Chars(pk, its) == Chars(p, its[1..]);
    }
  }

  lemma {:induction false} DrawChars(d: Draw, its: seq<Item>, cols: nat, rowMarked: bool)
    requires forall i :: 0 <= i < |its| ==> its[i].Char?
    requires d.run == 0 && d.skip == 0 && !d.lastEmpty
    ensures var r := DrawFrom(d, its, cols, rowMarked);
            && r.pk == Chars(d.pk, its) && r.run == 0 && r.skip == 0 && !r.lastEmpty && r.lastStyle == d.lastStyle
            && r.x == d.x + |Flat(its)| && r.end == d.end + |Flat(its)|
            && r.scrub == (d.scrub && its == [])
    decreases |its|
  {
    if its != [] {
      DrawChars(DrawChar(d, its[0].glyph, its[0].style), its[1..], cols, rowMarked);
      assert Flat(its) == CellsOf(its[0]) + Flat(its[1..]);
    }
  }

  ghost predicate PlainLine(ln: Line, cols: nat) {
    ln.text != [] && ln.nulls == [] && TextWidth(ln.text) <= ContentOf(ln) <= cols
  }

  lemma FlatHead(head: Item, rest: seq<Item>)
    ensures |Flat([head] + rest)| == head.Width() + |Flat(rest)|
  {
    assert ([head] + rest)[1..] == rest;
  }

  /** The items of a plain line from the character at `off` on: characters, then the dropped blanks. */
  lemma {:induction false} PlainItems(ln: Line, cols: nat, p: Pos)
    requires ln.nulls == [] && p.off <= |ln.text| && p.col + TextWidth(ln.text[p.off..]) <= ContentOf(ln) <= cols
    ensures var its := ItemsFrom(ln, cols, p); var k := |ln.text| - p.off;
            && |its| == k + ContentOf(ln) - p.col - TextWidth(ln.text[p.off..])
            && (forall i :: 0 <= i < k ==> its[i] == Char(ln.text[p.off + i], StyleAt(ln.spans, p.off + i)))
            && (forall i :: k <= i < |its| ==> its[i] == Char(SPACE, DEFAULT_STYLE))
            && |Flat(its)| == ContentOf(ln) - p.col
    decreases |ln.text| - p.off, ContentOf(ln) - p.col
  {
    hide StyleAt, ContentOf, Flat;
    if p.off < |ln.text| {
      var g := ln.text[p.off];
      assert ln.text[p.off..][0] == g && ln.text[p.off..][1..] == ln.text[p.off + 1..];
      var next := Pos(p.off + 1, p.col + g.Width());
      var head, rest := Char(g, StyleAt(ln.spans, p.off)), ItemsFrom(ln, cols, next);
      PlainItems(ln, cols, next);
      assert ItemsFrom(ln, cols, p) == [head] + rest;
      FlatHead(head, rest);
    } else if p.col < ContentOf(ln) {
      var next := Pos(p.off, p.col + 1);
      var head, rest := Char(SPACE, DEFAULT_STYLE), ItemsFrom(ln, cols, next);
      PlainItems(ln, cols, next);
      assert ItemsFrom(ln, cols, p) == [head] + rest;
      FlatHead(head, rest);
    } else {
      RowProofs.FlatNone();
    }
  }

  /** A plain row drawn by the general loop: its characters, whatever the row held. */
  lemma PlainRow(pk: Pk, ln: Line, cols: nat, scrub: bool)
    requires PlainLine(ln, cols)
    ensures var its := Items(ln, cols);
            && (forall i :: 0 <= i < |its| ==> its[i].Char?)
            && DrawRow(pk, ln, cols, scrub)
            == (SetPen(Chars(pk, its), DEFAULT_STYLE), RowEnd(ContentOf(ln), ContentOf(ln) < cols, DEFAULT_STYLE))
  {
    hide StyleAt, DrawFrom;
    assert ln.text[0..] == ln.text;
    PlainItems(ln, cols, Pos(0, 0));
    DrawChars(StartDraw(pk, scrub), Items(ln, cols), cols, AnyMarked(ln.spans));
  }

  lemma SpanStyle(spans: seq<Span>, j: nat, k: nat)
    requires j <= |spans| && (forall i :: 0 <= i < j ==> spans[i].start <= k) && (j < |spans| ==> spans[j].start > k)
    ensures StyleAt(spans, k) == StyleBefore(spans, j)
  {
    SpansResume(spans, k, 0, j);
  }

  // ---- the packer ----

  /** Writes the operations of one keyframe, tracking the pen the terminal has been left with. */
  class Packer {
    var out: seq<Op>
    var pen: Style
    const cols: nat
    const rows: nat

    function State(): Pk
      reads this
    {
      Pk(out, pen)
    }

    constructor (cols: nat, rows: nat)
      ensures State() == StartPk() && this.cols == cols && this.rows == rows
    {
      this.cols, this.rows := cols, rows;
      out, pen := [Sgr(DEFAULT_STYLE), Cup(0, 0)], DEFAULT_STYLE;
    }

    method Write(op: Op)
      modifies this
      ensures State() == Emit(old(State()), op)
    {
      out := out + [op];
    }

    method SwitchPen(st: Style)
      modifies this
      ensures State() == SetPen(old(State()), st)
    {
      if st != pen {
        Write(Sgr(st));
        pen := st;
      }
    }

    method MoveRight(n: int)
      modifies this
      ensures State() == Forward(old(State()), n)
    {
      if n > 0 {
        Write(Cuf(n));
      }
    }

    method WriteText(text: seq<Glyph>)
      modifies this
      ensures State() == Pk(old(out) + Prints(text), old(pen))
    {
      out := out + Prints(text);
    }

    /** One piece of text in one style: what its characters would be drawn as one by one. */
    method WritePiece(text: seq<Glyph>, st: Style, ghost its: seq<Item>)
      requires text != [] && |text| <= |its| && forall i :: 0 <= i < |its| ==> its[i].Char?
      requires forall i :: 0 <= i < |text| ==> its[i] == Char(text[i], st)
      modifies this
      ensures Chars(State(), its[|text|..]) == Chars(old(State()), its)
    {
      CharsPiece(State(), its, text, st);
      SwitchPen(st);
      WriteText(text);
    }

    /** The row that is nothing but written cells goes out as it is stored, one piece per style. */
    method DrawPlainRow(ln: Line, ghost scrub: bool) returns (end: RowEnd, ok: bool)
      requires SpansOk(ln)
      modifies this
      ensures ok <==> PlainLine(ln, cols)
      ensures ok ==> (State(), end) == Drawing.DrawRow(old(State()), ln, cols, scrub)
      ensures !ok ==> State() == old(State())
    {
      hide Chars, Drawing.DrawRow, Items, StyleBefore, StyleAt, TextWidth, ContentOf, Drawing.SetPen, Emit;
      var width, content := TextWidth(ln.text), ContentOf(ln);
      if ln.text == [] || ln.nulls != [] || width > content || content > cols {
        return NO_END, false;
      }
      ghost var its := Items(ln, cols);
      PlainRow(State(), ln, cols, scrub);
      PlainText(ln, cols);
      assert its[0..] == its;
      var pos, id, j := 0, DEFAULT_STYLE, 0;
      StyleBeforeAny(ln.spans);
      while j < |ln.spans|
        invariant 0 <= j <= |ln.spans| && pos <= |ln.text|
        invariant pos == if j == 0 then 0 else ln.spans[j - 1].start
        invariant id == StyleBefore(ln.spans, j)
        invariant Chars(State(), its[pos..]) == Chars(old(State()), its)
      {
        var at := ln.spans[j].start;
        if at > pos {
          PieceStyles(ln, cols, pos, at, j);
          assert its[pos..][at - pos..] == its[at..];
          WritePiece(ln.text[pos..at], id, its[pos..]);
          pos := at;
        }
        id := ln.spans[j].style;
        j := j + 1;
        StyleBeforeAny(ln.spans);
      }
      if pos < |ln.text| {
        PieceStyles(ln, cols, pos, |ln.text|, j);
        assert ln.text[pos..|ln.text|] == ln.text[pos..];
        assert its[pos..][|ln.text| - pos..] == its[|ln.text|..];
        WritePiece(ln.text[pos..], id, its[pos..]);
      }
      if content > width {
        var blanks := seq(content - width, i => SPACE);
        assert its[|ln.text|..][content - width..] == its[|its|..];
        WritePiece(blanks, DEFAULT_STYLE, its[|ln.text|..]);
      }
      CharsEnd(State(), its);
      SwitchPen(DEFAULT_STYLE);
      return RowEnd(content, content < cols, DEFAULT_STYLE), true;
    }

    method FlushSkip(d: Draw) returns (d': Draw)
      requires d.pk == State()
      modifies this
      ensures d' == Drawing.FlushSkip(d) && d'.pk == State() && d'.end == d.end
    {
      MoveRight(d.skip);
      d' := d.(pk := State(), x := d.x + d.skip, skip := 0);
    }

    /** The empty cells gathered so far are erased if they carry a colour, and moved over either way. */
    method FlushRun(d: Draw) returns (d': Draw)
      requires d.pk == State()
      modifies this
      ensures d' == Drawing.FlushRun(d) && d'.pk == State() && d'.end == d.end
    {
      d' := d;
      if d.run == 0 {
        return;
      }
      if d.runBg != Default {
        d' := FlushSkip(d');
        SwitchPen(Erased(d.runBg));
        Write(Ech(d.run));
        d' := d'.(pk := State(), scrub := d.scrub && d.runStart != 0);
      } else if d.scrub && d.runStart == 0 {
        d' := FlushSkip(d');
        SwitchPen(DEFAULT_STYLE);
        Write(Ech(1));
        d' := d'.(pk := State(), scrub := false);
      }
      d' := d'.(skip := d'.skip + d'.run, run := 0);
    }

    method PeekItem(it: RowReader) returns (next: Option<Item>)
      requires it.Valid()
      ensures next == match NextItem(it.ln, it.cols, it.Here()) case Some(n) => Some(n.0) case None => None
    {
      var copy := new RowReader.Copy(it);
      var ok, at, item := copy.Next();
      next := if ok then Some(item) else None;
    }

    method WriteMarked(col: nat, st: Style, next: Option<Item>)
      modifies this
      ensures State() == MarkedOps(old(State()), col, st, next)
    {
      Write(Print(WIDE_FILLER));
      Write(Cha(col + 1));
      if !(next.Some? && next.value.Char? && next.value.style == st) {
        SwitchPen(st);
        Write(Print(SPACE));
        Write(Cha(col + 1));
        if !(next.Some? && next.value.Char?) {
          SwitchPen(Erased(if next.Some? then next.value.style.bg else Default));
          Write(Ech(1));
        }
      }
    }

    method WriteBeforeMarked(col: nat, g: Glyph, st: Style)
      modifies this
      ensures State() == BeforeMarkedOps(old(State()), col, g, st)
    {
      Write(Cha(col + g.Width() - 1));
      Write(Print(WIDE_FILLER));
      Write(Cha(col));
      SwitchPen(st);
      Write(Print(g));
    }

    /** An empty cell joins the run being gathered. */
    method GatherBlank(d: Draw, st: Style) returns (d': Draw)
      requires d.pk == State()
      modifies this
      ensures d' == DrawBlank(d, st) && d'.pk == State()
    {
      d' := d.(end := d.end + 1, lastEmpty := true, lastStyle := st);
      if d.run > 0 && st.bg != d.runBg {
        d' := FlushRun(d');
      }
      if d'.run == 0 {
        d' := d'.(runStart := d.end, runBg := st.bg);
      }
      d' := d'.(run := d'.run + 1);
    }

    method WriteChar(d: Draw, g: Glyph, st: Style) returns (d': Draw)
      requires d.pk == State()
      modifies this
      ensures d' == DrawChar(d, g, st) && d'.pk == State()
    {
      d' := FlushRun(d.(end := d.end + g.Width(), lastEmpty := false));
      d' := FlushSkip(d');
      SwitchPen(st);
      Write(Print(g));
      d' := d'.(pk := State(), x := d'.x + g.Width(), scrub := false);
    }

    /** An empty cell erasing cannot make, and the empty one after it. */
    method MakeMarked(d: Draw, st: Style, next: Option<Item>) returns (d': Draw)
      requires d.pk == State()
      modifies this
      ensures d' == DrawMarked(d, st, next) && d'.pk == State()
    {
      hide MarkedOps;
      var col := d.end;
      d' := FlushRun(d.(end := col + 1, lastEmpty := true, lastStyle := st));
      d' := FlushSkip(d');
      WriteMarked(col, st, next);
      d' := d'.(pk := State(), x := d'.x + 1, scrub := d'.scrub && col != 0);
      if next.Some? && next.value.Blank? {
        d' := d'.(skip := d'.skip + 1, end := col + 2, lastStyle := next.value.style);
      }
    }

    method MakeBeforeMarked(d: Draw, g: Glyph, st: Style) returns (d': Draw)
      requires d.pk == State()
      modifies this
      ensures d' == DrawBeforeMarked(d, g, st) && d'.pk == State()
    {
      hide BeforeMarkedOps;
      var col := d.end;
      d' := FlushRun(d.(end := col + g.Width(), lastEmpty := false));
      d' := FlushSkip(d');
      WriteBeforeMarked(col, g, st);
      d' := d'.(pk := State(), x := d'.x + g.Width(), skip := d'.skip + 1, end := col + g.Width() + 1,
                lastEmpty := true, lastStyle := st, scrub := false);
    }

    /** One cell of the row, and the empty one after it when both are made together. */
    method Turn(it: RowReader, d: Draw, item: Item, rowMarked: bool, ghost its: seq<Item>) returns (d': Draw)
      requires it.Valid() && it.cols == cols && d.pk == State() && d.end + item.Width() == it.col
      requires its == [item] + ItemsFrom(it.ln, cols, it.Here())
      modifies this, it
      ensures it.Valid() && d'.pk == State()
      ensures var (r, n) := DrawTurn(d, its, cols, rowMarked);
              d' == r && ItemsFrom(it.ln, cols, it.Here()) == its[n..]
      ensures it.col == d'.end && it.off >= old(it.off) && it.col >= old(it.col)
    {
      hide ItemsFrom, DrawMarked, DrawBeforeMarked, DrawBlank, DrawChar;
      ItemsHead(it.ln, cols, it.Here());
      TurnEnds(d, item);
      var next := PeekItem(it);
      assert next == Peek(its);
      match item {
        case Blank(st) =>
          if rowMarked && Marked(st) && d.end + 1 < cols {
            d' := MakeMarked(d, st, next);
            if next.Some? && next.value.Blank? {
              var ok, at, used := it.Next();
            }
          } else {
            d' := GatherBlank(d, st);
          }
        case Char(g, st) =>
          if rowMarked && d.end + g.Width() < cols && next.Some? && next.value.Blank? && Marked(next.value.style) && next.value.style == st {
            d' := MakeBeforeMarked(d, g, st);
            var ok, at, used := it.Next();
          } else {
            d' := WriteChar(d, g, st);
          }
      }
    }

    /** Writes one row's cells from column 0; `scrub` says column 0 holds a placeholder to be erased. */
    method DrawRow(ln: Line, scrub: bool) returns (rowEnd: RowEnd)
      requires SpansOk(ln)
      modifies this
      ensures (State(), rowEnd) == Drawing.DrawRow(old(State()), ln, cols, scrub)
    {
      hide DrawFrom, ItemsFrom, DrawTurn;
      var plainEnd, plain := DrawPlainRow(ln, scrub);
      if plain {
        return plainEnd;
      }
      var rowMarked := false;
      for k := 0 to |ln.spans|
        invariant rowMarked <==> exists i :: 0 <= i < k && Marked(ln.spans[i].style)
      {
        rowMarked := rowMarked || Marked(ln.spans[k].style);
      }
      assert rowMarked == AnyMarked(ln.spans);
      var it := new RowReader(ln, cols);
      var d := StartDraw(State(), scrub);
      ghost var goal := DrawFrom(d, Items(ln, cols), cols, rowMarked);
      while true
        invariant it.Valid() && fresh(it) && it.ln == ln && it.cols == cols && it.col == d.end && d.pk == State()
        invariant DrawFrom(d, ItemsFrom(ln, cols, it.Here()), cols, rowMarked) == goal
        decreases |ln.text| - it.off, cols - it.col
      {
        ghost var its := ItemsFrom(ln, cols, it.Here());
        ItemsHead(ln, cols, it.Here());
        var ok, col, item := it.Next();
        if !ok {
          DrawFromEnd(d, cols, rowMarked);
          break;
        }
        DrawFromHead(d, its, cols, rowMarked);
        d := Turn(it, d, item, rowMarked, its);
      }
      d := FlushRun(d);
      if d.scrub {
        SwitchPen(DEFAULT_STYLE);
        Write(Ech(1));
      }
      SwitchPen(DEFAULT_STYLE);
      rowEnd := if d.end < cols then RowEnd(d.x, true, DEFAULT_STYLE) else RowEnd(d.x, d.lastEmpty, d.lastStyle);
    }

    method FirstCell(ln: Line) returns (kind: Kind, style: Style)
      ensures (kind, style) == Drawing.FirstCell(ln, cols)
    {
      ItemsHead(ln, cols, Pos(0, 0));
      var it := new RowReader(ln, cols);
      var ok, col, item := it.Next();
      if !ok || item.Blank? {
        return Empty, DEFAULT_STYLE;
      }
      ItemsHead(ln, cols, it.Here());
      if Marked(item.style) || |ln.spans| > 0 {
        var nok, ncol, next := it.Next();
        if nok && next.Blank? && Marked(next.style) && next.style == item.style && item.Width() < cols {
          return NoWrap, item.style;
        }
      }
      return if item.glyph.wide then Wide else Narrow, item.style;
    }

    /** Makes the next character drawn continue the row just drawn onto the one below. */
    method ContinueRow(prev: RowEnd, next: Line) returns (scrub: bool)
      requires cols >= 1
      modifies this
      ensures (State(), scrub) == Drawing.ContinueRow(old(State()), prev, next, cols)
    {
      hide Drawing.FirstCell;
      var kind, first := FirstCell(next);
      if prev.x >= cols {
        if kind == Empty || kind == NoWrap {
          Write(Print(SPACE));
          Write(Cha(0));
          return true;
        }
        return false;
      }
      if kind == Wide && prev.empty && prev.tail == first {
        MoveRight(cols - 1 - prev.x);
        return false;
      }
      MoveRight(cols - 1 - prev.x);
      Write(Print(SPACE));
      Write(Print(SPACE));
      Write(Cuu);
      Write(Cha(cols - 1));
      SwitchPen(Erased(prev.tail.bg));
      Write(Ech(1));
      SwitchPen(DEFAULT_STYLE);
      Write(Cud);
      Write(Cha(0));
      return kind == Empty || kind == NoWrap;
    }

    /** Gives the first row drawn its continuation mark when there is no row above to continue. */
    method LeadingContinuation(next: Line) returns (scrub: bool)
      requires cols >= 1
      modifies this
      ensures (State(), scrub) == Drawing.LeadingContinuation(old(State()), next, cols)
    {
      hide Drawing.FirstCell;
      Write(Cup(0, cols - 1));
      Write(Print(SPACE));
      Write(Print(SPACE));
      Write(Cup(0, 0));
      Write(Dl);
      var kind, first := FirstCell(next);
      return kind == Empty || kind == NoWrap;
    }

    method DrawRows(lines: seq<Line>, absolute: bool)
      requires cols >= 1 && forall i :: 0 <= i < |lines| ==> SpansOk(lines[i])
      modifies this
      ensures State() == Drawing.DrawRows(old(State()), lines, cols, absolute)
    {
      var prev := NO_END;
      var i := 0;
      while i < |lines|
        invariant 0 <= i <= |lines|
        invariant DrawRowsFrom(State(), lines, i, prev, cols, absolute) == Drawing.DrawRows(old(State()), lines, cols, absolute)
      {
        hide Drawing.DrawRow, Drawing.ContinueRow, Drawing.LeadingContinuation, SpansOk;
        var ln := lines[i];
        var scrub, skipped := false, false;
        if ln.wrapped && i > 0 {
          scrub := ContinueRow(prev, ln);
        } else if ln.wrapped {
          scrub := LeadingContinuation(ln);
        } else if absolute {
          if BlankLine(ln) && !Continues(lines, i + 1) {
            skipped := true;
          } else {
            Write(Cup(i, 0));
          }
        } else if i > 0 {
          Write(CrLf);
        }
        if !skipped {
          prev := DrawRow(ln, scrub);
        }
        i := i + 1;
      }
    }

    /** Puts the cursor at (row, col); past the last column by writing the last cell again. */
    method PlaceCursor(lines: seq<Line>, row: nat, col: nat)
      requires cols >= 1
      modifies this
      ensures State() == Drawing.PlaceCursor(old(State()), lines, row, col, cols)
    {
      if col < cols {
        Write(Cup(row, col));
        return;
      }
      hide Items, ItemsFrom, NextItem, LastChar, StyleBefore, Chars, Drawing.SetPen;
      if row < |lines| {
        LastOfRow(lines[row], cols);
        var it := new RowReader(lines[row], cols);
        while true
          invariant it.Valid() && fresh(it) && it.ln == lines[row] && it.cols == cols && State() == old(State())
          invariant LastChar(ItemsFrom(lines[row], cols, it.Here()), it.col, cols) == LastChar(Items(lines[row], cols), 0, cols)
          decreases |it.ln.text| - it.off, cols - it.col
        {
          LastCharFrom(lines[row], cols, it.Here());
          var ok, c, item := it.Next();
          if !ok {
            break;
          }
          if c + item.Width() == cols && item.Char? {
            Write(Cup(row, c));
            SwitchPen(item.style);
            Write(Print(item.glyph));
            return;
          }
        }
      }
      Write(Cup(row, cols - 1));
    }

    method SetRegion(top: nat, bot: nat)
      modifies this
      ensures State() == Keyframes.SetRegion(old(State()), top, bot, rows)
    {
      if top != 0 || bot != rows - 1 {
        Write(Region(top, bot));
      }
    }

    method PlaceAndPen(lines: seq<Line>, row: nat, col: nat, style: Style)
      requires cols >= 1
      modifies this
      ensures State() == Keyframes.PlaceAndPen(old(State()), lines, row, col, style, cols)
    {
      PlaceCursor(lines, row, col);
      SwitchPen(style);
    }
  }

  /** Renders a keyframe for a freshly cleared terminal. */
  method SerializeKeyframe(t: Term) returns (out: seq<Op>)
    requires t.cols >= 1 && t.rows >= 1
    ensures out == Keyframe(t).out
    ensures Restorable(t) ==> (Exec(Fresh(t.rows, t.cols), out) == t <==> Faithful(t))
  {
    hide Drawing.DrawRows, Keyframes.PlaceAndPen, Encode, Restorable, Faithful, Exec;
    EncodeSpansOk();
    var p := new Packer(t.cols, t.rows);
    var normal := if t.parked.Parked? then t.parked.screen else t.screen;
    p.DrawRows(EncodeAll(t.history) + EncodeAll(normal), false);
    if t.parked.Parked? {
      var k := t.parked;
      p.SetRegion(k.top, k.bot);
      p.PlaceAndPen(EncodeAll(k.screen), k.row, k.col, k.pen);
      p.Write(EnterAlt);
      p.Write(Sgr(DEFAULT_STYLE));
      p.pen := DEFAULT_STYLE;
      p.DrawRows(EncodeAll(t.screen), true);
    }
    assert p.State() == WriteScreens(t);
    p.SetRegion(t.top, t.bot);
    if t.saved != Slot(0, 0, DEFAULT_STYLE) {
      p.PlaceAndPen(EncodeAll(t.screen), Min(t.saved.row, t.rows - 1), t.saved.col, t.saved.pen);
      p.Write(SaveCursor);
    }
    p.PlaceAndPen(EncodeAll(t.screen), t.row, t.col, t.pen);
    out := p.out;
    if Restorable(t) {
      KeyframeRoundTrip(t);
    }
  }

  /** Stored rows have their spans in order. */
  lemma EncodeSpansOk()
    ensures forall row :: SpansOk(Encode(row))
  {
    forall row
      ensures SpansOk(Encode(row))
    {
      SpansInText(row.cells, 0, TextEnd(row.cells), DEFAULT_STYLE, 0);
    }
  }

  ghost predicate InOrder(spans: seq<Span>, from: nat, to: nat) {
    && (forall k :: 0 <= k < |spans| ==> from <= spans[k].start < to)
    && (forall j, k :: 0 <= j < k < |spans| ==> spans[j].start < spans[k].start)
  }

  lemma StoredStep(cells: seq<Cell>, i: nat, end: nat, prev: Style, n: nat)
    requires i < end <= |cells|
    ensures var next := i + StepWidth(cells[i]);
            && |TextFrom(cells, i, end)| == 1 + |TextFrom(cells, next, end)|
            && SpansFrom(cells, i, end, prev, n)
            == (if cells[i].style != prev then [Span(n, cells[i].style)] else []) + SpansFrom(cells, next, end, cells[i].style, n + 1)
  {
  }

  lemma SpanOf(s: Span, rest: seq<Span>, k: nat)
    requires k <= |rest|
    ensures ([s] + rest)[k] == if k == 0 then s else rest[k - 1]
  {
  }

  lemma Ordered(spans: seq<Span>, from: nat, to: nat, j: nat, k: nat)
    requires InOrder(spans, from, to) && j < k < |spans|
    ensures spans[j].start < spans[k].start
  {
  }

  lemma Within(spans: seq<Span>, from: nat, to: nat, k: nat)
    requires InOrder(spans, from, to) && k < |spans|
    ensures from <= spans[k].start < to
  {
  }

  lemma InOrderMore(s: Span, rest: seq<Span>, to: nat)
    requires s.start < to && InOrder(rest, s.start + 1, to)
    ensures InOrder([s] + rest, s.start, to) && InOrder(rest, s.start, to) && [] + rest == rest
  {
    MoreOrdered(s, rest, to);
    MoreWithin(s, rest, to);
  }

  lemma MoreOrdered(s: Span, rest: seq<Span>, to: nat)
    requires InOrder(rest, s.start + 1, to)
    ensures forall j, k :: 0 <= j < k < |[s] + rest| ==> ([s] + rest)[j].start < ([s] + rest)[k].start
  {
    hide InOrder;
    var all := [s] + rest;
    forall j, k | 0 <= j < k < |all| ensures all[j].start < all[k].start {
      SpanOf(s, rest, j);
      SpanOf(s, rest, k);
      if j > 0 {
        Ordered(rest, s.start + 1, to, j - 1, k - 1);
      } else {
        Within(rest, s.start + 1, to, k - 1);
      }
    }
  }

  lemma MoreWithin(s: Span, rest: seq<Span>, to: nat)
    requires s.start < to && InOrder(rest, s.start + 1, to)
    ensures forall k :: 0 <= k < |[s] + rest| ==> s.start <= ([s] + rest)[k].start < to
  {
    hide InOrder;
    var all := [s] + rest;
    forall k | 0 <= k < |all| ensures s.start <= all[k].start < to {
      SpanOf(s, rest, k);
      if k > 0 {
        Within(rest, s.start + 1, to, k - 1);
      }
    }
  }

  lemma {:induction false} SpansInText(cells: seq<Cell>, i: nat, end: nat, prev: Style, n: nat)
    requires end <= |cells|
    ensures InOrder(SpansFrom(cells, i, end, prev, n), n, n + |TextFrom(cells, i, end)|)
    decreases if i < end then end - i else 0
  {
    if i < end {
      var next := i + StepWidth(cells[i]);
      SpansInText(cells, next, end, cells[i].style, n + 1);
      SpansInTextStep(cells, i, end, prev, n);
    }
  }

  lemma SpansInTextStep(cells: seq<Cell>, i: nat, end: nat, prev: Style, n: nat)
    requires i < end <= |cells|
    requires var next := i + StepWidth(cells[i]);
             InOrder(SpansFrom(cells, next, end, cells[i].style, n + 1), n + 1, n + 1 + |TextFrom(cells, next, end)|)
    ensures InOrder(SpansFrom(cells, i, end, prev, n), n, n + |TextFrom(cells, i, end)|)
  {
    hide InOrder;
    var next := i + StepWidth(cells[i]);
    StoredStep(cells, i, end, prev, n);
    hide SpansFrom, TextFrom;
    InOrderMore(Span(n, cells[i].style), SpansFrom(cells, next, end, cells[i].style, n + 1), n + |TextFrom(cells, i, end)|);
  }

  lemma TurnEnds(d: Draw, item: Item)
    ensures item.Blank? ==> DrawBlank(d, item.style).end == d.end + 1
    ensures item.Blank? ==> forall next :: DrawMarked(d, item.style, next).end == d.end + if next.Some? && next.value.Blank? then 2 else 1
    ensures item.Char? ==> DrawChar(d, item.glyph, item.style).end == d.end + item.Width()
    ensures item.Char? ==> DrawBeforeMarked(d, item.glyph, item.style).end == d.end + item.Width() + 1
  {
    hide MarkedOps, BeforeMarkedOps, SetPen, Emit;
  }

  lemma LastOfRow(ln: Line, cols: nat)
    ensures LastChar(Items(ln, cols), 0, cols) == LastChar(ItemsFrom(ln, cols, Pos(0, 0)), 0, cols)
  {
  }

  /** The search for the last column's character, one cell of the row at a time. */
  lemma LastCharFrom(ln: Line, cols: nat, p: Pos)
    ensures LastChar(ItemsFrom(ln, cols, p), p.col, cols)
         == match NextItem(ln, cols, p)
            case None => None
            case Some(n) =>
              if n.0.Char? && p.col + n.0.Width() == cols then Some((p.col, n.0.glyph, n.0.style))
              else LastChar(ItemsFrom(ln, cols, n.1), n.1.col, cols)
    ensures match NextItem(ln, cols, p)
            case None => true
            case Some(n) => n.1.col == p.col + n.0.Width() && (p.off < n.1.off <= |ln.text| || (p.off == n.1.off && p.col < n.1.col))
  {
    hide StyleAt, ContentOf, NullAt;
    ItemsHead(ln, cols, p);
    hide ItemsFrom;
    if NextItem(ln, cols, p).Some? {
      var n := NextItem(ln, cols, p).value;
      assert ([n.0] + ItemsFrom(ln, cols, n.1))[1..] == ItemsFrom(ln, cols, n.1);
    }
  }

  lemma ItemsHead(ln: Line, cols: nat, p: Pos)
    ensures ItemsFrom(ln, cols, p)
         == match NextItem(ln, cols, p) case Some(n) => [n.0] + ItemsFrom(ln, cols, n.1) case None => []
  {
  }

  lemma DrawFromEnd(d: Draw, cols: nat, rowMarked: bool)
    ensures DrawFrom(d, [], cols, rowMarked) == d
  {
  }

  lemma DrawFromHead(d: Draw, its: seq<Item>, cols: nat, rowMarked: bool)
    requires its != []
    ensures var (d', n) := DrawTurn(d, its, cols, rowMarked);
            DrawFrom(d, its, cols, rowMarked) == DrawFrom(d', its[n..], cols, rowMarked)
  {
  }

  lemma CharsEnd(pk: Pk, its: seq<Item>)
    ensures Chars(pk, its[|its|..]) == pk
  {
  }

  lemma StyleBeforeAny(spans: seq<Span>)
    ensures StyleBefore(spans, 0) == DEFAULT_STYLE
    ensures forall j :: 0 < j <= |spans| ==> StyleBefore(spans, j) == spans[j - 1].style
  {
  }

  lemma PlainText(ln: Line, cols: nat)
    requires PlainLine(ln, cols)
    ensures var its := Items(ln, cols); var k := |ln.text|;
            && |its| == k + ContentOf(ln) - TextWidth(ln.text)
            && (forall i :: 0 <= i < k ==> its[i] == Char(ln.text[i], StyleAt(ln.spans, i)))
            && (forall i :: k <= i < |its| ==> its[i] == Char(SPACE, DEFAULT_STYLE))
  {
    hide StyleAt, ContentOf;
    assert ln.text[0..] == ln.text;
    PlainItems(ln, cols, Pos(0, 0));
  }

  /** The characters between two span starts share the style of the span before them. */
  lemma PieceStyles(ln: Line, cols: nat, pos: nat, at: nat, j: nat)
    requires PlainLine(ln, cols) && SpansOk(ln) && j <= |ln.spans| && pos < at <= |ln.text|
    requires pos == if j == 0 then 0 else ln.spans[j - 1].start
    requires at == if j < |ln.spans| then ln.spans[j].start else |ln.text|
    ensures at <= |Items(ln, cols)|
    ensures forall i :: 0 <= i < at - pos ==> Items(ln, cols)[pos..][i] == Char(ln.text[pos..at][i], StyleBefore(ln.spans, j))
  {
    hide StyleAt, Items;
    PlainText(ln, cols);
    forall i | 0 <= i < at - pos
      ensures Items(ln, cols)[pos..][i] == Char(ln.text[pos..at][i], StyleBefore(ln.spans, j))
    {
      SpanStyle(ln.spans, j, pos + i);
    }
  }
}
