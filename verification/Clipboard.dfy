/** The observer of clipboard writes in a session's output: framing survives any chunking. */
module Clipboard {
  import opened Common
  import opened Folds
  import B64 = Base64
  import UTF = Boundary
  import XP = XParser

  const MAX_BYTES: nat := 4194304

  /** The longest payload kept: the base64 of the largest text and 32 bytes of framing. */
  const PAYLOAD_LIMIT: nat := (MAX_BYTES + 2) / 3 * 4 + 32

  datatype State = Idle | SawEsc | Osc | OscEsc | Overlong | OverlongEsc | Csi

  /** A clipboard write, with the offset just past it, or a switch of bracketed paste. */
  datatype Emission = Copied(text: seq<Byte>, offset: int, replayed: bool) | PasteMode(on: bool)

  datatype Scan = Scan(state: State, payload: seq<Byte>, replayed: bool, offset: int, emitted: seq<Emission>)

  datatype Event = Event(b: Byte, historical: bool)

  // ---- well-formed text: section 4 of RFC 3629 ----

  predicate Tail(b: seq<Byte>, i: nat) {
    i < |b| && 0x80 <= b[i] <= 0xbf
  }

  /** The length of the well-formed character at the front, 0 if there is none. */
  function CharLen(b: seq<Byte>): (n: nat)
    ensures n <= |b|
  {
    if b == [] then 0
    else if b[0] <= 0x7f then 1
    else if 0xc2 <= b[0] <= 0xdf && Tail(b, 1) then 2
    else if b[0] == 0xe0 && Tail(b, 1) && b[1] >= 0xa0 && Tail(b, 2) then 3
    else if (0xe1 <= b[0] <= 0xec || 0xee <= b[0] <= 0xef) && Tail(b, 1) && Tail(b, 2) then 3
    else if b[0] == 0xed && Tail(b, 1) && b[1] <= 0x9f && Tail(b, 2) then 3
    else if b[0] == 0xf0 && Tail(b, 1) && b[1] >= 0x90 && Tail(b, 2) && Tail(b, 3) then 4
    else if 0xf1 <= b[0] <= 0xf3 && Tail(b, 1) && Tail(b, 2) && Tail(b, 3) then 4
    else if b[0] == 0xf4 && Tail(b, 1) && b[1] <= 0x8f && Tail(b, 2) && Tail(b, 3) then 4
    else 0
  }

  predicate ValidText(b: seq<Byte>)
    decreases |b|
  {
    b == [] || (CharLen(b) > 0 && ValidText(b[CharLen(b)..]))
  }

  // ---- a finished OSC string ----

  /** The first semicolon, or the length if there is none. */
  function Semicolon(s: seq<Byte>): (n: nat)
    ensures n <= |s|
    ensures forall i :: 0 <= i < n ==> s[i] != 0x3b
    ensures n < |s| ==> s[n] == 0x3b
  {
    if s == [] || s[0] == 0x3b then 0 else 1 + Semicolon(s[1..])
  }

  /** c p s 0..7 */
  predicate SelectionByte(b: Byte) {
    b == 0x63 || b == 0x70 || b == 0x73 || 0x30 <= b <= 0x37
  }

  const PREFIX: seq<Byte> := [0x35, 0x32, 0x3b]

  const NOTHING_COPIED: seq<Byte> := []

  /** The text a finished OSC string writes to the clipboard; empty when it writes none. */
  function CopiedText(payload: seq<Byte>): seq<Byte> {
    if |payload| < 3 || payload[..3] != PREFIX then NOTHING_COPIED
    else
      var rest := payload[3..];
      var n := Semicolon(rest);
      if n == |rest| || rest[n + 1..] == [0x3f] || exists i :: 0 <= i < n && !SelectionByte(rest[i]) then NOTHING_COPIED
      else match B64.Decode(rest[n + 1..])
        case Failed => NOTHING_COPIED
        case Bytes(raw) => if |raw| > MAX_BYTES || !ValidText(raw) then NOTHING_COPIED else raw
  }

  /** `2004` as one of the semicolon-separated fields, and how often. */
  function PasteFields(params: seq<Byte>): nat
    decreases |params|
  {
    var n := Semicolon(params);
    (if params[..n] == [0x32, 0x30, 0x30, 0x34] then 1 else 0) + if n < |params| then PasteFields(params[n + 1..]) else 0
  }

  function Switches(payload: seq<Byte>, final: Byte): seq<Emission> {
    if (final == 0x68 || final == 0x6c) && |payload| > 0 && payload[0] == 0x3f then
      seq(PasteFields(payload[1..]), i => PasteMode(final == 0x68))
    else []
  }

  function Finish(s: Scan): Scan {
    var text := CopiedText(s.payload);
    s.(payload := [], emitted := if text == [] then s.emitted else s.emitted + [Copied(text, s.offset, s.replayed)])
  }

  function ScanByte(s0: Scan, e: Event): Scan {
    var s, b := s0.(offset := s0.offset + 1), e.b;
    match s.state
    case Idle => if b == 27 then s.(state := SawEsc, replayed := e.historical) else s
    case SawEsc =>
      if b == 0x5d then s.(state := Osc, payload := [])
      else if b == 0x5b then s.(state := Csi, payload := [])
      else if b != 27 then s.(state := Idle)
      else s
    case Osc =>
      if b == 7 then Finish(s).(state := Idle)
      else if b == 27 then s.(state := OscEsc)
      else if |s.payload| < PAYLOAD_LIMIT then s.(payload := s.payload + [b])
      else s.(payload := [], state := Overlong)
    case OscEsc => if b == 0x5c then Finish(s).(state := Idle) else s.(payload := [], state := Idle)
    case Overlong => if b == 7 then s.(state := Idle) else if b == 27 then s.(state := OverlongEsc) else s
    case OverlongEsc => if b == 0x5c || b == 7 then s.(state := Idle) else s.(state := Overlong)
    case Csi =>
      if 0x40 <= b <= 0x7e then s.(emitted := s.emitted + Switches(s.payload, b), state := Idle, payload := [])
      else if |s.payload| < 64 then s.(payload := s.payload + [b])
      else s.(state := Idle, payload := [])
  }

  function Events(data: seq<Byte>, historical: bool): seq<Event> {
    seq(|data|, i requires 0 <= i < |data| => Event(data[i], historical))
  }

  /** The scanner as the program has it; what it emits goes to `emitted`. */
  class ClipboardScanner {
    var state: State
    var payload: seq<Byte>
    var startHistorical: bool
    var offset: int

    function Now(emitted: seq<Emission>): Scan
      reads this
    {
      Scan(state, payload, startHistorical, offset, emitted)
    }

    ghost predicate Valid()
      reads this
    {
      |payload| <= (4 * 1024 * 1024 + 2) / 3 * 4 + 32
    }

    constructor (offset: int)
      ensures Valid() && Now([]) == Scan(Idle, [], false, offset, [])
    {
      state, payload, startHistorical, this.offset := Idle, [], false, offset;
    }

    method FinishString(emitted: seq<Emission>) returns (out: seq<Emission>)
      modifies this
      ensures Now(out) == Finish(old(Now(emitted)))
    {
      var text := CopiedText(payload);
      payload := [];
      out := if text == [] then emitted else emitted + [Copied(text, offset, startHistorical)];
    }

    /** One byte of the stream. */
    method StepByte(b: Byte, historical: bool, before: seq<Emission>) returns (emitted: seq<Emission>)
      requires Valid()
      modifies this
      ensures Valid() && Now(emitted) == ScanByte(old(Now(before)), Event(b, historical))
    {
      hide CopiedText, Switches;
      emitted := before;
      offset := offset + 1;
      match state {
        case Idle =>
          if b == 27 {
            state, startHistorical := SawEsc, historical;
          }
        case SawEsc =>
          if b == 0x5d {
            state, payload := Osc, [];
          } else if b == 0x5b {
            state, payload := Csi, [];
          } else if b != 27 {
            state := Idle;
          }
        case Osc =>
          if b == 7 {
            emitted := FinishString(emitted);
            state := Idle;
          } else if b == 27 {
            state := OscEsc;
          } else if |payload| < PAYLOAD_LIMIT {
            payload := payload + [b];
          } else {
            payload, state := [], Overlong;
          }
        case OscEsc =>
          if b == 0x5c {
            emitted := FinishString(emitted);
          } else {
            payload := [];
          }
          state := Idle;
        case Overlong =>
          if b == 7 {
            state := Idle;
          } else if b == 27 {
            state := OverlongEsc;
          }
        case OverlongEsc =>
          state := if b == 0x5c || b == 7 then Idle else Overlong;
        case Csi =>
          if 0x40 <= b <= 0x7e {
            emitted := emitted + Switches(payload, b);
            state, payload := Idle, [];
          } else if |payload| < 64 {
            payload := payload + [b];
          } else {
            state, payload := Idle, [];
          }
      }
    }

    method Feed(data: seq<Byte>, historical: bool) returns (emitted: seq<Emission>)
      requires Valid()
      modifies this
      ensures Valid()
      ensures Now(emitted) == Fold(ScanByte, old(Now([])), Events(data, historical))
    {
      hide Fold, ScanByte;
      emitted := [];
      ghost var es, start := Events(data, historical), Now([]);
      NoFold(start, es);
      for i := 0 to |data|
        invariant Valid() && Now(emitted) == Fold(ScanByte, start, es[..i])
      {
        assert es[..i + 1] == es[..i] + [es[i]];
        FoldOne(ScanByte, start, es[..i], es[i]);
        emitted := StepByte(data[i], historical, emitted);
      }
      assert es[..|data|] == es;
    }
  }

  lemma NoFold(s: Scan, es: seq<Event>)
    ensures Fold(ScanByte, s, es[..0]) == s
  {
  }

  // ---- every write that is sent is seen ----

  datatype Terminator = ByBel | ByST

  function TerminatorBytes(t: Terminator): seq<Byte> {
    match t
    case ByBel => [7]
    case ByST => [27, 0x5c]
  }

  function Payload(selection: seq<Byte>, text: seq<Byte>): seq<Byte> {
    PREFIX + selection + [0x3b] + B64.Encode(text)
  }

  /** OSC 52 ; selection ; base64 of the text, ended by BEL or ST. */
  function WriteOf(selection: seq<Byte>, text: seq<Byte>, t: Terminator): seq<Byte> {
    [27, 0x5d] + Payload(selection, text) + TerminatorBytes(t)
  }

  ghost predicate GoodSelection(s: seq<Byte>) {
    |s| <= 28 && forall i :: 0 <= i < |s| ==> SelectionByte(s[i])
  }

  ghost predicate GoodText(t: seq<Byte>) {
    0 < |t| <= 4 * 1024 * 1024 && ValidText(t)
  }

  lemma SemicolonAfter(sel: seq<Byte>, rest: seq<Byte>)
    requires forall i :: 0 <= i < |sel| ==> sel[i] != 0x3b
    ensures Semicolon(sel + [0x3b] + rest) == |sel|
    decreases |sel|
  {
    var s := sel + [0x3b] + rest;
    assert s[|sel|] == 0x3b;
    assert forall i :: 0 <= i < |sel| ==> s[i] == sel[i] != 0x3b;
  }

  lemma PayloadRead(sel: seq<Byte>, text: seq<Byte>)
    requires GoodSelection(sel) && GoodText(text)
    ensures CopiedText(Payload(sel, text)) == text
    ensures |Payload(sel, text)| <= PAYLOAD_LIMIT
    ensures forall i :: 0 <= i < |Payload(sel, text)| ==> Payload(sel, text)[i] != 7 && Payload(sel, text)[i] != 27
  {
    hide ValidText, B64.Decode, B64.Encode;
    var p, code := Payload(sel, text), B64.Encode(text);
    B64.EncodeShape(text);
    B64.DecodeEncode(text);
    var rest := p[3..];
    assert rest == sel + [0x3b] + code;
    SemicolonAfter(sel, code);
    assert rest[|sel| + 1..] == code;
    assert p[..3] == PREFIX;
    assert |code| >= 4;
    forall i | 0 <= i < |p|
      ensures p[i] != 7 && p[i] != 27
    {
      if i >= 3 + |sel| + 1 {
        assert p[i] == code[i - 3 - |sel| - 1];
        assert B64.Base64Byte(p[i]);
      } else if 3 <= i < 3 + |sel| {
        assert p[i] == sel[i - 3];
      }
    }
  }

  lemma {:induction false} ScanBody(s: Scan, body: seq<Event>)
    requires s.state == Osc && |s.payload| + |body| <= PAYLOAD_LIMIT
    requires forall i :: 0 <= i < |body| ==> body[i].b != 7 && body[i].b != 27
    ensures Fold(ScanByte, s, body) == s.(payload := s.payload + BytesOf(body), offset := s.offset + |body|)
    decreases |body|
  {
    if body == [] {
      assert s.payload + BytesOf(body) == s.payload;
    } else {
      var k := |body| - 1;
      ScanBody(s, body[..k]);
      assert BytesOf(body) == BytesOf(body[..k]) + [body[k].b];
      assert s.payload + BytesOf(body[..k]) + [body[k].b] == s.payload + BytesOf(body);
    }
  }

  function BytesOf(es: seq<Event>): (b: seq<Byte>)
    ensures |b| == |es|
  {
    seq(|es|, i requires 0 <= i < |es| => es[i].b)
  }

  /** Whose ESC decides whether a write starting now counts as replayed: its own, unless another ESC
      stands right before it, which is then taken for it. */
  function Mark(s: Scan, e: Event): bool {
    if s.state == SawEsc then s.replayed else e.historical
  }

  /** ESC ] opens a string. */
  lemma {:induction false} ScanHead(s: Scan, es: seq<Event>)
    requires Listening(s) && |es| == 2 && es[0].b == 27 && es[1].b == 0x5d
    ensures Fold(ScanByte, s, es) == s.(state := Osc, payload := [], replayed := Mark(s, es[0]), offset := s.offset + 2)
  {
    FoldOne(ScanByte, s, [], es[0]);
    assert es == [es[0]] + [es[1]];
    FoldOne(ScanByte, s, [es[0]], es[1]);
  }

  lemma {:induction false} ScanTail(s: Scan, es: seq<Event>, t: Terminator)
    requires s.state == Osc && BytesOf(es) == TerminatorBytes(t)
    ensures Fold(ScanByte, s, es) == Finish(s.(offset := s.offset + |es|)).(state := Idle)
  {
    hide ScanByte, Finish, Fold;
    assert es[0].b == BytesOf(es)[0];
    NoFold(s, es);
    assert es[..0] == [];
    assert [] + [es[0]] == [es[0]];
    FoldOne(ScanByte, s, [], es[0]);
    match t
    case ByBel =>
      assert es == [es[0]];
      StepBel(s, es[0]);
    case ByST =>
      assert es[1].b == BytesOf(es)[1];
      assert es == [es[0]] + [es[1]];
      FoldOne(ScanByte, s, [es[0]], es[1]);
      StepST(s, es[0], es[1]);
  }

  lemma StepBel(s: Scan, e: Event)
    requires s.state == Osc && e.b == 7
    ensures ScanByte(s, e) == Finish(s.(offset := s.offset + 1)).(state := Idle)
  {
    hide CopiedText, Switches;
  }

  lemma StepST(s: Scan, e: Event, f: Event)
    requires s.state == Osc && e.b == 27 && f.b == 0x5c
    ensures ScanByte(ScanByte(s, e), f) == Finish(s.(offset := s.offset + 2)).(state := Idle)
  {
    hide CopiedText, Switches;
  }

  lemma BytesSlice(es: seq<Event>, i: nat, j: nat)
    requires i <= j <= |es|
    ensures BytesOf(es[i..j]) == BytesOf(es)[i..j]
  {
  }

  /** A write begun while nothing else is being read is taken in whole. */
  lemma {:induction false} WriteTaken(s: Scan, es: seq<Event>, sel: seq<Byte>, text: seq<Byte>, t: Terminator)
    requires Listening(s) && GoodSelection(sel) && GoodText(text)
    requires BytesOf(es) == WriteOf(sel, text, t)
    ensures var r := Fold(ScanByte, s, es);
            && r.state == Idle && r.offset == s.offset + |es|
            && r.emitted == s.emitted + [Copied(text, s.offset + |es|, Mark(s, es[0]))]
  {
    hide CopiedText, Switches, ScanByte, Fold, BytesOf;
    PayloadRead(sel, text);
    hide Payload;
    var p := Payload(sel, text);
    WriteSplits(es, p, t);
    var n := |p| + 2;
    var head, body, last := es[..2], es[2..n], es[n..];
    ScanHead(s, head);
    var s2 := s.(state := Osc, payload := [], replayed := Mark(s, es[0]), offset := s.offset + 2);
    ScanBody(s2, body);
    assert s2.payload + p == p;
    var s3 := s2.(payload := p, offset := s.offset + n);
    ScanTail(s3, last, t);
    FoldConcat(ScanByte, s, head + body, last);
    FoldConcat(ScanByte, s, head, body);
  }

  /** The scanner is between strings, or has just seen an ESC there. */
  predicate Listening(s: Scan) {
    s.state == Idle || s.state == SawEsc
  }

  /** Nothing of the string begun is kept. */
  predicate Deaf(s: Scan, r: Scan, n: nat) {
    (r.state == Idle || r.state == Overlong) && r.emitted == s.emitted && r.offset == s.offset + n
  }

  /** Inside another sequence or string the ESC ends or extends that one, and `]` goes with it. */
  lemma {:induction false} HeadLost(s: Scan, es: seq<Event>)
    requires !Listening(s) && |es| == 2 && es[0].b == 27 && es[1].b == 0x5d
    ensures Deaf(s, Fold(ScanByte, s, es), 2)
  {
    hide PasteFields, CopiedText;
    FoldOne(ScanByte, s, [], es[0]);
    assert es == [es[0]] + [es[1]];
    FoldOne(ScanByte, s, [es[0]], es[1]);
  }

  lemma {:induction false} BodyLost(s: Scan, r: Scan, body: seq<Event>, n: nat)
    requires Deaf(s, r, n) && forall i :: 0 <= i < |body| ==> body[i].b != 7 && body[i].b != 27
    ensures Deaf(s, Fold(ScanByte, r, body), n + |body|)
    decreases |body|
  {
    if body != [] {
      BodyLost(s, r, body[..|body| - 1], n);
    }
  }

  lemma {:induction false} TailLost(s: Scan, r: Scan, es: seq<Event>, t: Terminator, n: nat)
    requires Deaf(s, r, n) && BytesOf(es) == TerminatorBytes(t)
    ensures Deaf(s, Fold(ScanByte, r, es), n + |es|) && Fold(ScanByte, r, es).state == Idle
  {
    hide Fold;
    assert es[0].b == BytesOf(es)[0];
    FoldOne(ScanByte, r, [], es[0]);
    match t
    case ByBel =>
      assert es == [es[0]];
    case ByST =>
      assert es[1].b == BytesOf(es)[1];
      assert es == [es[0]] + [es[1]];
      FoldOne(ScanByte, r, [es[0]], es[1]);
  }

  lemma {:induction false} WriteLost(s: Scan, es: seq<Event>, sel: seq<Byte>, text: seq<Byte>, t: Terminator)
    requires !Listening(s) && GoodSelection(sel) && GoodText(text)
    requires BytesOf(es) == WriteOf(sel, text, t)
    ensures var r := Fold(ScanByte, s, es);
            r.state == Idle && r.offset == s.offset + |es| && r.emitted == s.emitted
  {
    hide ScanByte, Fold, BytesOf;
    PayloadRead(sel, text);
    hide Payload;
    var p := Payload(sel, text);
    WriteSplits(es, p, t);
    var n := |p| + 2;
    var head, body, last := es[..2], es[2..n], es[n..];
    HeadLost(s, head);
    var r2 := Fold(ScanByte, s, head);
    BodyLost(s, r2, body, 2);
    var r3 := Fold(ScanByte, r2, body);
    TailLost(s, r3, last, t, n);
    FoldConcat(ScanByte, s, head + body, last);
    FoldConcat(ScanByte, s, head, body);
  }

  /** A write, its bytes historical or live in any mixture, from any position of the scanner: it is seen
      once, verbatim, at the offset just past it, counting as replayed if its ESC was (or an ESC standing
      right before that one), if the scanner is not inside another sequence or string at its ESC; inside
      one, nothing of it is seen. */
  lemma {:induction false} WriteIsSeen(s: Scan, es: seq<Event>, sel: seq<Byte>, text: seq<Byte>, t: Terminator)
    requires GoodSelection(sel) && GoodText(text) && BytesOf(es) == WriteOf(sel, text, t)
    ensures var r, copied := Fold(ScanByte, s, es), Copied(text, s.offset + |es|, Mark(s, es[0]));
            && r.state == Idle && r.offset == s.offset + |es|
            && r.emitted == s.emitted + (if Listening(s) then [copied] else [])
            && (r.emitted == s.emitted + [copied] <==> Listening(s))
  {
    hide Fold, ScanByte, BytesOf, WriteOf;
    if Listening(s) {
      WriteTaken(s, es, sel, text, t);
    } else {
      WriteLost(s, es, sel, text, t);
      assert s.emitted + [] == s.emitted;
    }
  }

  /** A colour sequence broken off by a write: the terminal drops the sequence and takes the write, the
      scanner takes the write's beginning for the end of the sequence. */
  lemma {:induction false} BrokenOffIsLost(es: seq<Event>, sel: seq<Byte>, text: seq<Byte>, t: Terminator)
    requires GoodSelection(sel) && GoodText(text) && BytesOf(es) == [27, 0x5b, 0x33] + WriteOf(sel, text, t)
    ensures Fold(ScanByte, Scan(Idle, [], false, 0, []), es).emitted == []
    ensures XP.Parse(XP.X_START, [27, 0x5b, 0x33] + [27, 0x5d]).state == XP.InString(XP.Osc)
  {
    StringBegun();
    hide WriteOf, XP.XStep;
    var s0 := Scan(Idle, [], false, 0, []);
    var head, rest := es[..3], es[3..];
    BytesSlice(es, 0, 3);
    BytesSlice(es, 3, |es|);
    assert es[3..|es|] == rest && BytesOf(head) == [27, 0x5b, 0x33] && BytesOf(rest) == WriteOf(sel, text, t);
    assert head[0].b == BytesOf(head)[0] && head[1].b == BytesOf(head)[1] && head[2].b == BytesOf(head)[2];
    FoldOne(ScanByte, s0, [], head[0]);
    FoldOne(ScanByte, s0, [head[0]], head[1]);
    FoldOne(ScanByte, s0, [head[0], head[1]], head[2]);
    assert head == [head[0]] + [head[1]] + [head[2]];
    var s := Fold(ScanByte, s0, head);
    assert s.state == Csi && s.emitted == [];
    WriteIsSeen(s, rest, sel, text, t);
    assert es == head + rest;
    FoldConcat(ScanByte, s0, head, rest);
  }

  lemma StringBegun()
    ensures XP.Parse(XP.X_START, [27, 0x5b, 0x33] + [27, 0x5d]).state == XP.InString(XP.Osc)
  {
    hide XP.XStep, Fold;
    var a, b, c, d: seq<nat> := [27], [27, 0x5b], [27, 0x5b, 0x33], [27, 0x5b, 0x33, 27];
    assert b == a + [0x5b] && c == b + [0x33] && d == c + [27] && [27, 0x5b, 0x33] + [27, 0x5d] == d + [0x5d];
    FoldOne(XP.XStep, XP.X_START, [], 27);
    FoldOne(XP.XStep, XP.X_START, a, 0x5b);
    FoldOne(XP.XStep, XP.X_START, b, 0x33);
    FoldOne(XP.XStep, XP.X_START, c, 27);
    FoldOne(XP.XStep, XP.X_START, d, 0x5d);
    XP.Introduced(XP.X_START);
    XP.ParamByte([], 0x33, []);
    EscapeAgain(XP.Parse(XP.X_START, c));
  }

  lemma EscapeAgain(x: XP.X)
    requires x.state == XP.CsiParam
    ensures XP.XStep(XP.XStep(x, 27), 0x5d).state == XP.InString(XP.Osc)
  {
  }

  /** The three parts of a write among the bytes of the stream. */
  lemma WriteSplits(es: seq<Event>, p: seq<Byte>, t: Terminator)
    requires BytesOf(es) == [27, 0x5d] + p + TerminatorBytes(t)
    ensures var n := |p| + 2;
            && n <= |es| && es == es[..2] + es[2..n] + es[n..]
            && es[0].b == 27 && es[1].b == 0x5d && BytesOf(es[2..n]) == p && BytesOf(es[n..]) == TerminatorBytes(t)
            && forall i :: 0 <= i < |p| ==> es[2..n][i].b == p[i]
  {
    var n, m, bytes := |p| + 2, |es|, BytesOf(es);
    BytesSlice(es, 2, n);
    BytesSlice(es, n, m);
    assert es[n..m] == es[n..];
    assert bytes[2..n] == p && bytes[n..m] == TerminatorBytes(t);
    assert es[0].b == bytes[0] && es[1].b == bytes[1];
    forall i | 0 <= i < |p|
      ensures es[2..n][i].b == p[i]
    {
      assert es[2..n][i].b == BytesOf(es[2..n])[i];
    }
  }

  lemma {:induction false} SequenceBody(s: Scan, body: seq<Event>)
    requires s.state == Csi && |s.payload| + |body| <= 64 && Unfinished(BytesOf(body))
    ensures Fold(ScanByte, s, body) == s.(payload := s.payload + BytesOf(body), offset := s.offset + |body|)
    decreases |body|
  {
    hide CopiedText, Switches;
    if body == [] {
      assert s.payload + BytesOf(body) == s.payload;
    } else {
      var k := |body| - 1;
      assert BytesOf(body) == BytesOf(body[..k]) + [body[k].b];
      assert Unfinished(BytesOf(body[..k])) && BytesOf(body)[k] == body[k].b by {
        assert forall i :: 0 <= i < k ==> BytesOf(body[..k])[i] == BytesOf(body)[i];
      }
      SequenceBody(s, body[..k]);
      assert s.payload + BytesOf(body[..k]) + [body[k].b] == s.payload + BytesOf(body);
    }
  }

  /** A control sequence of up to 64 bytes read from between sequences is told as its 2004 fields are. */
  lemma {:induction false} SequenceIsSeen(s: Scan, es: seq<Event>, p: seq<Byte>, final: Byte)
    requires Listening(s) && |p| <= 64 && Unfinished(p) && 0x40 <= final <= 0x7e
    requires BytesOf(es) == [27, 0x5b] + p + [final]
    ensures var r := Fold(ScanByte, s, es);
            r.state == Idle && r.offset == s.offset + |es| && r.emitted == s.emitted + Switches(p, final)
  {
    hide ScanByte, Fold, BytesOf, Switches, Unfinished;
    var n := |p| + 2;
    var head, body := es[..2], es[2..n];
    BytesSlice(es, 0, 2);
    BytesSlice(es, 2, n);
    assert |es| == n + 1 && es == head + body + [es[n]];
    assert BytesOf(es)[0..2] == [27, 0x5b] && BytesOf(es)[2..n] == p && BytesOf(es)[n] == final;
    EventBytes(es);
    CsiHead(s, head);
    var s2 := Fold(ScanByte, s, head);
    SequenceBody(s2, body);
    assert s2.payload + p == p;
    var s3 := Fold(ScanByte, s2, body);
    CsiEnd(s3, es[n]);
    FoldConcat(ScanByte, s, head, body);
    FoldOne(ScanByte, s, head + body, es[n]);
  }

  lemma EventBytes(es: seq<Event>)
    ensures forall i :: 0 <= i < |es| ==> es[i].b == BytesOf(es)[i]
  {
  }

  lemma {:induction false} CsiHead(s: Scan, es: seq<Event>)
    requires Listening(s) && |es| == 2 && es[0].b == 27 && es[1].b == 0x5b
    ensures var r := Fold(ScanByte, s, es);
            r.state == Csi && r.payload == [] && r.emitted == s.emitted && r.offset == s.offset + 2
  {
    FoldOne(ScanByte, s, [], es[0]);
    assert es == [es[0]] + [es[1]];
    FoldOne(ScanByte, s, [es[0]], es[1]);
  }

  lemma CsiEnd(s: Scan, e: Event)
    requires s.state == Csi && 0x40 <= e.b <= 0x7e
    ensures ScanByte(s, e) == s.(emitted := s.emitted + Switches(s.payload, e.b), offset := s.offset + 1, state := Idle, payload := [])
  {
    hide Switches, CopiedText;
  }

  // ---- and nothing else is ----

  /** `replayed` is what the first of the ESCs standing in a row up to `i` was. */
  ghost predicate MarkedAt(es: seq<Event>, i: nat, replayed: bool) {
    i < |es| && exists k: nat :: k <= i && RunOfEsc(es, k, i) && replayed == es[k].historical
  }

  ghost predicate RunOfEsc(es: seq<Event>, k: nat, i: nat) {
    k <= i < |es| && forall n :: k <= n <= i ==> es[n].b == 27
  }

  /** The bytes from `i` to `j` are one whole OSC string that writes the emission's text. */
  ghost predicate SentAt(es: seq<Event>, base: int, e: Emission, i: nat, j: nat) {
    && e.Copied? && i + 2 <= j <= |es| && e.offset == base + j && MarkedAt(es, i, e.replayed)
    && exists p, t :: BytesOf(es)[i..j] == [27, 0x5d] + p + TerminatorBytes(t) && CopiedText(p) == e.text != []
  }

  /** Before a control sequence's final byte. */
  ghost predicate Unfinished(p: seq<Byte>) {
    forall i :: 0 <= i < |p| ==> !(0x40 <= p[i] <= 0x7e)
  }

  /** The bytes from `i` to `j` are one private control sequence that sets or resets mode 2004, among others. */
  ghost predicate SwitchAt(es: seq<Event>, on: bool, i: nat, j: nat) {
    i <= j <= |es| && exists p :: BytesOf(es)[i..j] == [27, 0x5b] + p + [FinalOf(on)] && Unfinished(p) && Asks(p)
  }

  function FinalOf(on: bool): Byte {
    if on then 0x68 else 0x6c
  }

  predicate Asks(p: seq<Byte>) {
    |p| > 0 && p[0] == 0x3f && PasteFields(p[1..]) > 0
  }

  ghost predicate Sent(es: seq<Event>, base: int, e: Emission) {
    match e
    case Copied(_, _, _) => exists i: nat, j: nat :: SentAt(es, base, e, i, j)
    case PasteMode(on) => exists i: nat, j: nat :: SwitchAt(es, on, i, j)
  }

  /** The string being read is the tail of the stream, from its ESC on. */
  ghost predicate TailFrom(es: seq<Event>, bytes: seq<Byte>, replayed: bool) {
    exists i :: 0 <= i < |es| && BytesOf(es)[i..] == bytes && MarkedAt(es, i, replayed)
  }

  ghost predicate Reading(es: seq<Event>, s: Scan) {
    && (s.state == SawEsc ==> TailFrom(es, [27], s.replayed))
    && (s.state == Osc ==> TailFrom(es, [27, 0x5d] + s.payload, s.replayed))
    && (s.state == OscEsc ==> TailFrom(es, [27, 0x5d] + s.payload + [27], s.replayed))
    && (s.state == Csi ==> TailFrom(es, [27, 0x5b] + s.payload, s.replayed) && Unfinished(s.payload))
  }

  lemma MarkGrows(es: seq<Event>, e: Event, i: nat, replayed: bool)
    requires MarkedAt(es, i, replayed)
    ensures MarkedAt(es + [e], i, replayed)
  {
    var k: nat :| k <= i && RunOfEsc(es, k, i) && replayed == es[k].historical;
    assert RunOfEsc(es + [e], k, i);
  }

  lemma TailGrows(es: seq<Event>, e: Event, bytes: seq<Byte>, replayed: bool)
    requires TailFrom(es, bytes, replayed)
    ensures TailFrom(es + [e], bytes + [e.b], replayed)
  {
    hide MarkedAt;
    var i :| 0 <= i < |es| && BytesOf(es)[i..] == bytes && MarkedAt(es, i, replayed);
    LastByte(es, e);
    MarkGrows(es, e, i, replayed);
    hide BytesOf;
    var b := BytesOf(es);
    assert (b + [e.b])[i..] == b[i..] + [e.b];
  }

  lemma TailStarts(es: seq<Event>, e: Event)
    requires e.b == 27
    ensures TailFrom(es + [e], [27], e.historical)
  {
    var i := |es|;
    assert BytesOf(es + [e])[i..] == [e.b] && (es + [e])[i] == e;
    assert RunOfEsc(es + [e], i, i);
  }

  /** A second ESC in a row keeps the first one's mark. */
  lemma TailRestarts(es: seq<Event>, e: Event, replayed: bool)
    requires e.b == 27 && TailFrom(es, [27], replayed)
    ensures TailFrom(es + [e], [27], replayed)
  {
    hide RunOfEsc;
    var i :| 0 <= i < |es| && BytesOf(es)[i..] == [27] && MarkedAt(es, i, replayed);
    assert |BytesOf(es)[i..]| == 1;
    var k: nat :| k <= i && RunOfEsc(es, k, i) && replayed == es[k].historical;
    RunGrows(es, e, k);
    var all := es + [e];
    assert all[k] == es[k];
    LastByte(es, e);
  }

  lemma RunGrows(es: seq<Event>, e: Event, k: nat)
    requires es != [] && RunOfEsc(es, k, |es| - 1) && e.b == 27
    ensures RunOfEsc(es + [e], k, |es|)
  {
  }

  lemma LastByte(es: seq<Event>, e: Event)
    ensures BytesOf(es + [e]) == BytesOf(es) + [e.b] && BytesOf(es + [e])[|es|..] == [e.b]
  {
  }

  lemma SentGrows(es: seq<Event>, e: Event, base: int, m: Emission)
    requires Sent(es, base, m)
    ensures Sent(es + [e], base, m)
  {
    hide SentAt, SwitchAt;
    if m.Copied? {
      var i: nat, j: nat :| SentAt(es, base, m, i, j);
      SentAtGrows(es, e, base, m, i, j);
    } else {
      var i: nat, j: nat :| SwitchAt(es, m.on, i, j);
      SwitchAtGrows(es, e, m.on, i, j);
    }
  }

  lemma SwitchAtGrows(es: seq<Event>, e: Event, on: bool, i: nat, j: nat)
    requires SwitchAt(es, on, i, j)
    ensures SwitchAt(es + [e], on, i, j)
  {
    hide Asks, Unfinished, FinalOf;
    LastByte(es, e);
    assert BytesOf(es + [e])[i..j] == BytesOf(es)[i..j];
  }

  lemma SentAtGrows(es: seq<Event>, e: Event, base: int, m: Emission, i: nat, j: nat)
    requires SentAt(es, base, m, i, j)
    ensures SentAt(es + [e], base, m, i, j)
  {
    hide CopiedText, MarkedAt;
    LastByte(es, e);
    assert BytesOf(es + [e])[i..j] == BytesOf(es)[i..j];
    MarkGrows(es, e, i, m.replayed);
  }

  /** A string just finished is a write that was sent. */
  lemma TailSent(es: seq<Event>, base: int, p: seq<Byte>, t: Terminator, replayed: bool)
    requires TailFrom(es, [27, 0x5d] + p + TerminatorBytes(t), replayed) && CopiedText(p) != []
    ensures Sent(es, base, Copied(CopiedText(p), base + |es|, replayed))
  {
    hide CopiedText;
    var i :| 0 <= i < |es| && BytesOf(es)[i..] == [27, 0x5d] + p + TerminatorBytes(t) && MarkedAt(es, i, replayed);
    assert BytesOf(es)[i..|es|] == BytesOf(es)[i..];
    assert |BytesOf(es)[i..]| >= 2;
    assert SentAt(es, base, Copied(CopiedText(p), base + |es|, replayed), i, |es|);
  }

  /** Writes are told in order, each at its own offset. */
  ghost predicate InOrder(ms: seq<Emission>, end: int) {
    && (forall i :: 0 <= i < |ms| && ms[i].Copied? ==> ms[i].offset <= end)
    && (forall i, j :: 0 <= i < j < |ms| && ms[i].Copied? && ms[j].Copied? ==> ms[i].offset < ms[j].offset)
  }

  lemma OneMore(es: seq<Event>, e: Event, s: Scan, base: int)
    requires Reading(es, s) && s.offset == base + |es| && InOrder(s.emitted, s.offset)
    requires forall i :: 0 <= i < |s.emitted| ==> Sent(es, base, s.emitted[i])
    ensures var r := ScanByte(s, e);
            && Reading(es + [e], r) && r.offset == base + |es| + 1 && InOrder(r.emitted, r.offset)
            && forall i :: 0 <= i < |r.emitted| ==> Sent(es + [e], base, r.emitted[i])
  {
    hide CopiedText, PasteFields, TailFrom, Sent, BytesOf, Switches;
    var r := ScanByte(s, e);
    forall i | 0 <= i < |s.emitted|
      ensures Sent(es + [e], base, s.emitted[i])
    {
      SentGrows(es, e, base, s.emitted[i]);
    }
    match s.state
    case Idle =>
      if e.b == 27 {
        TailStarts(es, e);
      }
    case SawEsc =>
      TailGrows(es, e, [27], s.replayed);
      assert [27] + [e.b] == [27, e.b] && [27, 0x5d] + [] == [27, 0x5d] && [27, 0x5b] + [] == [27, 0x5b];
      if e.b == 27 {
        TailRestarts(es, e, s.replayed);
      }
    case Osc =>
      TailGrows(es, e, [27, 0x5d] + s.payload, s.replayed);
      assert [27, 0x5d] + s.payload + [e.b] == [27, 0x5d] + (s.payload + [e.b]);
      if e.b == 7 && CopiedText(s.payload) != [] {
        TailSent(es + [e], base, s.payload, ByBel, s.replayed);
      }
    case OscEsc =>
      TailGrows(es, e, [27, 0x5d] + s.payload + [27], s.replayed);
      assert [27, 0x5d] + s.payload + [27] + [0x5c] == [27, 0x5d] + s.payload + [27, 0x5c];
      if e.b == 0x5c && CopiedText(s.payload) != [] {
        TailSent(es + [e], base, s.payload, ByST, s.replayed);
      }
    case Csi =>
      TailGrows(es, e, [27, 0x5b] + s.payload, s.replayed);
      assert [27, 0x5b] + s.payload + [e.b] == [27, 0x5b] + (s.payload + [e.b]);
      if 0x40 <= e.b <= 0x7e {
        SwitchSent(es + [e], base, s.payload, e.b, s.replayed);
      }
    case _ =>
  }

  /** A sequence just finished is the switch that was asked for. */
  lemma SwitchSent(es: seq<Event>, base: int, p: seq<Byte>, final: Byte, replayed: bool)
    requires TailFrom(es, [27, 0x5b] + p + [final], replayed) && Unfinished(p)
    ensures forall i :: 0 <= i < |Switches(p, final)| ==>
              !Switches(p, final)[i].Copied? && Sent(es, base, Switches(p, final)[i])
  {
    hide PasteFields, Unfinished;
    var k :| 0 <= k < |es| && BytesOf(es)[k..] == [27, 0x5b] + p + [final] && MarkedAt(es, k, replayed);
    assert BytesOf(es)[k..|es|] == BytesOf(es)[k..];
    if Switches(p, final) != [] {
      var on := final == 0x68;
      assert Asks(p) && FinalOf(on) == final;
      assert SwitchAt(es, on, k, |es|);
      assert Sent(es, base, PasteMode(on));
    }
  }

  /** The whole run: every write and every switch emitted was sent; writes once each and in order,
      whatever came before and between. */
  lemma {:induction false} AllSent(es: seq<Event>, base: int)
    ensures var r := Fold(ScanByte, Scan(Idle, [], false, base, []), es);
            && Reading(es, r) && r.offset == base + |es| && InOrder(r.emitted, r.offset)
            && forall i :: 0 <= i < |r.emitted| ==> Sent(es, base, r.emitted[i])
    decreases |es|
  {
    hide Reading, ScanByte, Sent, InOrder;
    var s0 := Scan(Idle, [], false, base, []);
    if es == [] {
      NothingYet(base);
    } else {
      var k := |es| - 1;
      AllSent(es[..k], base);
      OneMore(es[..k], es[k], Fold(ScanByte, s0, es[..k]), base);
      assert es[..k] + [es[k]] == es;
    }
  }

  lemma NothingYet(base: int)
    ensures Reading([], Scan(Idle, [], false, base, [])) && InOrder([], base)
  {
  }

  // ---- well-formed text is what the encoding of code points gives ----

  lemma CharLenOf(r: UTF.Scalar, rest: seq<Byte>)
    ensures CharLen(UTF.Encode(r) + rest) == |UTF.Encode(r)|
  {
  }

  lemma {:induction false} ValidMore(a: seq<Byte>, b: seq<Byte>)
    requires ValidText(a) && ValidText(b)
    ensures ValidText(a + b)
    decreases |a|
  {
    if a == [] {
      assert a + b == b;
    } else {
      var n := CharLen(a);
      CharLenKeeps(a, b);
      assert (a + b)[n..] == a[n..] + b;
      ValidMore(a[n..], b);
    }
  }

  lemma CharLenKeeps(a: seq<Byte>, b: seq<Byte>)
    requires CharLen(a) > 0
    ensures CharLen(a + b) == CharLen(a)
  {
  }

  /** The code points of characters of two, three and four bytes. */
  function Two(x: int, y: int): int {
    x % 32 * 64 + y % 64
  }

  function Three(x: int, y: int, z: int): int {
    x % 16 * 4096 + y % 64 * 64 + z % 64
  }

  function Four(x: int, y: int, z: int, w: int): int {
    x % 8 * 262144 + y % 64 * 4096 + z % 64 * 64 + w % 64
  }

  lemma TwoBack(x: Byte, y: Byte)
    requires 0xc2 <= x <= 0xdf && 0x80 <= y <= 0xbf
    ensures 0x80 <= Two(x, y) < 0x800 && UTF.Encode(Two(x, y)) == [x, y]
  {
  }

  lemma ThreeBack(x: Byte, y: Byte, z: Byte)
    requires 0xe0 <= x <= 0xef && 0x80 <= y <= 0xbf && 0x80 <= z <= 0xbf
    requires x == 0xe0 ==> y >= 0xa0
    requires x == 0xed ==> y <= 0x9f
    ensures 0x800 <= Three(x, y, z) < 0x10000 && !(0xd800 <= Three(x, y, z) <= 0xdfff)
    ensures UTF.Encode(Three(x, y, z)) == [x, y, z]
  {
    var r, a, b, c := Three(x, y, z), x - 0xe0, y - 0x80, z - 0x80;
    assert x % 16 == a && y % 64 == b && z % 64 == c;
    assert r == a * 4096 + b * 64 + c;
    assert r / 4096 == a && r / 64 == a * 64 + b && r % 64 == c;
    assert (a * 64 + b) % 64 == b;
  }

  lemma FourBack(x: Byte, y: Byte, z: Byte, w: Byte)
    requires 0xf0 <= x <= 0xf4 && 0x80 <= y <= 0xbf && 0x80 <= z <= 0xbf && 0x80 <= w <= 0xbf
    requires x == 0xf0 ==> y >= 0x90
    requires x == 0xf4 ==> y <= 0x8f
    ensures 0x10000 <= Four(x, y, z, w) <= 0x10ffff
    ensures UTF.Encode(Four(x, y, z, w)) == [x, y, z, w]
  {
    hide Four;
    FourIs(x, y, z, w);
    FourDigits(x - 0xf0, y - 0x80, z - 0x80, w - 0x80);
  }

  lemma FourIs(x: Byte, y: Byte, z: Byte, w: Byte)
    requires 0xf0 <= x <= 0xf4 && 0x80 <= y <= 0xbf && 0x80 <= z <= 0xbf && 0x80 <= w <= 0xbf
    ensures Four(x, y, z, w) == (x - 0xf0) * 262144 + (y - 0x80) * 4096 + (z - 0x80) * 64 + (w - 0x80)
  {
  }

  lemma FourDigits(a: nat, b: nat, c: nat, d: nat)
    requires a <= 4 && b < 64 && c < 64 && d < 64
    ensures var r := a * 262144 + b * 4096 + c * 64 + d;
            r / 262144 == a && r / 4096 % 64 == b && r / 64 % 64 == c && r % 64 == d
  {
    var top := a * 64 + b;
    var mid := top * 64 + c;
    var r := mid * 64 + d;
    Digit(mid, d);
    Digit(top, c);
    Digit(a, b);
    DigitTwo(top, c * 64 + d);
    DigitThree(a, b * 4096 + c * 64 + d);
    assert r == a * 262144 + b * 4096 + c * 64 + d == top * 4096 + (c * 64 + d);
  }

  lemma Digit(q: nat, d: nat)
    requires d < 64
    ensures (q * 64 + d) / 64 == q && (q * 64 + d) % 64 == d
  {
  }

  lemma DigitTwo(q: nat, d: nat)
    requires d < 4096
    ensures (q * 4096 + d) / 4096 == q
  {
  }

  lemma DigitThree(q: nat, d: nat)
    requires d < 262144
    ensures (q * 262144 + d) / 262144 == q
  {
  }

  /** The character at the front is the encoding of a code point. */
  lemma FrontBack(b: seq<Byte>) returns (r: UTF.Scalar)
    requires CharLen(b) > 0
    ensures UTF.Encode(r) == b[..CharLen(b)]
  {
    var n := CharLen(b);
    if n == 1 {
      r := b[0];
    } else if n == 2 {
      TwoBack(b[0], b[1]);
      r := Two(b[0], b[1]);
    } else if n == 3 {
      ThreeBack(b[0], b[1], b[2]);
      r := Three(b[0], b[1], b[2]);
      hide UTF.Encode, Three;
    } else {
      FourBack(b[0], b[1], b[2], b[3]);
      r := Four(b[0], b[1], b[2], b[3]);
      hide UTF.Encode, Four;
    }
  }

  lemma {:induction false} EncodeFront(r: UTF.Scalar, rs: seq<UTF.Scalar>)
    ensures UTF.EncodeAll([r] + rs) == UTF.Encode(r) + UTF.EncodeAll(rs)
    decreases |rs|
  {
    hide UTF.Encode;
    var all := [r] + rs;
    if rs == [] {
      assert all == [r] && all[..0] == [];
    } else {
      var k := |rs| - 1;
      EncodeFront(r, rs[..k]);
      assert all[..|all| - 1] == [r] + rs[..k];
    }
  }

  lemma {:induction false} TextOf(b: seq<Byte>) returns (rs: seq<UTF.Scalar>)
    requires ValidText(b)
    ensures UTF.EncodeAll(rs) == b
    decreases |b|
  {
    hide UTF.Encode, CharLen;
    rs := [];
    if b != [] {
      var n := CharLen(b);
      var r := FrontBack(b);
      var rest := TextOf(b[n..]);
      rs := [r] + rest;
      EncodeFront(r, rest);
      assert b[..n] + b[n..] == b;
    }
  }

  lemma {:induction false} TextValid(rs: seq<UTF.Scalar>)
    ensures ValidText(UTF.EncodeAll(rs))
    decreases |rs|
  {
    hide UTF.Encode;
    if rs != [] {
      var k := |rs| - 1;
      TextValid(rs[..k]);
      CharLenOf(rs[k], []);
      var e := UTF.Encode(rs[k]);
      assert e + [] == e && e[|e|..] == [];
      assert ValidText(e) by { EncodeNonEmpty(rs[k]); }
      ValidMore(UTF.EncodeAll(rs[..k]), e);
    }
  }

  lemma EncodeNonEmpty(r: UTF.Scalar)
    ensures |UTF.Encode(r)| > 0
  {
  }

  /** The byte-level test accepts exactly the encodings of code points. */
  lemma {:induction false} ValidTextIff(b: seq<Byte>)
    ensures ValidText(b) <==> exists rs: seq<UTF.Scalar> :: UTF.EncodeAll(rs) == b
  {
    if ValidText(b) {
      var rs := TextOf(b);
    }
    forall rs: seq<UTF.Scalar> | UTF.EncodeAll(rs) == b
      ensures ValidText(b)
    {
      TextValid(rs);
    }
  }

  // ---- what a string must be to write ----

  /** `52;`, a selection, a semicolon and the base64 of the text, which is not a query, is not empty, is at most
      4 MiB and encodes code points. */
  ghost predicate Writes(payload: seq<Byte>, sel: seq<Byte>, data: seq<Byte>, text: seq<Byte>) {
    && payload == [0x35, 0x32, 0x3b] + sel + [0x3b] + data
    && (forall i :: 0 <= i < |sel| ==> sel[i] in [0x63, 0x70, 0x73, 0x30, 0x31, 0x32, 0x33, 0x34, 0x35, 0x36, 0x37])
    && data != [0x3f] && B64.Decode(data) == B64.Bytes(text)
    && 0 < |text| <= 4 * 1024 * 1024
    && exists rs: seq<UTF.Scalar> :: UTF.EncodeAll(rs) == text
  }

  lemma SemicolonAt(s: seq<Byte>, n: nat)
    requires n < |s| && s[n] == 0x3b && forall i :: 0 <= i < n ==> s[i] != 0x3b
    ensures Semicolon(s) == n
  {
  }

  predicate Selects(sel: seq<Byte>) {
    forall i :: 0 <= i < |sel| ==> SelectionByte(sel[i])
  }

  lemma SelectionOf(sel: seq<Byte>)
    ensures Selects(sel) <==>
              forall i :: 0 <= i < |sel| ==> sel[i] in [0x63, 0x70, 0x73, 0x30, 0x31, 0x32, 0x33, 0x34, 0x35, 0x36, 0x37]
  {
    forall i | 0 <= i < |sel|
      ensures SelectionByte(sel[i]) <==> sel[i] in [0x63, 0x70, 0x73, 0x30, 0x31, 0x32, 0x33, 0x34, 0x35, 0x36, 0x37]
    {
    }
  }

  /** What is made of the data of a write. */
  function TextOfData(data: seq<Byte>): seq<Byte> {
    match B64.Decode(data)
    case Failed => NOTHING_COPIED
    case Bytes(raw) => if |raw| > MAX_BYTES || !ValidText(raw) then NOTHING_COPIED else raw
  }

  lemma CopiedOf(sel: seq<Byte>, data: seq<Byte>)
    requires forall i :: 0 <= i < |sel| ==> sel[i] != 0x3b
    ensures CopiedText(PREFIX + (sel + [0x3b] + data)) == if data == [0x3f] || !Selects(sel) then NOTHING_COPIED else TextOfData(data)
  {
    hide ValidText, B64.Decode, SelectionByte;
    var rest := sel + [0x3b] + data;
    var payload := PREFIX + rest;
    assert payload[..3] == PREFIX && payload[3..] == rest;
    SemicolonAt(rest, |sel|);
    assert rest[|sel| + 1..] == data;
    assert forall i :: 0 <= i < |sel| ==> rest[i] == sel[i];
  }

  lemma PartsOf(payload: seq<Byte>) returns (sel: seq<Byte>, data: seq<Byte>)
    requires CopiedText(payload) != []
    ensures payload == PREFIX + (sel + [0x3b] + data) == [0x35, 0x32, 0x3b] + sel + [0x3b] + data
    ensures forall i :: 0 <= i < |sel| ==> sel[i] != 0x3b
  {
    hide ValidText, B64.Decode, SelectionByte;
    var rest := payload[3..];
    var n := Semicolon(rest);
    sel, data := rest[..n], rest[n + 1..];
    assert rest == sel + [0x3b] + data;
    assert payload == PREFIX + rest;
  }

  lemma CopiedWrites(payload: seq<Byte>) returns (sel: seq<Byte>, data: seq<Byte>)
    requires CopiedText(payload) != []
    ensures Writes(payload, sel, data, CopiedText(payload))
  {
    hide ValidText, B64.Decode, SelectionByte, CopiedText;
    sel, data := PartsOf(payload);
    CopiedOf(sel, data);
    SelectionOf(sel);
    ValidTextIff(CopiedText(payload));
  }

  lemma WritesCopied(payload: seq<Byte>, sel: seq<Byte>, data: seq<Byte>, text: seq<Byte>)
    requires Writes(payload, sel, data, text)
    ensures CopiedText(payload) == text
  {
    hide ValidText, B64.Decode, CopiedText, SelectionByte;
    SelectionOf(sel);
    var whole := PREFIX + (sel + [0x3b] + data);
    assert payload == whole;
    CopiedOf(sel, data);
    var rs: seq<UTF.Scalar> :| UTF.EncodeAll(rs) == text;
    TextValid(rs);
  }

  /** An OSC string writes a text exactly when it is of that form; any other writes nothing. */
  lemma CopiedTextIff(payload: seq<Byte>, text: seq<Byte>)
    requires text != []
    ensures CopiedText(payload) == text <==> exists sel: seq<Byte>, data: seq<Byte> :: Writes(payload, sel, data, text)
  {
    hide Writes, CopiedText;
    if CopiedText(payload) == text {
      var sel, data := CopiedWrites(payload);
    }
    forall sel: seq<Byte>, data: seq<Byte> | Writes(payload, sel, data, text)
      ensures CopiedText(payload) == text
    {
      WritesCopied(payload, sel, data, text);
    }
  }
}
