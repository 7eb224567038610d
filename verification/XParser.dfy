/** The browser's decoder and parser, read off muxd/vt_parse.go byte by byte, and what the tracker's
    answers are worth against them. */
module XParser {
  import opened Common
  import opened Folds
  import opened Boundary

  datatype DcsPhase = Entry | Param | Inter | Ignore | Pass

  datatype Kind = Osc | Dcs(phase: DcsPhase) | Other

  datatype XState = Idle | Esc | EscInter | CsiEntry | CsiParam | CsiInter | CsiIgnore | InString(kind: Kind)

  /** What the parser hands on: text, controls, and sequences read to their end. */
  datatype Action = Text(r: nat) | Control(r: nat) | EscSeq(inter: seq<nat>, final: nat)
                  | CsiSeq(params: seq<nat>, inter: seq<nat>, final: nat)

  datatype X = X(state: XState, inter: seq<nat>, params: seq<nat>, log: seq<Action>)

  const BYTE_ORDER_MARK := 0xfeff

  const X_START := X(Idle, [], [], [])

  function ToIdle(x: X): X {
    X(Idle, [], [], x.log)
  }

  function Log(x: X, a: Action): X {
    x.(log := x.log + [a])
  }

  function Begin(x: X, s: XState): X {
    X(s, [], [], x.log)
  }

  predicate Introducer(r: nat) {
    r in [0x90, 0x98, 0x9b, 0x9d, 0x9e, 0x9f]
  }

  function IdleStep(x: X, r: nat): X {
    if r == 0x1b then Begin(x, Esc)
    else if r == 0x7f || r == 0x9c then x
    else if r == 0x9b then Begin(x, CsiEntry)
    else if r == 0x9d then Begin(x, InString(Osc))
    else if r == 0x90 then Begin(x, InString(Dcs(Entry)))
    else if r in [0x98, 0x9e, 0x9f] then Begin(x, InString(Other))
    else if r < 0x20 || 0x80 <= r < 0xa0 then Log(x, Control(r))
    else Log(x, Text(r))
  }

  /** An ASCII byte inside an escape or control sequence. */
  function SeqByte(x: X, b: nat): X {
    match x.state
    case Esc =>
      if b <= 0x2f then x.(state := EscInter, inter := x.inter + [b])
      else if b == 0x5b then x.(state := CsiEntry)
      else if b == 0x5d then Begin(x, InString(Osc))
      else if b == 0x50 then Begin(x, InString(Dcs(Entry)))
      else if b in [0x58, 0x5e, 0x5f] then Begin(x, InString(Other))
      else ToIdle(Log(x, EscSeq([], b)))
    case EscInter =>
      if b <= 0x2f then x.(inter := x.inter + [b]) else ToIdle(Log(x, EscSeq(x.inter, b)))
    case CsiEntry =>
      if b <= 0x2f then x.(state := CsiInter, inter := x.inter + [b])
      else if b <= 0x3f then x.(state := CsiParam, params := x.params + [b])
      else ToIdle(Log(x, CsiSeq(x.params, x.inter, b)))
    case CsiParam =>
      if b <= 0x2f then x.(state := CsiInter, inter := x.inter + [b])
      else if b <= 0x3b then x.(params := x.params + [b])
      else if b <= 0x3f then x.(state := CsiIgnore)
      else ToIdle(Log(x, CsiSeq(x.params, x.inter, b)))
    case CsiInter =>
      if b <= 0x2f then x.(inter := x.inter + [b])
      else if b <= 0x3f then x.(state := CsiIgnore)
      else ToIdle(Log(x, CsiSeq(x.params, x.inter, b)))
    case _ => if b >= 0x40 then ToIdle(x) else x
  }

  function SeqStep(x: X, r: nat): X {
    if r >= 0xa0 then (if x.state == CsiIgnore then x else ToIdle(x))
    else if Introducer(r) || r == 0x9c || r == 0x1b then IdleStep(ToIdle(x), r)
    else if r >= 0x80 || r == 0x18 || r == 0x1a then ToIdle(Log(x, Control(r)))
    else if r < 0x20 then Log(x, Control(r))
    else if r == 0x7f then x
    else SeqByte(x, r)
  }

  function NextPhase(p: DcsPhase, b: nat): DcsPhase {
    match p
    case Entry => if b <= 0x2f then Inter else if b <= 0x3f then Param else Pass
    case Param => if b <= 0x2f then Inter else if b <= 0x3b then Param else if b <= 0x3f then Ignore else Pass
    case Inter => if b <= 0x2f then Inter else if b <= 0x3f then Ignore else Pass
    case _ => p
  }

  function StringStep(x: X, k: Kind, r: nat): X {
    if r == 0x1b || Introducer(r) then IdleStep(ToIdle(x), r)
    else if r == 0x18 || r == 0x1a || r == 0x9c || (r == 7 && k == Osc) then ToIdle(x)
    else if r < 0x20 || r == 0x7f then x
    else if r < 0x80 then (if k.Dcs? then x.(state := InString(Dcs(NextPhase(k.phase, r)))) else x)
    else if r < 0xa0 then ToIdle(Log(x, Control(r)))
    else if k == Osc || k == Dcs(Pass) || k == Dcs(Ignore) then x
    else ToIdle(x)
  }

  /** One code point. */
  function XStep(x: X, r: nat): X {
    match x.state
      case Idle => IdleStep(x, r)
      case InString(k) => StringStep(x, k, r)
      case _ => SeqStep(x, r)
  }

  function Parse(x: X, rs: seq<nat>): X {
    Fold(XStep, x, rs)
  }

  // ---- from bytes to code points ----

  /** Bytes of a character read so far: how many are owed, how many it has, and their bits. */
  datatype Dec = Dec(need: nat, len: nat, cp: nat)

  const NO_CHAR := Dec(0, 0, 0)

  /** What one byte completes: nothing, a code point, or one that is dropped. */
  datatype Seen = Nothing | Point(r: nat) | Dropped(r: nat)

  /** Overlong forms, surrogates, values past U+10FFFF and the byte-order mark never reach the parser. */
  predicate Drops(len: nat, r: nat) {
    || (len == 3 && (r < 0x800 || 0xd800 <= r <= 0xdfff || r == BYTE_ORDER_MARK))
    || (len == 4 && (r < 0x1_0000 || r > 0x10_ffff))
  }

  predicate Continuation(c: Byte) {
    0x80 <= c < 0xc0
  }

  /** A byte that continues no character; leads of characters that are always dropped are dropped at once. */
  function LeadOf(c: Byte): (Dec, Seen) {
    if c < 0x80 then (NO_CHAR, Point(c))
    else if 0xc2 <= c <= 0xdf then (Dec(1, 2, c % 32), Nothing)
    else if 0xe0 <= c <= 0xef then (Dec(2, 3, c % 16), Nothing)
    else if 0xf0 <= c <= 0xf4 then (Dec(3, 4, c % 8), Nothing)
    else (NO_CHAR, Nothing)
  }

  /** Six more bits. */
  function Bits(high: nat, c: nat): nat {
    high * 64 + c % 64
  }

  function DecByte(d: Dec, c: Byte): (Dec, Seen) {
    if d.need > 0 && Continuation(c) then
      var r := Bits(d.cp, c);
      if d.need > 1 then (Dec(d.need - 1, d.len, r), Nothing)
      else (NO_CHAR, if Drops(d.len, r) then Dropped(r) else Point(r))
    else LeadOf(c)
  }

  /** The browser's terminal as far as reading goes: its parser, behind its decoder. */
  datatype Browser = Browser(x: X, dec: Dec)

  const START := Browser(X_START, NO_CHAR)

  function Receive(w: Browser, c: Byte): Browser {
    var (dec, seen) := DecByte(w.dec, c);
    Browser(if seen.Point? then XStep(w.x, seen.r) else w.x, dec)
  }

  function ReceiveAll(w: Browser, b: seq<Byte>): Browser {
    Fold(Receive, w, b)
  }

  // ---- the decoder as the terminal model has it: from a whole buffer ----

  datatype Read = Rune(r: nat, n: nat) | Skip(n: nat) | More

  predicate Follows(b: seq<Byte>, i: nat) {
    i < |b| && Continuation(b[i])
  }

  /** The code point at the front of a buffer, or how many bytes mean nothing there. */
  function DecodeXterm(b: seq<Byte>): (r: Read)
    requires b != []
    ensures r.Rune? || r.Skip? ==> 1 <= r.n <= |b|
  {
    var b0 := b[0];
    if b0 < 0x80 then Rune(b0, 1)
    else if 0xc0 <= b0 < 0xe0 then
      if |b| < 2 then More
      else if !Follows(b, 1) then Skip(1)
      else
        var r := Bits(b0 % 32, b[1]);
        if r < 0x80 then Skip(1) else Rune(r, 2)
    else if 0xe0 <= b0 < 0xf0 then
      if |b| < 2 then More
      else if !Follows(b, 1) then Skip(1)
      else if |b| < 3 then More
      else if !Follows(b, 2) then Skip(2)
      else
        var r := Bits(Bits(b0 % 16, b[1]), b[2]);
        if Drops(3, r) then Skip(3) else Rune(r, 3)
    else if 0xf0 <= b0 < 0xf8 then
      if |b| < 2 then More
      else if !Follows(b, 1) then Skip(1)
      else if |b| < 3 then More
      else if !Follows(b, 2) then Skip(2)
      else if |b| < 4 then More
      else if !Follows(b, 3) then Skip(3)
      else
        var r := Bits(Bits(Bits(b0 % 8, b[1]), b[2]), b[3]);
        if Drops(4, r) then Skip(4) else Rune(r, 4)
    else Skip(1)
  }

  /** The code points of a buffer; what it ends in the middle of is held. */
  function DecodeAll(b: seq<Byte>): seq<nat>
    decreases |b|
  {
    if b == [] then []
    else match DecodeXterm(b)
      case Rune(r, n) => [r] + DecodeAll(b[n..])
      case Skip(n) => DecodeAll(b[n..])
      case More => []
  }

  datatype Reading = Reading(dec: Dec, points: seq<nat>)

  function ReadByte(s: Reading, c: Byte): Reading {
    var (dec, seen) := DecByte(s.dec, c);
    Reading(dec, if seen.Point? then s.points + [seen.r] else s.points)
  }

  lemma ReadFront(s: Reading, b: seq<Byte>)
    requires b != []
    ensures Fold(ReadByte, s, b) == Fold(ReadByte, ReadByte(s, b[0]), b[1..])
  {
    assert b == [b[0]] + b[1..];
    FoldConcat(ReadByte, s, [b[0]], b[1..]);
    FoldOne(ReadByte, s, [], b[0]);
  }

  /** A character cut off, or not begun, leaves nothing behind that the next one would not replace. */
  lemma Abandoned(s: Reading, t: Reading, b: seq<Byte>)
    requires s.points == t.points && b != [] && !Continuation(b[0])
    ensures Fold(ReadByte, s, b) == Fold(ReadByte, t, b)
  {
    ReadFront(s, b);
    ReadFront(t, b);
  }

  lemma NothingRead(s: Reading)
    ensures Fold(ReadByte, s, []) == s
  {
  }

  /** One turn of the whole-buffer decoder, byte by byte. */
  lemma {:induction false} ReadsOne(b: seq<Byte>, points: seq<nat>)
    requires b != []
    ensures var s := Reading(NO_CHAR, points);
            match DecodeXterm(b)
            case Rune(r, n) => Fold(ReadByte, s, b) == Fold(ReadByte, Reading(NO_CHAR, points + [r]), b[n..])
            case Skip(n) => Fold(ReadByte, s, b) == Fold(ReadByte, s, b[n..])
            case More => Fold(ReadByte, s, b).points == points
  {
    hide Fold;
    var s := Reading(NO_CHAR, points);
    ReadFront(s, b);
    var s1 := ReadByte(s, b[0]);
    if b[0] < 0x80 {
    } else if |b| == 1 {
      assert b[1..] == [];
      NothingRead(s1);
    } else if !Continuation(b[1]) {
      Abandoned(s1, s, b[1..]);
    } else {
      ReadsTwo(b, points, s1);
    }
  }

  lemma {:induction false} ReadsTwo(b: seq<Byte>, points: seq<nat>, s1: Reading)
    requires |b| > 1 && b[0] >= 0x80 && Continuation(b[1]) && s1 == ReadByte(Reading(NO_CHAR, points), b[0])
    ensures var s := Reading(NO_CHAR, points);
            match DecodeXterm(b)
            case Rune(r, n) => Fold(ReadByte, s1, b[1..]) == Fold(ReadByte, Reading(NO_CHAR, points + [r]), b[n..])
            case Skip(n) => Fold(ReadByte, s1, b[1..]) == Fold(ReadByte, s, b[n..])
            case More => Fold(ReadByte, s1, b[1..]).points == points
  {
    hide Fold;
    var s := Reading(NO_CHAR, points);
    ReadFront(s1, b[1..]);
    assert b[1..][1..] == b[2..];
    var s2 := ReadByte(s1, b[1]);
    if 0xe0 <= b[0] < 0xf8 {
      if |b| == 2 {
        assert b[2..] == [];
        NothingRead(s2);
      } else if !Continuation(b[2]) {
        Abandoned(s2, s, b[2..]);
      } else {
        ReadsThree(b, points, s2);
      }
    }
  }

  lemma {:induction false} ReadsThree(b: seq<Byte>, points: seq<nat>, s2: Reading)
    requires |b| > 2 && Continuation(b[1]) && Continuation(b[2]) && 0xe0 <= b[0] < 0xf8
    requires s2 == ReadByte(ReadByte(Reading(NO_CHAR, points), b[0]), b[1])
    ensures var s := Reading(NO_CHAR, points);
            match DecodeXterm(b)
            case Rune(r, n) => Fold(ReadByte, s2, b[2..]) == Fold(ReadByte, Reading(NO_CHAR, points + [r]), b[n..])
            case Skip(n) => Fold(ReadByte, s2, b[2..]) == Fold(ReadByte, s, b[n..])
            case More => Fold(ReadByte, s2, b[2..]).points == points
  {
    hide Fold;
    var s := Reading(NO_CHAR, points);
    ReadFront(s2, b[2..]);
    assert b[2..][1..] == b[3..];
    if b[0] >= 0xf0 {
      ReadsFour(b, points, s2);
    }
  }

  lemma {:induction false} ReadsFour(b: seq<Byte>, points: seq<nat>, s2: Reading)
    requires |b| > 2 && Continuation(b[1]) && Continuation(b[2]) && 0xf0 <= b[0] < 0xf8
    requires s2 == ReadByte(ReadByte(Reading(NO_CHAR, points), b[0]), b[1])
    ensures var s := Reading(NO_CHAR, points);
            match DecodeXterm(b)
            case Rune(r, n) => Fold(ReadByte, s2, b[2..]) == Fold(ReadByte, Reading(NO_CHAR, points + [r]), b[n..])
            case Skip(n) => Fold(ReadByte, s2, b[2..]) == Fold(ReadByte, s, b[n..])
            case More => Fold(ReadByte, s2, b[2..]).points == points
  {
    hide Fold;
    var s := Reading(NO_CHAR, points);
    ReadFront(s2, b[2..]);
    assert b[2..][1..] == b[3..];
    var s3 := ReadByte(s2, b[2]);
    if |b| == 3 {
      assert b[3..] == [];
      NothingRead(s3);
    } else if !Continuation(b[3]) {
      Abandoned(s3, s, b[3..]);
    } else {
      ReadFront(s3, b[3..]);
      assert b[3..][1..] == b[4..];
    }
  }

  /** Byte by byte, cut anywhere, the decoder finds the code points it finds in the whole buffer. */
  lemma {:induction false} ReadsAlike(b: seq<Byte>, points: seq<nat>)
    ensures Fold(ReadByte, Reading(NO_CHAR, points), b).points == points + DecodeAll(b)
    decreases |b|
  {
    hide DecodeXterm, Fold, ReadByte;
    if b == [] {
      NothingRead(Reading(NO_CHAR, points));
    } else {
      ReadsOne(b, points);
      match DecodeXterm(b)
      case Rune(r, n) =>
        ReadsAlike(b[n..], points + [r]);
        assert points + [r] + DecodeAll(b[n..]) == points + DecodeAll(b);
      case Skip(n) => ReadsAlike(b[n..], points);
      case More => assert points + [] == points;
    }
  }

  /** The parser is given the code points the decoder finds. */
  lemma {:induction false} ReceivesPoints(b: seq<Byte>)
    ensures ReceiveAll(START, b).x == Parse(X_START, DecodeAll(b))
  {
    ReadsAlike(b, []);
    ReceivesRead(b);
    assert [] + DecodeAll(b) == DecodeAll(b);
  }

  lemma {:induction false} ReceivesRead(b: seq<Byte>)
    ensures var s := Fold(ReadByte, Reading(NO_CHAR, []), b);
            ReceiveAll(START, b) == Browser(Parse(X_START, s.points), s.dec)
    decreases |b|
  {
    hide XStep, DecByte;
    if b != [] {
      var k := |b| - 1;
      ReceivesRead(b[..k]);
      var s := Fold(ReadByte, Reading(NO_CHAR, []), b[..k]);
      var seen := DecByte(s.dec, b[k]).1;
      if seen.Point? {
        FoldOne(XStep, X_START, s.points, seen.r);
      }
    }
  }

  // ---- when "at ground" can be believed ----

  /** Where the tracker can stand for each position of the parser so that no text can lead it to ground
      with the parser inside something: it may lag behind, or wait for the end of another string. */
  predicate Trails(x: XState, k: Core) {
    || (k.state == Str && !k.osc)
    || (match x
        case Idle => true
        case Esc => k.state == Escape || k.state == StrEsc
        case EscInter => k.state == Escape || k.state == Csi || k.state == StrEsc
        case InString(kind) => kind == Osc && k.state == Str
        case _ => k.state == Csi)
  }

  /** The tracker without the character it is in the middle of. */
  function Settled(p: Tracker): Tracker {
    if p.state == Utf8 then p.(state := p.from) else p
  }

  /** Decoder and tracker are in the middle of the same character, or of none. */
  predicate Joint(d: Dec, p: Tracker) {
    && (d.need > 0 <==> p.state == Utf8)
    && (d.need > 0 ==> p.need == d.need && p.cp == d.cp && p.from != Utf8)
    && (d.need == 0 ==> d == NO_CHAR)
  }

  /** The tracker takes what the decoder drops for a character, and ends up where it can be wrong. */
  predicate Slips(w: Browser, p: Tracker, c: Byte) {
    var seen := DecByte(w.dec, c).1;
    seen.Dropped? && !Trails(w.x.state, CoreOf(StepCp(Settled(p), seen.r)))
  }

  lemma JointByte(d: Dec, p: Tracker, c: Byte)
    requires Joint(d, p)
    ensures Joint(DecByte(d, c).0, FeedByte(p, c))
    ensures var settled := CoreOf(Settled(FeedByte(p, c)));
            match DecByte(d, c).1
            case Nothing => settled == CoreOf(Settled(p))
            case Point(r) => settled == CoreOf(StepCp(Settled(p), r))
            case Dropped(r) => settled == CoreOf(StepCp(Settled(p), r))
  {
    StepStays(Settled(p), c);
    var r := d.cp * 64 + c % 64;
    StepStays(Settled(p), r);
    StepCore(Settled(p), Settled(p).(need := 0, cp := r), r);
    StepCore(Settled(p).(need := 0, cp := r), Settled(p), r);
    hide StepCp;
  }

  lemma StepStays(p: Tracker, r: nat)
    requires p.state != Utf8
    ensures StepCp(p, r).state != Utf8
  {
  }

  lemma TrailsIdle(x: X, p: Tracker, r: nat)
    requires x.state == Idle
    ensures Trails(XStep(x, r).state, CoreOf(StepCp(p, r))) || p.state == Utf8
  {
  }

  lemma TrailsString(x: X, p: Tracker, r: nat)
    requires x.state.InString? && p.state != Utf8 && Trails(x.state, CoreOf(p))
    ensures Trails(XStep(x, r).state, CoreOf(StepCp(p, r)))
  {
  }

  lemma TrailsEscape(x: X, p: Tracker, r: nat)
    requires (x.state == Esc || x.state == EscInter) && p.state != Utf8 && Trails(x.state, CoreOf(p))
    ensures Trails(XStep(x, r).state, CoreOf(StepCp(p, r)))
  {
  }

  lemma TrailsControl(x: X, p: Tracker, r: nat)
    requires x.state.CsiEntry? || x.state.CsiParam? || x.state.CsiInter? || x.state.CsiIgnore?
    requires p.state != Utf8 && Trails(x.state, CoreOf(p))
    ensures Trails(XStep(x, r).state, CoreOf(StepCp(p, r)))
  {
  }

  /** A code point both read keeps the tracker behind the parser. */
  lemma TrailsStep(x: X, p: Tracker, r: nat)
    requires p.state != Utf8 && Trails(x.state, CoreOf(p))
    ensures Trails(XStep(x, r).state, CoreOf(StepCp(p, r)))
  {
    hide XStep, StepCp, Trails;
    match x.state
    case Idle => TrailsIdle(x, p, r);
    case InString(_) => TrailsString(x, p, r);
    case Esc => TrailsEscape(x, p, r);
    case EscInter => TrailsEscape(x, p, r);
    case _ => TrailsControl(x, p, r);
  }

  ghost predicate Joined(w: Browser, p: Tracker) {
    Joint(w.dec, p) && Trails(w.x.state, CoreOf(Settled(p)))
  }

  lemma JoinedByte(w: Browser, p: Tracker, c: Byte)
    requires Joined(w, p)
    ensures Joint(Receive(w, c).dec, FeedByte(p, c))
    ensures Joined(Receive(w, c), FeedByte(p, c)) <==> !Slips(w, p, c)
  {
    JointByte(w.dec, p, c);
    var seen := DecByte(w.dec, c).1;
    if seen.Point? {
      TrailsStep(w.x, Settled(p), seen.r);
    }
    hide XStep, StepCp, Trails, DecByte, FeedByte;
  }

  /** Up to each byte, what was dropped did the tracker no harm. */
  ghost predicate NoSlip(b: seq<Byte>) {
    forall i :: 0 <= i < |b| ==> !SlipAt(b, i)
  }

  ghost predicate SlipAt(b: seq<Byte>, i: nat)
    requires i < |b|
  {
    Slips(ReceiveAll(START, b[..i]), Feed(ZERO, b[..i]), b[i])
  }

  lemma NoSlipPrefix(b: seq<Byte>, n: nat)
    requires NoSlip(b) && n <= |b|
    ensures NoSlip(b[..n])
  {
    forall i | 0 <= i < n
      ensures !SlipAt(b[..n], i)
    {
      assert b[..n][..i] == b[..i] && !SlipAt(b, i);
    }
  }

  lemma {:induction false} JoinedAlong(b: seq<Byte>)
    requires NoSlip(b)
    ensures Joined(ReceiveAll(START, b), Feed(ZERO, b))
    decreases |b|
  {
    hide Receive, FeedByte, Slips, Joined;
    if b == [] {
      JoinedAtStart();
    } else {
      var k := |b| - 1;
      NoSlipPrefix(b, k);
      JoinedAlong(b[..k]);
      assert !SlipAt(b, k);
      JoinedByte(ReceiveAll(START, b[..k]), Feed(ZERO, b[..k]), b[k]);
    }
  }

  lemma JoinedAtStart()
    ensures Joined(START, ZERO)
  {
  }

  predicate Ascii(b: seq<Byte>) {
    forall i :: 0 <= i < |b| ==> b[i] < 0x80
  }

  /** The tracker says ground only where the parser is idle, on this stream and on any ASCII text that
      follows any point of it. */
  ghost predicate Believable(b: seq<Byte>) {
    forall n: nat, rest: seq<Byte> :: n <= |b| && Ascii(rest) ==> Believed(b[..n] + rest)
  }

  ghost predicate Believed(b: seq<Byte>) {
    Feed(ZERO, b).state == Ground ==> ReceiveAll(START, b).x.state == Idle
  }

  lemma {:induction false} AsciiNeverSlips(b: seq<Byte>, n: nat, rest: seq<Byte>)
    requires NoSlip(b) && n <= |b| && Ascii(rest)
    ensures NoSlip(b[..n] + rest)
  {
    var all := b[..n] + rest;
    forall i | 0 <= i < |all|
      ensures !SlipAt(all, i)
    {
      if i < n {
        assert all[..i] == b[..i] && !SlipAt(b, i);
      } else {
        assert all[i] == rest[i - n] < 0x80;
      }
    }
  }

  lemma JoinedBelieved(w: Browser, p: Tracker)
    requires Joined(w, p) && p.state == Ground
    ensures w.x.state == Idle && w.dec == NO_CHAR
  {
  }

  /** Where the tracker can be wrong, one more character makes it so. */
  function Betrayal(x: XState, k: Core): Byte {
    match k.state
    case Str => 7
    case Csi => if x == Esc then 0x50 else 0x40
    case _ => 0x30
  }

  lemma Betrayed(x: X, p: Tracker)
    requires p.state != Utf8 && p.state != Ground && !Trails(x.state, CoreOf(p))
    ensures var c := Betrayal(x.state, CoreOf(p)); StepCp(p, c).state == Ground && XStep(x, c).state != Idle
  {
  }

  lemma BetrayedNow(w: Browser, p: Tracker)
    requires Joint(w.dec, p) && p.state != Utf8 && p.state != Ground && !Trails(w.x.state, CoreOf(p))
    ensures var c := Betrayal(w.x.state, CoreOf(p)); c < 0x80 && FeedByte(p, c).state == Ground && Receive(w, c).x.state != Idle
  {
    Betrayed(w.x, p);
    hide StepCp, XStep, Trails;
  }

  /** The first byte at which the tracker slips. */
  lemma FirstSlip(b: seq<Byte>) returns (i: nat)
    requires !NoSlip(b)
    ensures i < |b| && SlipAt(b, i) && NoSlip(b[..i])
  {
    hide SlipAt;
    i :| 0 <= i < |b| && SlipAt(b, i);
    while !NoSlip(b[..i])
      invariant i < |b| && SlipAt(b, i)
      decreases i
    {
      var j :| 0 <= j < i && SlipAt(b[..i], j);
      SlipEarlier(b, i, j);
      i := j;
    }
  }

  lemma SlipEarlier(b: seq<Byte>, i: nat, j: nat)
    requires j < i <= |b|
    ensures SlipAt(b[..i], j) == SlipAt(b, j)
  {
    assert b[..i][..j] == b[..j];
  }

  lemma SlippedWhole(w: Browser, p: Tracker, c: Byte)
    requires Joined(w, p) && Slips(w, p, c)
    ensures FeedByte(p, c).state != Utf8 && !Trails(Receive(w, c).x.state, CoreOf(FeedByte(p, c)))
    ensures Joint(Receive(w, c).dec, FeedByte(p, c))
  {
    JointByte(w.dec, p, c);
    hide XStep, StepCp, Trails, FeedByte;
  }

  /** The tracker can be believed exactly when nothing the decoder drops moves it ahead of the parser: no
      U+FEFF, surrogate, overlong form or value past U+10FFFF that would end or turn what it is in. */
  lemma {:induction false} BelievableIff(b: seq<Byte>)
    ensures Believable(b) <==> NoSlip(b)
  {
    hide FeedByte, Receive, Joined, Slips;
    if NoSlip(b) {
      forall n: nat, rest: seq<Byte> | n <= |b| && Ascii(rest)
        ensures Believed(b[..n] + rest)
      {
        AsciiNeverSlips(b, n, rest);
        var all := b[..n] + rest;
        JoinedAlong(all);
        if Feed(ZERO, all).state == Ground {
          JoinedBelieved(ReceiveAll(START, all), Feed(ZERO, all));
        }
      }
    } else {
      var i := FirstSlip(b);
      var rest := Refuted(b, i);
    }
  }

  lemma {:induction false} Refuted(b: seq<Byte>, i: nat) returns (rest: seq<Byte>)
    requires i < |b| && SlipAt(b, i) && NoSlip(b[..i])
    ensures Ascii(rest) && !Believed(b[..i + 1] + rest)
  {
    hide FeedByte, Receive, Joined, Slips, Trails;
    JoinedAlong(b[..i]);
    var w, p := ReceiveAll(START, b[..i]), Feed(ZERO, b[..i]);
    SlippedWhole(w, p, b[i]);
    var w1, p1 := Receive(w, b[i]), FeedByte(p, b[i]);
    var all := b[..i + 1];
    assert all == b[..i] + [b[i]];
    FoldOne(Receive, START, b[..i], b[i]);
    FoldOne(FeedByte, ZERO, b[..i], b[i]);
    if p1.state == Ground {
      rest := [];
      assert all + [] == all;
      IdleTrails(CoreOf(p1));
    } else {
      BetrayedNow(w1, p1);
      rest := [Betrayal(w1.x.state, CoreOf(p1))];
      FoldOne(Receive, START, all, rest[0]);
      FoldOne(FeedByte, ZERO, all, rest[0]);
    }
  }

  lemma IdleTrails(k: Core)
    ensures Trails(Idle, k)
  {
  }

  // ---- texts that never slip, and bytes that do ----

  /** A character of well-formed text reaches the parser, unless it is the byte-order mark. */
  lemma {:induction false} CharNeverDropped(w: Browser, r: Scalar, k: nat)
    requires r != BYTE_ORDER_MARK && k < |Encode(r)|
    requires 0 < k ==> w.dec == Dec(|Encode(r)| - k, |Encode(r)|, r / Pow64(|Encode(r)| - k))
    ensures var (dec, seen) := DecByte(w.dec, Encode(r)[k]);
            && !seen.Dropped?
            && (if k + 1 < |Encode(r)| then dec == Dec(|Encode(r)| - k - 1, |Encode(r)|, r / Pow64(|Encode(r)| - k - 1))
                else dec == NO_CHAR && seen == Point(r))
  {
    Lengths(r);
    if k == 0 {
      FirstNeverDropped(w, r);
    } else {
      TailBits(r, k);
      PowZero(r);
      hide Encode, Pow64;
    }
  }

  lemma FirstNeverDropped(w: Browser, r: Scalar)
    ensures var (dec, seen) := DecByte(w.dec, Encode(r)[0]); var n := |Encode(r)|;
            && n > 0 && !seen.Dropped?
            && (if 1 < n then dec == Dec(n - 1, n, r / Pow64(n - 1)) else dec == NO_CHAR && seen == Point(r))
  {
    if r >= 0x80 {
      FirstBits(r);
      Lengths(r);
      hide Encode;
    }
  }

  lemma Lengths(r: Scalar)
    ensures |Encode(r)| == if r < 0x80 then 1 else if r < 0x800 then 2 else if r < 0x1_0000 then 3 else 4
  {
  }

  /** What has been read of a character, `k` bytes in. */
  function Inside(r: Scalar, k: nat): Dec
    requires k <= |Encode(r)|
  {
    var n := |Encode(r)|;
    if k == 0 || k == n then NO_CHAR else Dec(n - k, n, r / Pow64(n - k))
  }

  lemma InsideStep(r: Scalar, k: nat)
    requires r != BYTE_ORDER_MARK && k < |Encode(r)|
    ensures DecByte(Inside(r, k), Encode(r)[k]).0 == Inside(r, k + 1)
    ensures !DecByte(Inside(r, k), Encode(r)[k]).1.Dropped?
  {
    hide Encode, DecByte, Pow64;
    CharNeverDropped(START.(dec := Inside(r, k)), r, k);
  }

  lemma {:induction false} CharRead(w: Browser, r: Scalar, k: nat)
    requires w.dec == NO_CHAR && r != BYTE_ORDER_MARK && k <= |Encode(r)|
    ensures ReceiveAll(w, Encode(r)[..k]).dec == Inside(r, k)
    ensures k < |Encode(r)| ==> !DecByte(Inside(r, k), Encode(r)[k]).1.Dropped?
    decreases k
  {
    hide Encode, DecByte, Inside, XStep, Fold;
    var b := Encode(r);
    if k < |b| {
      InsideStep(r, k);
    }
    if k == 0 {
      InsideNothing(w, r);
    } else {
      CharRead(w, r, k - 1);
      assert b[..k] == b[..k - 1] + [b[k - 1]];
      FoldOne(Receive, w, b[..k - 1], b[k - 1]);
      InsideStep(r, k - 1);
    }
  }

  lemma InsideNothing(w: Browser, r: Scalar)
    ensures ReceiveAll(w, Encode(r)[..0]) == w && Inside(r, 0) == NO_CHAR
  {
    hide Encode;
    assert Encode(r)[..0] == [];
  }

  /** Well-formed text without a byte-order mark: nothing is dropped, so the tracker never slips on it. */
  lemma {:induction false} CleanText(rs: seq<Scalar>)
    requires BYTE_ORDER_MARK !in rs
    ensures NoSlip(EncodeAll(rs)) && ReceiveAll(START, EncodeAll(rs)).dec == NO_CHAR
    decreases |rs|
  {
    hide Encode, Receive, DecByte, FeedByte, Inside;
    if rs != [] {
      var k := |rs| - 1;
      var before, last := EncodeAll(rs[..k]), Encode(rs[k]);
      var all := EncodeAll(rs);
      CleanText(rs[..k]);
      var w := ReceiveAll(START, before);
      forall i | 0 <= i < |all|
        ensures !SlipAt(all, i)
      {
        if i < |before| {
          assert all[..i] == before[..i] && !SlipAt(before, i);
        } else {
          var j := i - |before|;
          assert all[..i] == before + last[..j];
          FoldConcat(Receive, START, before, last[..j]);
          CharRead(w, rs[k], j);
        }
      }
      FoldConcat(Receive, START, before, last);
      CharRead(w, rs[k], |last|);
      assert last[..|last|] == last;
      WholeChar(rs[k]);
    }
  }

  lemma WholeChar(r: Scalar)
    ensures Inside(r, |Encode(r)|) == NO_CHAR
  {
  }

  /** Inputs on which the tracker is wrong: after ESC, a surrogate, the byte-order mark and a value past
      U+10FFFF, each dropped by the decoder; in an OSC string, an overlong BEL. */
  lemma Disbelieved()
    ensures !Believed([0x1b, 0xed, 0xa0, 0x80]) && !Believed([0x1b, 0xef, 0xbb, 0xbf]) && !Believed([0x1b, 0xf4, 0x90, 0x80, 0x80])
    ensures !Believed([0x1b, 0x5d, 0xe0, 0x80, 0x87])
  {
    hide Believed;
    AfterEscape(0xed, 0xa0, 0x80);
    AfterEscape(0xef, 0xbb, 0xbf);
    PastTheEnd();
    OverlongBel();
  }

  /** A character of three bytes that is dropped ends an escape sequence for the tracker alone. */
  lemma AfterEscape(c0: Byte, c1: Byte, c2: Byte)
    requires 0xe0 <= c0 <= 0xef && Continuation(c1) && Continuation(c2)
    requires Bits(Bits(c0 % 16, c1), c2) in {0xd800, 0xfeff}
    ensures !Believed([0x1b, c0, c1, c2])
  {
    hide ReceiveAll, Feed, StepCp, Bits;
    var esc := After1b();
    EscapeEnds(Feed(ZERO, [0x1b]));
    DroppedThree([0x1b], c0, c1, c2);
    assert [0x1b] + [c0, c1, c2] == [0x1b, c0, c1, c2];
  }

  lemma PastTheEnd()
    ensures !Believed([0x1b, 0xf4, 0x90, 0x80, 0x80])
  {
    hide ReceiveAll, Feed, StepCp;
    var esc := After1b();
    EscapeEnds(Feed(ZERO, [0x1b]));
    DroppedFour([0x1b], 0xf4, 0x90, 0x80, 0x80);
    assert [0x1b] + [0xf4, 0x90, 0x80, 0x80] == [0x1b, 0xf4, 0x90, 0x80, 0x80];
  }

  lemma OverlongBel()
    ensures !Believed([0x1b, 0x5d, 0xe0, 0x80, 0x87])
  {
    hide ReceiveAll, Feed, StepCp;
    var osc := AfterOsc();
    BelEnds(Feed(ZERO, [0x1b, 0x5d]));
    DroppedThree([0x1b, 0x5d], 0xe0, 0x80, 0x87);
    assert [0x1b, 0x5d] + [0xe0, 0x80, 0x87] == [0x1b, 0x5d, 0xe0, 0x80, 0x87];
  }

  lemma EscapeEnds(p: Tracker)
    requires p.state == Escape
    ensures forall r :: r in {0xd800, 0xfeff, 0x11_0000} ==> StepCp(p, r).state == Ground
  {
  }

  lemma BelEnds(p: Tracker)
    requires p.state == Str && p.osc
    ensures StepCp(p, 7).state == Ground
  {
  }

  lemma After1b() returns (w: Browser)
    ensures w == ReceiveAll(START, [0x1b]) == Browser(X(Esc, [], [], []), NO_CHAR)
    ensures Feed(ZERO, [0x1b]) == ZERO.(state := Escape)
  {
    FoldOne(Receive, START, [], 0x1b);
    FoldOne(FeedByte, ZERO, [], 0x1b);
    w := ReceiveAll(START, [0x1b]);
  }

  lemma AfterOsc() returns (w: Browser)
    ensures w == ReceiveAll(START, [0x1b, 0x5d]) == Browser(X(InString(Osc), [], [], []), NO_CHAR)
    ensures Feed(ZERO, [0x1b, 0x5d]) == ZERO.(state := Str, osc := true)
  {
    var esc := After1b();
    assert [0x1b, 0x5d] == [0x1b] + [0x5d];
    FoldOne(Receive, START, [0x1b], 0x5d);
    FoldOne(FeedByte, ZERO, [0x1b], 0x5d);
    w := ReceiveAll(START, [0x1b, 0x5d]);
  }

  /** One byte of a character that is not done yet. */
  lemma Begun(b: seq<Byte>, c: Byte)
    requires Joint(ReceiveAll(START, b).dec, Feed(ZERO, b)) && DecByte(ReceiveAll(START, b).dec, c).1 == Nothing
    ensures ReceiveAll(START, b + [c]) == ReceiveAll(START, b).(dec := DecByte(ReceiveAll(START, b).dec, c).0)
    ensures Joint(ReceiveAll(START, b + [c]).dec, Feed(ZERO, b + [c]))
    ensures CoreOf(Settled(Feed(ZERO, b + [c]))) == CoreOf(Settled(Feed(ZERO, b)))
  {
    hide FeedByte, DecByte, XStep;
    FoldOne(Receive, START, b, c);
    FoldOne(FeedByte, ZERO, b, c);
    JointByte(ReceiveAll(START, b).dec, Feed(ZERO, b), c);
  }

  /** The byte that completes a dropped character moves the tracker alone. */
  lemma DroppedNow(b: seq<Byte>, c: Byte)
    requires Joint(ReceiveAll(START, b).dec, Feed(ZERO, b)) && DecByte(ReceiveAll(START, b).dec, c).1.Dropped?
    ensures var r := DecByte(ReceiveAll(START, b).dec, c).1.r;
            && ReceiveAll(START, b + [c]) == ReceiveAll(START, b).(dec := NO_CHAR)
            && CoreOf(Feed(ZERO, b + [c])) == CoreOf(StepCp(Settled(Feed(ZERO, b)), r))
  {
    FoldOne(Receive, START, b, c);
    FoldOne(FeedByte, ZERO, b, c);
    JointByte(ReceiveAll(START, b).dec, Feed(ZERO, b), c);
    hide FeedByte, StepCp, XStep;
  }

  lemma DroppedThree(b: seq<Byte>, c0: Byte, c1: Byte, c2: Byte)
    requires ReceiveAll(START, b).dec == NO_CHAR && Feed(ZERO, b).state != Utf8
    requires 0xe0 <= c0 <= 0xef && Continuation(c1) && Continuation(c2)
    ensures var r := Bits(Bits(c0 % 16, c1), c2); var all := b + [c0, c1, c2];
            Drops(3, r) ==> ReceiveAll(START, all) == ReceiveAll(START, b)
                            && CoreOf(Feed(ZERO, all)) == CoreOf(StepCp(Feed(ZERO, b), r))
  {
    var r := Bits(Bits(c0 % 16, c1), c2);
    hide XStep, StepCp, FeedByte, Fold, Bits, Receive;
    if Drops(3, r) {
      var b1 := b + [c0];
      var b2 := b1 + [c1];
      assert b + [c0, c1, c2] == b2 + [c2];
      Begun(b, c0);
      Begun(b1, c1);
      DroppedNow(b2, c2);
      StepCore(Settled(Feed(ZERO, b2)), Feed(ZERO, b), r);
    }
  }

  lemma DroppedFour(b: seq<Byte>, c0: Byte, c1: Byte, c2: Byte, c3: Byte)
    requires ReceiveAll(START, b).dec == NO_CHAR && Feed(ZERO, b).state != Utf8
    requires 0xf0 <= c0 <= 0xf4 && Continuation(c1) && Continuation(c2) && Continuation(c3)
    ensures var r := Bits(Bits(Bits(c0 % 8, c1), c2), c3); var all := b + [c0, c1, c2, c3];
            Drops(4, r) ==> ReceiveAll(START, all) == ReceiveAll(START, b)
                            && CoreOf(Feed(ZERO, all)) == CoreOf(StepCp(Feed(ZERO, b), r))
  {
    var r := Bits(Bits(Bits(c0 % 8, c1), c2), c3);
    hide XStep, StepCp, FeedByte, Fold, Bits, Receive;
    if Drops(4, r) {
      var b1 := b + [c0];
      var b2 := b1 + [c1];
      var b3 := b2 + [c2];
      assert b + [c0, c1, c2, c3] == b3 + [c3];
      Begun(b, c0);
      Begun(b1, c1);
      Begun(b2, c2);
      DroppedNow(b3, c3);
      StepCore(Settled(Feed(ZERO, b3)), Feed(ZERO, b), r);
    }
  }

  // ---- an insertion at ground ----

  lemma {:induction false} ParseMore(x: X, earlier: seq<Action>, rs: seq<nat>)
    ensures Parse(After(x, earlier), rs) == After(Parse(x, rs), earlier)
    decreases |rs|
  {
    hide XStep, After;
    if rs != [] {
      var k := |rs| - 1;
      ParseMore(x, earlier, rs[..k]);
      LogApart(Parse(x, rs[..k]), earlier, rs[k]);
    }
  }

  function After(x: X, earlier: seq<Action>): X {
    x.(log := earlier + x.log)
  }

  lemma LogAfter(x: X, earlier: seq<Action>, a: Action)
    ensures Log(After(x, earlier), a) == After(Log(x, a), earlier)
    ensures ToIdle(After(x, earlier)) == After(ToIdle(x), earlier)
    ensures forall s :: Begin(After(x, earlier), s) == After(Begin(x, s), earlier)
  {
    assert earlier + x.log + [a] == earlier + (x.log + [a]);
  }

  lemma IdleAfter(x: X, earlier: seq<Action>, r: nat)
    ensures IdleStep(After(x, earlier), r) == After(IdleStep(x, r), earlier)
  {
    LogAfter(x, earlier, Control(r));
    LogAfter(x, earlier, Text(r));
    hide Log;
  }

  lemma SeqByteAfter(x: X, earlier: seq<Action>, b: nat)
    ensures SeqByte(After(x, earlier), b) == After(SeqByte(x, b), earlier)
  {
    var acts := [EscSeq([], b), EscSeq(x.inter, b), CsiSeq(x.params, x.inter, b)];
    forall a | a in acts
      ensures ToIdle(Log(After(x, earlier), a)) == After(ToIdle(Log(x, a)), earlier)
    {
      LogAfter(x, earlier, a);
    }
    assert acts[0] in acts && acts[1] in acts && acts[2] in acts;
    LogAfter(x, earlier, acts[0]);
    hide Log;
  }

  /** What was handed on before does not change what is handed on next. */
  lemma LogApart(x: X, earlier: seq<Action>, r: nat)
    ensures XStep(After(x, earlier), r) == After(XStep(x, r), earlier)
  {
    LogAfter(x, earlier, Control(r));
    IdleAfter(x, earlier, r);
    IdleAfter(ToIdle(x), earlier, r);
    SeqByteAfter(x, earlier, r);
    hide IdleStep, SeqByte, Log;
  }

  lemma CleanStep(x: X, r: nat)
    requires x.state == Idle ==> x.inter == [] && x.params == []
    ensures XStep(x, r).state == Idle ==> XStep(x, r).inter == [] && XStep(x, r).params == []
  {
  }

  /** A control sequence: section 5.4 of ECMA-48. */
  function ControlSequence(params: seq<nat>, final: nat): seq<nat> {
    [0x1b, 0x5b] + params + [final]
  }

  predicate PlainParams(params: seq<nat>) {
    forall i :: 0 <= i < |params| ==> 0x30 <= params[i] <= 0x3b || (i == 0 && params[i] == 0x3f)
  }

  lemma Introduced(x: X)
    requires x.state == Idle
    ensures XStep(XStep(x, 0x1b), 0x5b) == X(CsiEntry, [], [], x.log)
  {
  }

  lemma ParamByte(params: seq<nat>, r: nat, log: seq<Action>)
    requires 0x30 <= r <= 0x3b || (params == [] && r == 0x3f)
    ensures XStep(X(if params == [] then CsiEntry else CsiParam, [], params, log), r) == X(CsiParam, [], params + [r], log)
  {
  }

  lemma {:induction false} ParseParams(x: X, params: seq<nat>)
    requires x.state == Idle && PlainParams(params)
    ensures Parse(x, [0x1b, 0x5b] + params) == X(if params == [] then CsiEntry else CsiParam, [], params, x.log)
    decreases |params|
  {
    hide XStep, Fold;
    if params == [] {
      var none: seq<nat> := [];
      assert [0x1b, 0x5b] + params == [0x1b] + [0x5b];
      FoldOne(XStep, x, none, 0x1b);
      FoldOne(XStep, x, [0x1b], 0x5b);
      Introduced(x);
    } else {
      var k := |params| - 1;
      ParamByte(params[..k], params[k], x.log);
      ParseParams(x, params[..k]);
      assert [0x1b, 0x5b] + params == ([0x1b, 0x5b] + params[..k]) + [params[k]];
      FoldOne(XStep, x, [0x1b, 0x5b] + params[..k], params[k]);
      assert params[..k] + [params[k]] == params;
    }
  }

  /** Read whole, a control sequence is one action and leaves nothing behind. */
  lemma {:induction false} ParseSequence(x: X, params: seq<nat>, final: nat)
    requires x.state == Idle && PlainParams(params) && 0x40 <= final <= 0x7e
    ensures Parse(x, ControlSequence(params, final)) == ToIdle(Log(x, CsiSeq(params, [], final)))
  {
    ParseParams(x, params);
    FoldOne(XStep, x, [0x1b, 0x5b] + params, final);
  }

  lemma {:induction false} StepsParams(p: Tracker, params: seq<nat>)
    requires (p.state == Ground || p.state == Csi) && PlainParams(params)
    ensures Steps(p, [0x1b, 0x5b] + params) == p.(state := Csi)
    decreases |params|
  {
    if params == [] {
      assert [0x1b, 0x5b] + params == [0x1b] + [0x5b];
      FoldOne(StepCp, p, [], 0x1b);
      FoldOne(StepCp, p, [0x1b], 0x5b);
    } else {
      var k := |params| - 1;
      StepsParams(p, params[..k]);
      assert [0x1b, 0x5b] + params == ([0x1b, 0x5b] + params[..k]) + [params[k]];
      FoldOne(StepCp, p, [0x1b, 0x5b] + params[..k], params[k]);
    }
  }

  lemma {:induction false} StepsSequence(p: Tracker, params: seq<nat>, final: nat)
    requires p.state == Ground && PlainParams(params) && 0x40 <= final <= 0x7e
    ensures Steps(p, ControlSequence(params, final)) == p
  {
    StepsParams(p, params);
    FoldOne(StepCp, p, [0x1b, 0x5b] + params, final);
  }

  const PASTE_PARAMS: seq<nat> := [0x3f, 0x32, 0x30, 0x30, 0x34]

  function PasteFinal(on: bool): nat {
    if on then 0x68 else 0x6c
  }

  /** The bracketed-paste switch, on (`h`) or off (`l`). */
  function PasteMode(on: bool): seq<nat> {
    ControlSequence(PASTE_PARAMS, PasteFinal(on))
  }

  function Bytes(rs: seq<nat>): (b: seq<Byte>)
    requires forall i :: 0 <= i < |rs| ==> rs[i] < 128
    ensures Ascii(b) && |b| == |rs|
  {
    seq(|rs|, i requires 0 <= i < |rs| => rs[i])
  }

  /** ASCII is read code point by code point; it abandons a character begun before it. */
  lemma {:induction false} ReceiveAscii(w: Browser, rs: seq<nat>)
    requires forall i :: 0 <= i < |rs| ==> rs[i] < 128
    ensures ReceiveAll(w, Bytes(rs)) == Browser(Parse(w.x, rs), if rs == [] then w.dec else NO_CHAR)
    decreases |rs|
  {
    hide XStep;
    if rs != [] {
      var k := |rs| - 1;
      ReceiveAscii(w, rs[..k]);
      assert Bytes(rs)[..k] == Bytes(rs[..k]);
    }
  }

  /** The browser with an earlier log. */
  function AfterAll(w: Browser, earlier: seq<Action>): Browser {
    w.(x := After(w.x, earlier))
  }

  lemma {:induction false} ReceiveMore(w: Browser, earlier: seq<Action>, b: seq<Byte>)
    ensures ReceiveAll(AfterAll(w, earlier), b) == AfterAll(ReceiveAll(w, b), earlier)
    decreases |b|
  {
    hide XStep, After, DecByte;
    if b != [] {
      var k := |b| - 1;
      ReceiveMore(w, earlier, b[..k]);
      var v := ReceiveAll(w, b[..k]);
      var seen := DecByte(v.dec, b[k]).1;
      if seen.Point? {
        LogApart(v.x, earlier, seen.r);
      }
    }
  }

  /** A parser is never left idle with half a sequence collected. */
  predicate Clean(x: X) {
    x.state == Idle ==> x.inter == [] && x.params == []
  }

  lemma {:induction false} StaysClean(w: Browser, b: seq<Byte>)
    requires Clean(w.x)
    ensures Clean(ReceiveAll(w, b).x)
    decreases |b|
  {
    hide XStep;
    if b != [] {
      var k := |b| - 1;
      StaysClean(w, b[..k]);
      var v := ReceiveAll(w, b[..k]);
      var seen := DecByte(v.dec, b[k]).1;
      if seen.Point? {
        CleanStep(v.x, seen.r);
      }
    }
  }

  function PasteAction(on: bool): Action {
    CsiSeq(PASTE_PARAMS, [], PasteFinal(on))
  }

  function PasteBytes(on: bool): (b: seq<Byte>)
    ensures |b| == 8
  {
    Bytes(PasteMode(on))
  }

  /** A browser between sequences reads the switch as one action and is where it was. */
  lemma PasteRead(w: Browser, on: bool)
    requires w.x.state == Idle && Clean(w.x) && w.dec == NO_CHAR
    ensures ReceiveAll(w, PasteBytes(on)) == w.(x := Log(w.x, PasteAction(on)))
  {
    ReceiveAscii(w, PasteMode(on));
    ParseSequence(w.x, PASTE_PARAMS, PasteFinal(on));
  }

  // ---- the browser's modes ----

  /** Decimal parameters between semicolons: section 5.4.2 of ECMA-48. */
  function Fields(params: seq<nat>): (r: seq<nat>)
    ensures r != []
    decreases |params|
  {
    if params == [] then [0]
    else
      var k := |params| - 1;
      var before, c := Fields(params[..k]), params[k];
      if c == 0x3b then before + [0]
      else if 0x30 <= c <= 0x39 then before[..|before| - 1] + [before[|before| - 1] * 10 + (c - 0x30)]
      else before
  }

  /** A mode of the standard, or a private one. */
  datatype ModeName = Ansi(n: nat) | Private(n: nat)

  /** SM and RM, sections 8.3.125 and 8.3.106 of ECMA-48: a sequence that ends in `h` sets each mode it lists,
      one that ends in `l` resets it; after a question mark the modes are private. */
  function Switch(a: Action, mode: ModeName): Option<bool> {
    if !a.CsiSeq? || a.inter != [] || (a.final != 0x68 && a.final != 0x6c) then None
    else
      var asked := a.params != [] && a.params[0] == 0x3f;
      if mode.Private? == asked && mode.n in Fields(if asked then a.params[1..] else a.params)
      then Some(a.final == 0x68)
      else None
  }

  /** Whether a mode is on after these actions, if it was `on` before them. */
  function Mode(log: seq<Action>, mode: ModeName, on: bool): bool
    decreases |log|
  {
    if log == [] then on
    else if Switch(log[|log| - 1], mode).Some? then Switch(log[|log| - 1], mode).value
    else Mode(log[..|log| - 1], mode, on)
  }

  lemma {:induction false} ModeOn(a: seq<Action>, b: seq<Action>, mode: ModeName, on: bool)
    ensures Mode(a + b, mode, on) == Mode(b, mode, Mode(a, mode, on))
    decreases |b|
  {
    hide Switch;
    if b == [] {
      assert a + b == a;
    } else {
      assert (a + b)[..|a + b| - 1] == a + b[..|b| - 1];
      ModeOn(a, b[..|b| - 1], mode, on);
    }
  }

  lemma FieldsMore(params: seq<nat>, last: nat, c: nat)
    requires Fields(params) == [last] && 0x30 <= c <= 0x39
    ensures Fields(params + [c]) == [last * 10 + (c - 0x30)]
  {
    assert (params + [c])[..|params|] == params;
  }

  lemma PasteFields()
    ensures PASTE_PARAMS[0] == 0x3f && Fields(PASTE_PARAMS[1..]) == [2004]
  {
    FieldsMore([], 0, 0x32);
    FieldsMore([] + [0x32], 2, 0x30);
    FieldsMore([] + [0x32] + [0x30], 20, 0x30);
    FieldsMore([] + [0x32] + [0x30] + [0x30], 200, 0x34);
    assert PASTE_PARAMS[1..] == [] + [0x32] + [0x30] + [0x30] + [0x34];
  }

  /** The paste switch turns private mode 2004 and no other. */
  lemma PasteSwitches(log: seq<Action>, paste: bool, mode: ModeName, on: bool)
    ensures Mode(log + [PasteAction(paste)], mode, on) == if mode == Private(2004) then paste else Mode(log, mode, on)
  {
    hide Fields;
    PasteFields();
    assert (log + [PasteAction(paste)])[..|log|] == log;
  }

  /** What a browser does with bytes that come after others. */
  function Since(a: seq<Byte>, c: seq<Byte>): seq<Action> {
    var w := ReceiveAll(START, a);
    ReceiveAll(w.(x := w.x.(log := [])), c).x.log
  }

  /** Inserted where the tracker says ground, the paste switch is read as one whole sequence, and
      everything the stream says before and after is handed on as it would have been without it. */
  lemma {:induction false} InsertionIsWhole(a: seq<Byte>, c: seq<Byte>, on: bool)
    requires NoSlip(a) && Feed(ZERO, a).state == Ground
    ensures var before, plain, with := ReceiveAll(START, a), ReceiveAll(START, a + c), ReceiveAll(START, a + PasteBytes(on) + c);
            && before.x.state == Idle
            && with.(x := with.x.(log := [])) == plain.(x := plain.x.(log := []))
            && plain.x.log == before.x.log + Since(a, c)
            && with.x.log == before.x.log + [PasteAction(on)] + Since(a, c)
  {
    hide Receive, FeedByte, After, Joined;
    JoinedAlong(a);
    JoinedBelieved(ReceiveAll(START, a), Feed(ZERO, a));
    StaysClean(START, a);
    var w := ReceiveAll(START, a);
    var bare := w.(x := w.x.(log := []));
    PasteRead(w, on);
    FoldConcat(Receive, START, a, c);
    FoldConcat(Receive, START, a + PasteBytes(on), c);
    FoldConcat(Receive, START, a, PasteBytes(on));
    var logged := w.x.log + [PasteAction(on)];
    AfterBare(w.x);
    AfterBare(w.x.(log := logged));
    ReceiveMore(bare, w.x.log, c);
    ReceiveMore(bare, logged, c);
    AfterLog(ReceiveAll(bare, c).x, w.x.log);
    AfterLog(ReceiveAll(bare, c).x, logged);
  }

  /** The browser's modes after an insertion, and whatever follows it, are those it would have had with the
      switch turned there: mode 2004 is as asked until the stream turns it again, every other as without it. */
  lemma {:induction false} InsertionSwitches(a: seq<Byte>, c: seq<Byte>, paste: bool, mode: ModeName, on: bool)
    requires NoSlip(a) && Feed(ZERO, a).state == Ground
    ensures var before, plain, with := ReceiveAll(START, a), ReceiveAll(START, a + c), ReceiveAll(START, a + PasteBytes(paste) + c);
            && Mode(with.x.log, mode, on) == Mode(Since(a, c), mode, if mode == Private(2004) then paste else Mode(before.x.log, mode, on))
            && Mode(plain.x.log, mode, on) == Mode(Since(a, c), mode, Mode(before.x.log, mode, on))
  {
    hide Receive, FeedByte, Fold, NoSlip, Since, PasteAction, PasteBytes, Mode;
    var before := ReceiveAll(START, a).x.log;
    InsertionIsWhole(a, c, paste);
    PasteSwitches(before, paste, mode, on);
    ModeOn(before + [PasteAction(paste)], Since(a, c), mode, on);
    ModeOn(before, Since(a, c), mode, on);
  }

  lemma AfterBare(x: X)
    ensures After(x.(log := []), x.log) == x
  {
  }

  lemma AfterLog(x: X, earlier: seq<Action>)
    ensures After(x, earlier) == x.(log := earlier + x.log)
  {
  }
}
