/** The one goroutine that writes to a browser: restores, live output, and the late answer about
    bracketed paste, which must not land inside a sequence. */
module Writer {
  import opened Common
  import opened Folds
  import opened Boundary
  import opened XParser

  // ---- the prelude of a restore ----

  /** The prelude is a cancel, control sequences, character-set designations and one shift. */
  datatype Piece = Sequence(params: seq<nat>, final: nat) | Designate(slot: nat) | ShiftIn

  const PIECES: seq<Piece> := [
    Sequence([0x3f, 0x31, 0x30, 0x34, 0x39], 0x6c),  // ?1049l
    Sequence([], 0x72),                              // r
    Sequence([0x3f, 0x36], 0x6c),                    // ?6l
    Sequence([0x3f, 0x37], 0x68),                    // ?7h
    Sequence([0x34], 0x6c),                          // 4l
    Sequence([0x32, 0x30], 0x68),                    // 20h
    Sequence([0x30], 0x6d),                          // 0m
    Designate(0x28), Designate(0x29), Designate(0x2a), Designate(0x2b),
    ShiftIn,
    Sequence([], 0x48),                              // H
    Sequence([0x32], 0x4a),                          // 2J
    Sequence([0x33], 0x4a)]                          // 3J

  function Spell(p: Piece): seq<nat> {
    match p
    case Sequence(params, final) => ControlSequence(params, final)
    case Designate(slot) => [0x1b, slot, 0x42]
    case ShiftIn => [0x0f]
  }

  function SpellAll(ps: seq<Piece>): seq<nat>
    decreases |ps|
  {
    if ps == [] then [] else SpellAll(ps[..|ps| - 1]) + Spell(ps[|ps| - 1])
  }

  /** What the browser's parser hands on for a piece. */
  function ActionOf(p: Piece): Action {
    match p
    case Sequence(params, final) => CsiSeq(params, [], final)
    case Designate(slot) => EscSeq([slot], 0x42)
    case ShiftIn => Control(0x0f)
  }

  function Actions(ps: seq<Piece>): seq<Action> {
    seq(|ps|, i requires 0 <= i < |ps| => ActionOf(ps[i]))
  }

  /** What it hands on for the cancel, if it is not inside a string. */
  function Cancelling(x: X): seq<Action> {
    if x.state.InString? then [] else [Control(0x18)]
  }

  predicate Sound(p: Piece) {
    match p
    case Sequence(params, final) => PlainParams(params) && 0x40 <= final <= 0x7e
    case Designate(slot) => 0x28 <= slot <= 0x2b
    case ShiftIn => true
  }

  const CANCEL: Byte := 0x18

  const CANCELLED: seq<nat> := [CANCEL]

  const PRELUDE: seq<nat> := CANCELLED + SpellAll(PIECES)

  lemma {:induction false} PieceAtGround(p: Tracker, x: X, piece: Piece)
    requires Sound(piece) && p.state == Ground && x.state == Idle && x.inter == [] && x.params == []
    ensures Steps(p, Spell(piece)) == p
    ensures Parse(x, Spell(piece)) == Log(x, ActionOf(piece))
  {
    hide XStep, StepCp, Fold;
    match piece
    case Sequence(params, final) =>
      StepsSequence(p, params, final);
      ParseSequence(x, params, final);
    case Designate(slot) => DesignateAtGround(p, x, slot);
    case ShiftIn =>
      FoldOne(StepCp, p, [], 0x0f);
      FoldOne(XStep, x, [], 0x0f);
      Shifted(p, x);
  }

  lemma DesignateAtGround(p: Tracker, x: X, slot: nat)
    requires 0x28 <= slot <= 0x2b && p.state == Ground && x.state == Idle && x.inter == [] && x.params == []
    ensures Steps(p, [0x1b, slot, 0x42]) == p
    ensures Parse(x, [0x1b, slot, 0x42]) == Log(x, EscSeq([slot], 0x42))
  {
    hide XStep, StepCp, Fold;
    var one: seq<nat>, two: seq<nat>, s: seq<nat> := [0x1b], [0x1b, slot], [0x1b, slot, 0x42];
    assert s == two + [0x42] && two == one + [slot];
    FoldOne(StepCp, p, [], 0x1b);
    FoldOne(StepCp, p, one, slot);
    FoldOne(StepCp, p, two, 0x42);
    FoldOne(XStep, x, [], 0x1b);
    FoldOne(XStep, x, one, slot);
    FoldOne(XStep, x, two, 0x42);
    Designated(p, x, slot);
  }

  lemma Designated(p: Tracker, x: X, slot: nat)
    requires 0x28 <= slot <= 0x2b && p.state == Ground && x.state == Idle && x.inter == [] && x.params == []
    ensures StepCp(StepCp(StepCp(p, 0x1b), slot), 0x42) == p
    ensures XStep(XStep(XStep(x, 0x1b), slot), 0x42) == Log(x, EscSeq([slot], 0x42))
  {
    var none: seq<nat> := [];
    assert none + [slot] == [slot];
  }

  lemma Shifted(p: Tracker, x: X)
    requires p.state == Ground && x.state == Idle && x.inter == [] && x.params == []
    ensures StepCp(p, 0x0f) == p && XStep(x, 0x0f) == Log(x, Control(0x0f))
  {
  }

  lemma {:induction false} PiecesAtGround(p: Tracker, x: X, ps: seq<Piece>)
    requires forall i :: 0 <= i < |ps| ==> Sound(ps[i])
    requires p.state == Ground && x.state == Idle && x.inter == [] && x.params == []
    ensures Steps(p, SpellAll(ps)) == p
    ensures Parse(x, SpellAll(ps)) == x.(log := x.log + Actions(ps))
    decreases |ps|
  {
    hide StepCp, XStep, Spell;
    if ps != [] {
      var k := |ps| - 1;
      PiecesAtGround(p, x, ps[..k]);
      FoldConcat(StepCp, p, SpellAll(ps[..k]), Spell(ps[k]));
      FoldConcat(XStep, x, SpellAll(ps[..k]), Spell(ps[k]));
      PieceAtGround(p, Parse(x, SpellAll(ps[..k])), ps[k]);
      assert x.log + Actions(ps[..k]) + [ActionOf(ps[k])] == x.log + Actions(ps);
    }
  }

  lemma {:induction false} PreludeIdles(x: X)
    requires Clean(x)
    ensures Parse(x, PRELUDE) == X(Idle, [], [], x.log + Cancelling(x) + Actions(PIECES))
  {
    hide XStep, StepCp;
    FoldConcat(XStep, x, CANCELLED, SpellAll(PIECES));
    FoldOne(XStep, x, [], CANCEL);
    CancelIdles(x, ZERO);
    PiecesAtGround(ZERO, XStep(x, CANCEL), PIECES);
  }

  /** From wherever the browser was, in the middle of a character or a sequence, the prelude brings it
      to idle, and it reads what follows as a browser that starts there. */
  lemma {:induction false} PreludeSyncs(w: Browser, body: seq<Byte>)
    requires Clean(w.x)
    ensures var y := ReceiveAll(w, PreludeBytes());
            && y == Browser(X(Idle, [], [], w.x.log + Cancelling(w.x) + Actions(PIECES)), NO_CHAR)
            && ReceiveAll(w, PreludeBytes() + body) == AfterAll(ReceiveAll(START, body), y.x.log)
  {
    hide Receive;
    PiecesAscii(PIECES);
    ReceiveAscii(w, PRELUDE);
    PreludeIdles(w.x);
    var y := ReceiveAll(w, PreludeBytes());
    FoldConcat(Receive, w, PreludeBytes(), body);
    ReceiveMore(START, y.x.log, body);
    assert AfterAll(START, y.x.log) == y by {
      assert y.x.log + [] == y.x.log;
    }
  }

  /** A mode is what the last piece that lists it says. */
  lemma {:induction false} PieceModes(log: seq<Action>, ps: seq<Piece>, mode: ModeName, on: bool)
    requires ps != []
    ensures Mode(log + Actions(ps), mode, on) ==
              var last := Switch(ActionOf(ps[|ps| - 1]), mode);
              if last.Some? then last.value else Mode(log + Actions(ps[..|ps| - 1]), mode, on)
  {
    hide Switch;
    var k := |ps| - 1;
    var all := log + Actions(ps);
    assert all[..|all| - 1] == log + Actions(ps[..k]) && all[|all| - 1] == ActionOf(ps[k]);
  }

  /** The modes that PIECES switch: private modes 1049 and 6 off and 7 on, mode 4 off and 20 on. */
  function Reset(mode: ModeName): Option<bool> {
    if mode in [Private(1049), Private(6), Ansi(4)] then Some(false)
    else if mode in [Private(7), Ansi(20)] then Some(true)
    else None
  }

  lemma FieldsAre()
    ensures Fields([]) == [0] && Fields([0x36]) == [6] && Fields([0x37]) == [7] && Fields([0x34]) == [4]
    ensures Fields([0x32, 0x30]) == [20] && Fields([0x31, 0x30, 0x34, 0x39]) == [1049]
  {
    FieldsMore([], 0, 0x36);
    FieldsMore([], 0, 0x37);
    FieldsMore([], 0, 0x34);
    FieldsMore([], 0, 0x32);
    FieldsMore([] + [0x32], 2, 0x30);
    FieldsMore([], 0, 0x31);
    FieldsMore([] + [0x31], 1, 0x30);
    FieldsMore([] + [0x31] + [0x30], 10, 0x34);
    FieldsMore([] + [0x31] + [0x30] + [0x34], 104, 0x39);
    assert [] + [0x31] + [0x30] + [0x34] + [0x39] == [0x31, 0x30, 0x34, 0x39];
    assert [] + [0x32] + [0x30] == [0x32, 0x30];
  }

  /** After the prelude's bytes, wherever the browser was: the normal screen, absolute addressing, autowrap on,
      insert off, line feed returning the carriage; no other mode is touched. */
  lemma {:induction false} PreludeModes(w: Browser, mode: ModeName, on: bool)
    requires Clean(w.x)
    ensures Mode(ReceiveAll(w, PreludeBytes()).x.log, mode, on)
         == if Reset(mode).Some? then Reset(mode).value else Mode(w.x.log, mode, on)
  {
    hide ReceiveAll, Mode, Fields, PreludeBytes;
    PreludeSyncs(w, []);
    var start := w.x.log + Cancelling(w.x);
    CancelSwitches(w.x, mode, on);
    PiecesReset(start, mode, on);
  }

  lemma CancelSwitches(x: X, mode: ModeName, on: bool)
    ensures Mode(x.log + Cancelling(x), mode, on) == Mode(x.log, mode, on)
  {
    if x.state.InString? {
      assert x.log + [] == x.log;
    } else {
      assert (x.log + [Control(0x18)])[..|x.log|] == x.log;
    }
  }

  lemma CancelIdles(x: X, p: Tracker)
    requires Clean(x)
    ensures XStep(x, CANCEL) == X(Idle, [], [], x.log + Cancelling(x))
    ensures StepCp(p, CANCEL) == p.(state := Ground)
  {
  }

  /** What each piece does to a mode. */
  function PieceSwitch(mode: ModeName, k: nat): Option<bool>
    requires k < 15
  {
    Switch(ActionOf(PIECES[k]), mode)
  }

  lemma EachSwitches(mode: ModeName, k: nat)
    requires k < 15
    ensures PieceSwitch(mode, k) == if k == 0 && mode == Private(1049) then Some(false)
                                    else if k == 2 && mode == Private(6) then Some(false)
                                    else if k == 3 && mode == Private(7) then Some(true)
                                    else if k == 4 && mode == Ansi(4) then Some(false)
                                    else if k == 5 && mode == Ansi(20) then Some(true)
                                    else None
  {
    hide Fields;
    FieldsAre();
    assert [0x3f, 0x31, 0x30, 0x34, 0x39][1..] == [0x31, 0x30, 0x34, 0x39];
    assert [0x3f, 0x36][1..] == [0x36] && [0x3f, 0x37][1..] == [0x37];
  }

  /** What the first `k` pieces leave a mode as, if they switch it. */
  function Left(mode: ModeName, k: nat): Option<bool>
    requires k <= 15
  {
    if k == 0 then None else if PieceSwitch(mode, k - 1).Some? then PieceSwitch(mode, k - 1) else Left(mode, k - 1)
  }

  lemma {:induction false} LeftIs(mode: ModeName, k: nat)
    requires k <= 15
    ensures Left(mode, k) == if mode == Private(1049) && k > 0 then Some(false)
                             else if mode == Private(6) && k > 2 then Some(false)
                             else if mode == Private(7) && k > 3 then Some(true)
                             else if mode == Ansi(4) && k > 4 then Some(false)
                             else if mode == Ansi(20) && k > 5 then Some(true)
                             else None
  {
    hide PieceSwitch;
    if k > 0 {
      EachSwitches(mode, k - 1);
      LeftIs(mode, k - 1);
    }
  }

  lemma {:induction false} UpTo(log: seq<Action>, mode: ModeName, on: bool, k: nat)
    requires k <= 15
    ensures Mode(log + Actions(PIECES[..k]), mode, on) == if Left(mode, k).Some? then Left(mode, k).value else Mode(log, mode, on)
  {
    hide Mode, Switch;
    if k == 0 {
      assert log + Actions(PIECES[..0]) == log;
    } else {
      UpTo(log, mode, on, k - 1);
      PieceModes(log, PIECES[..k], mode, on);
      assert PIECES[..k][..k - 1] == PIECES[..k - 1];
    }
  }

  lemma {:induction false} PiecesReset(log: seq<Action>, mode: ModeName, on: bool)
    ensures Mode(log + Actions(PIECES), mode, on) == if Reset(mode).Some? then Reset(mode).value else Mode(log, mode, on)
  {
    hide Mode, Actions, PieceSwitch, Left;
    LeftIs(mode, 15);
    UpTo(log, mode, on, 15);
    assert PIECES[..15] == PIECES;
  }

  // ---- trackers that answer alike ----

  /** The two trackers differ at most in what no later byte can bring out. */
  predicate Alike(p: Tracker, q: Tracker) {
    && p.state == q.state
    && (p.state == Str ==> p.osc == q.osc)
    && (p.state == Utf8 ==>
          p.need == q.need && p.cp == q.cp && p.from == q.from && p.from != Utf8 && (p.from == Str ==> p.osc == q.osc))
  }

  lemma AlikeStep(p: Tracker, q: Tracker, r: nat)
    requires Alike(p, q) && p.state != Utf8
    ensures Alike(StepCp(p, r), StepCp(q, r)) && StepCp(p, r).state != Utf8
  {
  }

  lemma AlikeByte(p: Tracker, q: Tracker, c: Byte)
    requires Alike(p, q)
    ensures Alike(FeedByte(p, c), FeedByte(q, c))
  {
    hide StepCp;
    if p.state != Utf8 {
      AlikeStep(p, q, c);
    } else {
      AlikeStep(p.(state := p.from), q.(state := q.from), c);
      var cp := p.cp * 64 + c % 64;
      AlikeStep(p.(state := p.from, need := 0, cp := cp), q.(state := q.from, need := 0, cp := cp), cp);
    }
  }

  lemma {:induction false} AlikeFeed(p: Tracker, q: Tracker, b: seq<Byte>)
    requires Alike(p, q)
    ensures Alike(Feed(p, b), Feed(q, b))
    decreases |b|
  {
    if b != [] {
      AlikeFeed(p, q, b[..|b| - 1]);
      AlikeByte(Feed(p, b[..|b| - 1]), Feed(q, b[..|b| - 1]), b[|b| - 1]);
    }
  }

  lemma {:induction false} FeedAscii(p: Tracker, rs: seq<nat>)
    requires p.state != Utf8 && forall i :: 0 <= i < |rs| ==> rs[i] < 128
    ensures Feed(p, Bytes(rs)) == Steps(p, rs) && Steps(p, rs).state != Utf8
    decreases |rs|
  {
    if rs != [] {
      var k := |rs| - 1;
      FeedAscii(p, rs[..k]);
      assert Bytes(rs)[..k] == Bytes(rs[..k]);
      StepCore(Steps(p, rs[..k]), Steps(p, rs[..k]), rs[k]);
    }
  }

  lemma PieceAscii(p: Piece)
    requires Sound(p)
    ensures forall i :: 0 <= i < |Spell(p)| ==> Spell(p)[i] < 128
  {
    match p
    case Sequence(params, final) =>
      forall i | 0 <= i < |Spell(p)|
        ensures Spell(p)[i] < 128
      {
        if 2 <= i < 2 + |params| {
          assert Spell(p)[i] == params[i - 2];
        }
      }
    case Designate(slot) =>
    case ShiftIn =>
  }

  lemma {:induction false} PiecesAscii(ps: seq<Piece>)
    requires forall i :: 0 <= i < |ps| ==> Sound(ps[i])
    ensures forall i :: 0 <= i < |SpellAll(ps)| ==> SpellAll(ps)[i] < 128
    decreases |ps|
  {
    if ps != [] {
      PiecesAscii(ps[..|ps| - 1]);
      PieceAscii(ps[|ps| - 1]);
    }
  }

  /** The prelude as bytes. */
  function PreludeBytes(): (b: seq<Byte>)
    ensures |b| == |PRELUDE|
  {
    PiecesAscii(PIECES);
    Bytes(PRELUDE)
  }

  /** Resetting the tracker before a restore is sound: from any position it would end up alike. */
  lemma {:induction false} ResetIsSound(p: Tracker, body: seq<Byte>)
    requires Alike(p, p)
    ensures Feed(p, PreludeBytes()).state == Ground
    ensures Alike(Feed(p, PreludeBytes() + body), Feed(ZERO, PreludeBytes() + body))
  {
    hide FeedByte, StepCp;
    PreludeGrounds(p);
    PreludeGrounds(ZERO);
    FoldConcat(FeedByte, p, PreludeBytes(), body);
    FoldConcat(FeedByte, ZERO, PreludeBytes(), body);
    AlikeFeed(Feed(p, PreludeBytes()), Feed(ZERO, PreludeBytes()), body);
  }

  lemma {:induction false} PreludeGrounds(p: Tracker)
    requires Alike(p, p)
    ensures Feed(p, PreludeBytes()).state == Ground
  {
    PiecesAscii(PIECES);
    var rest := SpellAll(PIECES);
    var first: seq<Byte> := [CANCEL];
    assert PreludeBytes() == first + Bytes(rest);
    FoldConcat(FeedByte, p, first, Bytes(rest));
    FoldOne(FeedByte, p, [], CANCEL);
    var q := FeedByte(p, CANCEL);
    assert q.state == Ground;
    FeedAscii(q, rest);
    PiecesAtGround(q, X_START, PIECES);
  }

  // ---- the writer ----

  datatype Late = NoLate | Late(on: bool)

  /** An answer was inserted after `at` bytes had been sent, `own` of them the stream's since the last
      restore. */
  datatype Cut = Cut(at: nat, on: bool, own: seq<Byte>)

  /** From one browser to the other bracketed paste is switched as asked, and no other mode. */
  ghost predicate PasteTurned(before: Browser, after: Browser, paste: bool) {
    forall mode: ModeName, on: bool ::
      Mode(after.x.log, mode, on) == if mode == Private(2004) then paste else Mode(before.x.log, mode, on)
  }

  /** What was sent up to the insertion left the browser between sequences, and the inserted bytes were
      one whole sequence to it that turns bracketed paste as asked; for streams on which the tracker never
      slips. */
  ghost predicate Whole(browser: Browser, sent: seq<Byte>, cut: Cut) {
    && cut.at + |PasteBytes(cut.on)| <= |sent|
    && (NoSlip(cut.own) ==>
          var w := ReceiveAll(browser, sent[..cut.at]);
          && w.x.state == Idle && w.dec == NO_CHAR
          && ReceiveAll(browser, sent[..cut.at + |PasteBytes(cut.on)|]) == w.(x := Log(w.x, PasteAction(cut.on)))
          && PasteTurned(w, ReceiveAll(browser, sent[..cut.at + |PasteBytes(cut.on)|]), cut.on))
  }

  ghost predicate AllWhole(browser: Browser, sent: seq<Byte>, cuts: seq<Cut>) {
    forall i :: 0 <= i < |cuts| ==> Whole(browser, sent, cuts[i])
  }

  lemma MoreSent(browser: Browser, sent: seq<Byte>, more: seq<Byte>, cuts: seq<Cut>)
    requires AllWhole(browser, sent, cuts)
    ensures AllWhole(browser, sent + more, cuts)
  {
    hide ReceiveAll, NoSlip;
    forall i | 0 <= i < |cuts|
      ensures Whole(browser, sent + more, cuts[i])
    {
      assert Whole(browser, sent, cuts[i]);
      WholeLater(browser, sent, more, cuts[i]);
    }
  }

  lemma WholeLater(browser: Browser, sent: seq<Byte>, more: seq<Byte>, cut: Cut)
    requires Whole(browser, sent, cut)
    ensures Whole(browser, sent + more, cut)
  {
    hide ReceiveAll, NoSlip;
    var end := cut.at + |PasteBytes(cut.on)|;
    assert (sent + more)[..cut.at] == sent[..cut.at] && (sent + more)[..end] == sent[..end];
  }

  /** Two browsers at the same place, whatever they have handed on. */
  predicate SamePlace(a: Browser, b: Browser) {
    a.(x := a.x.(log := [])) == b.(x := b.x.(log := []))
  }

  lemma SamePlaceMore(a: Browser, b: Browser, more: seq<Byte>)
    requires SamePlace(a, b)
    ensures SamePlace(ReceiveAll(a, more), ReceiveAll(b, more))
  {
    hide Receive;
    var bare := a.(x := a.x.(log := []));
    ReceiveMore(bare, a.x.log, more);
    ReceiveMore(bare, b.x.log, more);
    AfterBare(a.x);
    AfterBare(b.x);
  }

  lemma SlipsLater(b: seq<Byte>, more: seq<Byte>)
    requires NoSlip(b + more)
    ensures NoSlip(b)
  {
    NoSlipPrefix(b + more, |b|);
    assert (b + more)[..|b|] == b;
  }

  lemma PasteTurns(w: Browser, paste: bool)
    ensures PasteTurned(w, w.(x := Log(w.x, PasteAction(paste))), paste)
  {
    hide Mode;
    forall mode: ModeName, on: bool
      ensures Mode(Log(w.x, PasteAction(paste)).log, mode, on) == if mode == Private(2004) then paste else Mode(w.x.log, mode, on)
    {
      PasteSwitches(w.x.log, paste, mode, on);
    }
  }

  class WsWriter {
    const boundary: ParserBoundary  // the browser parser's position in what this connection sent
    var latePaste: Late             // an answer waiting for the parser to reach ground

    ghost var sent: seq<Byte>       // every binary byte written to the socket
    ghost var own: seq<Byte>        // the stream's own bytes since the last restore
    ghost var cuts: seq<Cut>        // the answers inserted
    ghost const browser: Browser    // where the browser was when the connection began

    ghost predicate Valid()
      reads this, boundary
    {
      && Clean(browser.x)
      && boundary.Now() == Feed(ZERO, own)
      && (NoSlip(own) ==> SamePlace(ReceiveAll(browser, sent), ReceiveAll(START, own)))
      && AllWhole(browser, sent, cuts)
    }

    /** A connection begins with a restore, wherever the browser was. */
    constructor (body: seq<Byte>, ghost browser: Browser)
      requires Clean(browser.x)
      ensures Valid() && fresh(boundary) && latePaste == NoLate && cuts == []
      ensures sent == own == PreludeBytes() + body && this.browser == browser
    {
      hide ReceiveAll, NoSlip, Feed;
      var b := new ParserBoundary();
      var replay := PreludeBytes() + body;
      b.FeedBytes(replay);
      RestoredAlike(browser, body);
      this.boundary, latePaste, sent, own, cuts, this.browser := b, NoLate, replay, replay, [], browser;
    }

    /** The viewer is brought to the present again. */
    method Restore(body: seq<Byte>)
      requires Valid()
      modifies this, boundary
      ensures Valid() && latePaste == old(latePaste) && cuts == old(cuts)
      ensures sent == old(sent) + PreludeBytes() + body && own == PreludeBytes() + body
    {
      hide PreludeBytes, FeedByte, Receive, Fold, NoSlip, AllWhole;
      var replay := PreludeBytes() + body;
      ghost var before := ReceiveAll(browser, sent);
      StaysClean(browser, sent);
      RestoredAlike(before, body);
      FoldConcat(Receive, browser, sent, replay);
      boundary.Reset();
      boundary.FeedBytes(replay);
      assert old(sent) + replay == old(sent) + PreludeBytes() + body;
      MoreSent(browser, sent, replay, cuts);
      sent, own := sent + replay, replay;
    }

    /** Sends the answer where the tracker is at ground. */
    method Insert(on: bool)
      requires Valid() && boundary.AtGround()
      modifies this
      ensures Valid() && own == old(own) && latePaste == NoLate
      ensures sent == old(sent) + PasteBytes(on) && cuts == old(cuts) + [Cut(|old(sent)|, on, own)]
    {
      hide Feed, ReceiveAll, NoSlip, Joined;
      InsertedWhole(on);
      MoreSent(browser, sent, PasteBytes(on), cuts);
      cuts := cuts + [Cut(|sent|, on, own)];
      sent := sent + PasteBytes(on);
      latePaste := NoLate;
    }

    /** At ground the browser takes the answer as one sequence and is where it was. */
    lemma InsertedWhole(on: bool)
      requires Valid() && boundary.AtGround()
      ensures Whole(browser, sent + PasteBytes(on), Cut(|sent|, on, own))
      ensures NoSlip(own) ==> SamePlace(ReceiveAll(browser, sent + PasteBytes(on)), ReceiveAll(START, own))
    {
      hide FeedByte, Receive, Fold, NoSlip, Joined;
      var all, w := sent + PasteBytes(on), ReceiveAll(browser, sent);
      assert all[..|sent|] == sent && all[..|sent| + |PasteBytes(on)|] == all;
      FoldConcat(Receive, browser, sent, PasteBytes(on));
      if NoSlip(own) {
        JoinedAlong(own);
        JoinedBelieved(ReceiveAll(START, own), Feed(ZERO, own));
        StaysClean(browser, sent);
        PasteRead(w, on);
        PasteTurns(w, on);
      }
    }

    /** The late answer arrives: sent at once at ground, kept otherwise. */
    method Answer(on: bool)
      requires Valid()
      modifies this
      ensures Valid() && own == old(own)
      ensures if boundary.AtGround()
              then latePaste == NoLate && sent == old(sent) + PasteBytes(on) && cuts == old(cuts) + [Cut(|old(sent)|, on, own)]
              else latePaste == Late(on) && sent == old(sent) && cuts == old(cuts)
    {
      if boundary.AtGround() {
        Insert(on);
      } else {
        latePaste := Late(on);
      }
    }

    /** One frame of live output; a waiting answer follows it as soon as the parser is at ground. */
    method Output(payload: seq<Byte>)
      requires Valid()
      modifies this, boundary
      ensures Valid() && own == old(own) + payload
      ensures latePaste.Late? ==> !boundary.AtGround() && latePaste == old(latePaste)
      ensures if old(latePaste).Late? && boundary.AtGround()
              then sent == old(sent) + payload + PasteBytes(old(latePaste).on)
                   && cuts == old(cuts) + [Cut(|old(sent) + payload|, old(latePaste).on, own)]
              else sent == old(sent) + payload && cuts == old(cuts)
    {
      hide Fold, FeedByte, Receive, NoSlip, AllWhole;
      FoldConcat(FeedByte, ZERO, own, payload);
      FoldConcat(Receive, browser, sent, payload);
      FoldConcat(Receive, START, own, payload);
      if NoSlip(own + payload) {
        SlipsLater(own, payload);
        SamePlaceMore(ReceiveAll(browser, sent), ReceiveAll(START, own), payload);
      }
      MoreSent(browser, sent, payload, cuts);
      boundary.FeedBytes(payload);
      sent, own := sent + payload, own + payload;
      if latePaste.Late? && boundary.AtGround() {
        Insert(latePaste.on);
      }
    }

    /** Every insertion into a stream of well-formed text without U+FEFF found the browser between
        sequences, was one whole sequence to it, and turned bracketed paste as asked and no other mode. */
    lemma InsertionsWhole(i: nat, rs: seq<Scalar>)
      requires Valid() && i < |cuts| && cuts[i].own == EncodeAll(rs) && BYTE_ORDER_MARK !in rs
      ensures var cut := cuts[i];
              && cut.at + |PasteBytes(cut.on)| <= |sent|
              && var w := ReceiveAll(browser, sent[..cut.at]);
              && w.x.state == Idle && w.dec == NO_CHAR
              && ReceiveAll(browser, sent[..cut.at + |PasteBytes(cut.on)|]) == w.(x := Log(w.x, PasteAction(cut.on)))
              && PasteTurned(w, ReceiveAll(browser, sent[..cut.at + |PasteBytes(cut.on)|]), cut.on)
    {
      hide ReceiveAll, NoSlip, EncodeAll;
      CleanText(rs);
      assert Whole(browser, sent, cuts[i]);
    }
  }

  lemma RestoredAlike(w: Browser, body: seq<Byte>)
    requires Clean(w.x)
    ensures SamePlace(ReceiveAll(w, PreludeBytes() + body), ReceiveAll(START, PreludeBytes() + body))
  {
    hide ReceiveAll;
    PreludeSyncs(w, body);
    PreludeSyncs(START, body);
  }
}
