/** Where in a byte stream something else may be inserted: the tracker of the browser parser's position. */
module Boundary {
  import opened Common
  import opened Folds

  datatype State = Ground | Escape | Csi | Str | StrEsc | Utf8

  /** The tracker: `osc` says which kind of string, the rest assembles one character. */
  datatype Tracker = Tracker(state: State, osc: bool, need: nat, cp: nat, from: State)

  const ZERO := Tracker(Ground, false, 0, 0, Ground)

  /** After ESC. */
  function EscapeStep(p: Tracker, r: nat): Tracker {
    if r < 0x20 || r == 0x7f then p
    else if r == 0x5b then p.(state := Csi)
    else if r in [0x5d, 0x50, 0x58, 0x5e, 0x5f] then p.(state := Str, osc := r == 0x5d)
    else if 0x20 <= r <= 0x2f then p
    else p.(state := Ground)
  }

  /** One code point through the escape-sequence state machine. */
  function StepCp(p: Tracker, r: nat): Tracker {
    if r == 0x18 || r == 0x1a then p.(state := Ground)
    else if r == 0x1b then p.(state := if p.state == Str then StrEsc else Escape)
    else if r == 0x9b then p.(state := Csi)
    else if r in [0x90, 0x98, 0x9d, 0x9e, 0x9f] then p.(state := Str, osc := r == 0x9d)
    else if 0x80 <= r <= 0x9f then p.(state := Ground)
    else match p.state
      case Escape => EscapeStep(p, r)
      case Csi => if 0x40 <= r <= 0x7e then p.(state := Ground) else p
      case Str => if r == 7 && p.osc then p.(state := Ground) else p
      case StrEsc => if r == 0x5c then p.(state := Ground) else EscapeStep(p.(state := Escape), r)
      case _ => p
  }

  /** A byte that is not inside a character: it stands alone, starts one, or is dropped. */
  function LeadByte(p: Tracker, c: Byte): Tracker {
    if c < 0x80 then StepCp(p, c)
    else if 0xc2 <= c <= 0xdf then Tracker(Utf8, p.osc, 1, c % 32, p.state)
    else if 0xe0 <= c <= 0xef then Tracker(Utf8, p.osc, 2, c % 16, p.state)
    else if 0xf0 <= c <= 0xf4 then Tracker(Utf8, p.osc, 3, c % 8, p.state)
    else p
  }

  function FeedByte(p: Tracker, c: Byte): Tracker {
    if p.state != Utf8 then LeadByte(p, c)
    else if !(0x80 <= c < 0xc0) then LeadByte(p.(state := p.from), c)
    else
      var cp := p.cp * 64 + c % 64;
      if p.need > 1 then p.(need := p.need - 1, cp := cp)
      else StepCp(p.(state := p.from, need := 0, cp := cp), cp)
  }

  function Feed(p: Tracker, b: seq<Byte>): Tracker {
    Fold(FeedByte, p, b)
  }

  /** The tracker as the program has it: fields updated byte by byte. */
  lemma NotYet(p: Tracker, b: seq<Byte>)
    ensures Feed(p, b[..0]) == p
  {
  }

  class ParserBoundary {
    var state: State
    var osc: bool
    var need: nat
    var cp: nat
    var from: State

    function Now(): Tracker
      reads this
    {
      Tracker(state, osc, need, cp, from)
    }

    constructor ()
      ensures Now() == ZERO
    {
      state, osc, need, cp, from := Ground, false, 0, 0, Ground;
    }

    method Step(r: nat)
      modifies this
      ensures Now() == StepCp(old(Now()), r)
    {
      if r == 0x18 || r == 0x1a {
        state := Ground;
        return;
      } else if r == 0x1b {
        state := if state == Str then StrEsc else Escape;
        return;
      } else if r == 0x9b {
        state := Csi;
        return;
      } else if r == 0x90 || r == 0x98 || r == 0x9d || r == 0x9e || r == 0x9f {
        state, osc := Str, r == 0x9d;
        return;
      } else if 0x80 <= r <= 0x9f {
        state := Ground;
        return;
      }
      match state {
        case Escape => StepEscape(r);
        case Csi =>
          if 0x40 <= r <= 0x7e {
            state := Ground;
          }
        case Str =>
          if r == 7 && osc {
            state := Ground;
          }
        case StrEsc =>
          if r == 0x5c {
            state := Ground;
          } else {
            state := Escape;
            StepEscape(r);
          }
        case _ =>
      }
    }

    method StepEscape(r: nat)
      modifies this
      ensures Now() == EscapeStep(old(Now()), r)
    {
      if r < 0x20 || r == 0x7f {
        return;
      }
      if r == 0x5b {
        state := Csi;
      } else if r == 0x5d || r == 0x50 || r == 0x58 || r == 0x5e || r == 0x5f {
        state, osc := Str, r == 0x5d;
      } else if !(0x20 <= r <= 0x2f) {
        state := Ground;
      }
    }

    method FeedBytes(b: seq<Byte>)
      modifies this
      ensures Now() == Feed(old(Now()), b)
    {
      hide Fold, StepCp;
      NotYet(Now(), b);
      for i := 0 to |b|
        invariant Now() == Feed(old(Now()), b[..i])
      {
        assert b[..i + 1] == b[..i] + [b[i]];
        FoldOne(FeedByte, old(Now()), b[..i], b[i]);
        var c := b[i];
        if state == Utf8 {
          if 0x80 <= c < 0xc0 {
            cp := cp * 64 + c % 64;
            if need > 1 {
              need := need - 1;
              continue;
            }
            need := 0;
            state := from;
            Step(cp);
            continue;
          }
          state := from;
        }
        if c < 0x80 {
          Step(c);
        } else if 0xc2 <= c <= 0xdf {
          from, state, need, cp := state, Utf8, 1, c % 32;
        } else if 0xe0 <= c <= 0xef {
          from, state, need, cp := state, Utf8, 2, c % 16;
        } else if 0xf0 <= c <= 0xf4 {
          from, state, need, cp := state, Utf8, 3, c % 8;
        }
      }
      assert b[..|b|] == b;
    }

    method Reset()
      modifies this
      ensures Now() == ZERO
    {
      state, osc, need, cp, from := Ground, false, 0, 0, Ground;
    }

    predicate AtGround()
      reads this
    {
      state == Ground
    }
  }

  // ---- bytes and code points ----

  /** A code point that has a UTF-8 form (section 3 of RFC 3629). */
  type Scalar = r: nat | r <= 0x10ffff && !(0xd800 <= r <= 0xdfff)

  /** The UTF-8 form of a code point: section 3 of RFC 3629. */
  function Encode(r: Scalar): seq<Byte> {
    if r < 0x80 then [r]
    else if r < 0x800 then [0xc0 + r / 64, 0x80 + r % 64]
    else if r < 0x10000 then [0xe0 + r / 4096, 0x80 + r / 64 % 64, 0x80 + r % 64]
    else [0xf0 + r / 262144, 0x80 + r / 4096 % 64, 0x80 + r / 64 % 64, 0x80 + r % 64]
  }

  function EncodeAll(rs: seq<Scalar>): seq<Byte>
    decreases |rs|
  {
    if rs == [] then [] else EncodeAll(rs[..|rs| - 1]) + Encode(rs[|rs| - 1])
  }

  /** What decides every later answer: the rest is left over from the last character assembled. */
  datatype Core = Core(state: State, osc: bool)

  function CoreOf(p: Tracker): Core {
    Core(p.state, p.osc)
  }

  lemma StepCore(p: Tracker, q: Tracker, r: nat)
    requires CoreOf(p) == CoreOf(q)
    ensures CoreOf(StepCp(p, r)) == CoreOf(StepCp(q, r))
    ensures p.state != Utf8 ==> StepCp(p, r).state != Utf8
  {
  }

  /** The bytes of one character move the tracker as its code point does. */
  lemma {:induction false} FeedChar(p: Tracker, r: Scalar)
    requires p.state != Utf8
    ensures CoreOf(Feed(p, Encode(r))) == CoreOf(StepCp(p, r))
    ensures Feed(p, Encode(r)).state != Utf8
  {
    var b := Encode(r);
    if r < 0x80 {
      FoldOne(FeedByte, p, [], b[0]);
      StepCore(p, p, r);
    } else {
      var p1 := LeadByte(p, b[0]);
      assert b[..1] == [] + [b[0]];
      FoldOne(FeedByte, p, [], b[0]);
      FirstByte(p, r);
      FeedTail(p, p1, r, b, 1);
    }
  }

  /** The first byte says how many follow and carries the top bits. */
  lemma FirstBits(r: Scalar)
    requires r >= 0x80
    ensures var b := Encode(r);
            || (|b| == 2 && 0xc2 <= b[0] <= 0xdf && b[0] % 32 == r / 64)
            || (|b| == 3 && 0xe0 <= b[0] <= 0xef && b[0] % 16 == r / 4096)
            || (|b| == 4 && 0xf0 <= b[0] <= 0xf4 && b[0] % 8 == r / 262144)
  {
  }

  lemma FirstByte(p: Tracker, r: Scalar)
    requires p.state != Utf8 && r >= 0x80
    ensures var b := Encode(r); var q := LeadByte(p, b[0]);
            && |b| > 1 && q.state == Utf8 && q.from == p.state && q.osc == p.osc && q.need == |b| - 1
            && q.cp == r / Pow64(|b| - 1)
  {
    FirstBits(r);
    hide Encode, StepCp;
  }

  function Pow64(n: nat): (p: nat)
    ensures p > 0
  {
    if n == 0 then 1 else if n == 1 then 64 else if n == 2 then 4096 else 262144
  }

  /** The continuation bytes carry the code point six bits at a time. */
  lemma TailBits(r: Scalar, k: nat)
    requires 1 <= k < |Encode(r)|
    ensures var m := |Encode(r)| - k - 1;
            && Encode(r)[k] == 0x80 + r / Pow64(m) % 64
            && r / Pow64(m + 1) * 64 + r / Pow64(m) % 64 == r / Pow64(m)
  {
  }

  lemma TailByte(q: Tracker, c: Byte, low: nat)
    requires q.state == Utf8 && low < 64 && c == 0x80 + low
    ensures FeedByte(q, c) == if q.need > 1 then q.(need := q.need - 1, cp := q.cp * 64 + low)
                              else StepCp(q.(state := q.from, need := 0, cp := q.cp * 64 + low), q.cp * 64 + low)
  {
  }

  /** What the first `k` bytes of a character have assembled. */
  lemma {:induction false} FeedTail(p: Tracker, q: Tracker, r: Scalar, b: seq<Byte>, k: nat)
    requires p.state != Utf8 && b == Encode(r) && r >= 0x80 && 1 <= k < |b|
    requires q.state == Utf8 && q.from == p.state && q.osc == p.osc && q.need == |b| - k
    requires q.cp == r / Pow64(|b| - k) && Feed(p, b[..k]) == q
    ensures CoreOf(Feed(p, b)) == CoreOf(StepCp(p, r)) && Feed(p, b).state != Utf8
    decreases |b| - k
  {
    var c := b[k];
    TailBits(r, k);
    TailByte(q, c, r / Pow64(|b| - k - 1) % 64);
    hide Encode, Pow64, StepCp, FeedByte;
    assert b[..k + 1] == b[..k] + [c];
    FoldOne(FeedByte, p, b[..k], c);
    if k + 1 < |b| {
      FeedTail(p, FeedByte(q, c), r, b, k + 1);
    } else {
      assert b[..k + 1] == b;
      assert r / Pow64(0) == r by { PowZero(r); }
      StepCore(p, q.(state := q.from, need := 0, cp := r), r);
    }
  }

  lemma PowZero(r: nat)
    ensures r / Pow64(0) == r
  {
  }

  /** The tracker run over code points. */
  function Steps(p: Tracker, rs: seq<nat>): Tracker {
    Fold(StepCp, p, rs)
  }

  lemma StepsOne(p: Tracker, rs: seq<nat>)
    requires rs != []
    ensures Steps(p, rs) == StepCp(Steps(p, rs[..|rs| - 1]), rs[|rs| - 1])
  {
  }

  /** Any well-formed text, cut into chunks anywhere: the tracker stands where its code points lead. */
  lemma {:induction false} FeedText(p: Tracker, rs: seq<Scalar>)
    requires p.state != Utf8
    ensures CoreOf(Feed(p, EncodeAll(rs))) == CoreOf(Steps(p, rs))
    ensures Feed(p, EncodeAll(rs)).state != Utf8
    decreases |rs|
  {
    hide StepCp, FeedByte, Encode;
    if rs != [] {
      var k := |rs| - 1;
      FeedText(p, rs[..k]);
      FoldConcat(FeedByte, p, EncodeAll(rs[..k]), Encode(rs[k]));
      var q := Feed(p, EncodeAll(rs[..k]));
      FeedChar(q, rs[k]);
      StepCore(q, Steps(p, rs[..k]), rs[k]);
      StepsOne(p, rs);
    }
  }

  function Concat(chunks: seq<seq<Byte>>): seq<Byte>
    decreases |chunks|
  {
    if chunks == [] then [] else Concat(chunks[..|chunks| - 1]) + chunks[|chunks| - 1]
  }

  /** Where the stream is cut does not matter. */
  lemma {:induction false} FeedChunks(p: Tracker, chunks: seq<seq<Byte>>)
    ensures Fold(Feed, p, chunks) == Feed(p, Concat(chunks))
    decreases |chunks|
  {
    if chunks != [] {
      var k := |chunks| - 1;
      FeedChunks(p, chunks[..k]);
      FoldConcat(FeedByte, p, Concat(chunks[..k]), chunks[k]);
    }
  }
}
