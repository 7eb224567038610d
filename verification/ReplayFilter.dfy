/** Clipboard writes are side effects of the moment they were made: historical ones are taken out of
    a replay that arrives in chunks. */
module ReplayFilter {
  import opened Common
  import opened Folds

  const ESC: Byte := 0x1b
  const BEL: Byte := 7
  const BACKSLASH: Byte := 0x5c

  /** ESC ] 5 2 ; */
  const MARKER: seq<Byte> := [0x1b, 0x5d, 0x35, 0x32, 0x3b]

  /** The filter's fields, and everything it has let through. */
  datatype Filter = Filter(prefix: seq<Byte>, discard: bool, escaped: bool, out: seq<Byte>)

  const FRESH := Filter([], false, false, [])

  /** One byte, and whether it belongs to the replayed history. */
  datatype Event = Event(b: Byte, historical: bool)

  /** A byte that is part of no marker so far. */
  function PassByte(f: Filter, e: Event): Filter {
    if e.historical && e.b == ESC then f.(prefix := [e.b]) else f.(out := f.out + [e.b])
  }

  function FeedByte(f: Filter, e: Event): Filter {
    if f.discard then
      if e.b == BEL || (f.escaped && e.b == BACKSLASH) then f.(discard := false, escaped := false)
      else f.(escaped := e.b == ESC)
    else if 0 < |f.prefix| < |MARKER| && e.b == MARKER[|f.prefix|] then
      var p := f.prefix + [e.b];
      if |p| == |MARKER| then f.(prefix := [], discard := true) else f.(prefix := p)
    else PassByte(f.(out := f.out + f.prefix, prefix := []), e)
  }

  function Events(data: seq<Byte>, historical: bool): seq<Event> {
    seq(|data|, i requires 0 <= i < |data| => Event(data[i], historical))
  }

  lemma NothingFed(f: Filter)
    ensures Fold(FeedByte, f, []) == f
  {
  }

  class ReplayClipboardFilter {
    var prefix: seq<Byte>
    var discard: bool
    var escaped: bool

    function Now(out: seq<Byte>): Filter
      reads this
    {
      Filter(prefix, discard, escaped, out)
    }

    ghost predicate Valid()
      reads this
    {
      |prefix| < |MARKER| && (prefix != [] ==> !discard) && (!discard ==> !escaped)
    }

    constructor ()
      ensures Valid() && Now([]) == FRESH
    {
      prefix, discard, escaped := [], false, false;
    }

    /** Filters one chunk and returns what may go on. */
    method Feed(data: seq<Byte>, historical: bool) returns (out: seq<Byte>)
      requires Valid()
      modifies this
      ensures Valid()
      ensures Now(out) == Fold(FeedByte, old(Now([])), Events(data, historical))
    {
      hide Fold;
      ghost var es := Events(data, historical);
      ghost var start := Now([]);
      if !historical && prefix == [] && !discard {
        PassAll(start, data);
        return data;
      }
      out := [];
      NothingFed(start);
      assert es[..0] == [];
      for i := 0 to |data|
        invariant Valid()
        invariant Now(out) == Fold(FeedByte, start, es[..i])
      {
        assert es[..i + 1] == es[..i] + [es[i]];
        FoldOne(FeedByte, start, es[..i], es[i]);
        var b := data[i];
        if discard {
          if b == BEL || (escaped && b == BACKSLASH) {
            discard, escaped := false, false;
          } else {
            escaped := b == ESC;
          }
          continue;
        }
        if |prefix| > 0 {
          if b == MARKER[|prefix|] {
            prefix := prefix + [b];
            if |prefix| == |MARKER| {
              prefix, discard := [], true;
            }
            continue;
          }
          out := out + prefix;
          prefix := [];
        }
        if historical && b == ESC {
          prefix := [b];
        } else {
          out := out + [b];
        }
      }
      assert es[..|data|] == es;
    }
  }

  /** Live data passes an idle filter unchanged. */
  lemma {:induction false} PassAll(f: Filter, data: seq<Byte>)
    requires f.prefix == [] && !f.discard
    ensures Fold(FeedByte, f, Events(data, false)) == f.(out := f.out + data)
    decreases |data|
  {
    if data == [] {
      assert f.out + data == f.out;
    } else {
      var k := |data| - 1;
      PassAll(f, data[..k]);
      assert Events(data, false)[..k] == Events(data[..k], false);
      assert f.out + data[..k] + [data[k]] == f.out + data;
    }
  }

  // ---- what is kept, told by positions of the whole stream ----

  /** The first `m` bytes of a marker stand at `i`. */
  predicate Matches(s: seq<Byte>, i: nat, m: nat) {
    && m <= |MARKER| && i + m <= |s|
    && forall k :: 0 <= k < m ==> s[i + k] == MARKER[k]
  }

  predicate MarkerAt(s: seq<Byte>, i: nat) {
    Matches(s, i, |MARKER|)
  }

  lemma MarkerIs(s: seq<Byte>, i: nat)
    ensures MarkerAt(s, i) <==> i + 5 <= |s| && s[i..i + 5] == [0x1b, 0x5d, 0x35, 0x32, 0x3b]
  {
    if i + 5 <= |s| {
      assert s[i..i + 5] == [s[i + 0], s[i + 1], s[i + 2], s[i + 3], s[i + 4]];
    }
  }

  datatype End = Never | Past(at: nat)

  /** Where a clipboard write whose body starts at `k` is over: past BEL, or past a backslash after ESC. */
  function BodyEnd(s: seq<Byte>, k: nat, escaped: bool): (e: End)
    ensures e.Past? ==> k < e.at <= |s|
    decreases if k < |s| then |s| - k else 0
  {
    if k >= |s| then Never
    else if s[k] == 0x07 || (escaped && s[k] == 0x5c) then Past(k + 1)
    else BodyEnd(s, k + 1, s[k] == 0x1b)
  }

  /** The positions kept from `i` on: everything outside a clipboard write whose ESC is one of the
      first `h`, the historical, bytes. */
  function Kept(s: seq<Byte>, h: nat, i: nat): (ps: seq<nat>)
    ensures forall k :: 0 <= k < |ps| ==> i <= ps[k] < |s|
    decreases if i < |s| then |s| - i else 0
  {
    if i >= |s| then []
    else if i < h && MarkerAt(s, i) then
      match BodyEnd(s, i + |MARKER|, false)
      case Never => []
      case Past(j) => Kept(s, h, j)
    else [i] + Kept(s, h, i + 1)
  }

  function BytesAt(s: seq<Byte>, ps: seq<nat>): seq<Byte>
    requires forall k :: 0 <= k < |ps| ==> ps[k] < |s|
  {
    seq(|ps|, k requires 0 <= k < |ps| => s[ps[k]])
  }

  /** The filter run over the stream from position `i`. */
  function Run(f: Filter, s: seq<Byte>, h: nat, i: nat): Filter
    decreases if i < |s| then |s| - i else 0
  {
    if i >= |s| then f else Run(FeedByte(f, Event(s[i], i < h)), s, h, i + 1)
  }

  /** Everything let through and what is still held back. */
  function Shown(f: Filter): seq<Byte> {
    f.out + f.prefix
  }

  lemma KeptHere(s: seq<Byte>, h: nat, i: nat)
    requires i < |s| && !(i < h && MarkerAt(s, i))
    ensures BytesAt(s, Kept(s, h, i)) == [s[i]] + BytesAt(s, Kept(s, h, i + 1))
  {
    assert Kept(s, h, i) == [i] + Kept(s, h, i + 1);
  }

  lemma NoMarkerInside(s: seq<Byte>, i: nat, m: nat)
    requires Matches(s, i, m) && 0 < m < |MARKER| && !MarkerAt(s, i)
    ensures !MarkerAt(s, i + m - 1)
  {
    assert s[i + (m - 1)] == MARKER[m - 1];
    if m > 1 {
      assert s[i + m - 1 + 0] != MARKER[0];
    }
  }

  /** Bytes of a marker that does not complete are kept one by one. */
  lemma {:induction false} KeptPartial(s: seq<Byte>, h: nat, i: nat, m: nat)
    requires m < |MARKER| && Matches(s, i, m) && !MarkerAt(s, i)
    ensures BytesAt(s, Kept(s, h, i)) == MARKER[..m] + BytesAt(s, Kept(s, h, i + m))
    decreases m
  {
    hide BytesAt, Kept;
    if m > 0 {
      var k := i + m - 1;
      KeptPartial(s, h, i, m - 1);
      NoMarkerInside(s, i, m);
      KeptHere(s, h, k);
      assert s[i + (m - 1)] == MARKER[m - 1];
      assert MARKER[..m] == MARKER[..m - 1] + [s[k]];
    } else {
      assert MARKER[..0] + BytesAt(s, Kept(s, h, i)) == BytesAt(s, Kept(s, h, i));
    }
  }

  lemma RunStep(f: Filter, s: seq<Byte>, h: nat, i: nat)
    requires i < |s|
    ensures Run(f, s, h, i) == Run(FeedByte(f, Event(s[i], i < h)), s, h, i + 1)
  {
  }

  /** What follows a write whose body is being discarded. */
  function AfterBody(s: seq<Byte>, h: nat, e: End): seq<Byte> {
    match e
    case Never => []
    case Past(j) => BytesAt(s, Kept(s, h, j))
  }

  /** Inside a write: nothing is kept until it is over. */
  lemma {:induction false} RunDiscards(f: Filter, s: seq<Byte>, h: nat, i: nat)
    requires i <= |s| && f.discard && f.prefix == []
    ensures Shown(Run(f, s, h, i)) == f.out + AfterBody(s, h, BodyEnd(s, i, f.escaped))
    decreases |s| - i, 0
  {
    hide BytesAt, Kept, Run;
    if i == |s| {
      assert Run(f, s, h, i) == f by { RunEnds(f, s, h, i); }
      assert f.out + [] == f.out;
    } else {
      RunStep(f, s, h, i);
      var g := FeedByte(f, Event(s[i], i < h));
      if g.discard {
        RunDiscards(g, s, h, i + 1);
      } else {
        RunIdles(g, s, h, i + 1);
      }
    }
  }

  lemma RunEnds(f: Filter, s: seq<Byte>, h: nat, i: nat)
    requires i >= |s|
    ensures Run(f, s, h, i) == f && Kept(s, h, i) == []
  {
  }

  /** Between writes: the rest of the stream is kept as its positions say. */
  lemma {:induction false} RunIdles(f: Filter, s: seq<Byte>, h: nat, i: nat)
    requires i <= |s| && !f.discard && f.prefix == [] && !f.escaped
    ensures Shown(Run(f, s, h, i)) == f.out + BytesAt(s, Kept(s, h, i))
    decreases |s| - i, 0
  {
    hide BytesAt, Kept, Run;
    if i == |s| {
      RunEnds(f, s, h, i);
      assert BytesAt(s, []) == [] && f.out + [] == f.out && f.prefix == [] by { NoBytes(s); }
    } else {
      RunStep(f, s, h, i);
      var g := FeedByte(f, Event(s[i], i < h));
      assert f.out + [] == f.out;
      if i < h && s[i] == ESC {
        assert [s[i]] == MARKER[..1];
        RunMatches(g, s, h, i + 1);
      } else {
        assert MarkerAt(s, i) ==> s[i + 0] == MARKER[0];
        KeptHere(s, h, i);
        RunIdles(g, s, h, i + 1);
        assert f.out + [s[i]] + BytesAt(s, Kept(s, h, i + 1)) == f.out + ([s[i]] + BytesAt(s, Kept(s, h, i + 1)));
      }
    }
  }

  lemma NoBytes(s: seq<Byte>)
    ensures BytesAt(s, []) == []
  {
  }

  /** Inside a marker: held back until it completes or turns out to be none. */
  lemma {:induction false} RunMatches(f: Filter, s: seq<Byte>, h: nat, i: nat)
    requires i <= |s| && !f.discard && !f.escaped && 0 < |f.prefix| < |MARKER| && |f.prefix| <= i
    requires i - |f.prefix| < h && Matches(s, i - |f.prefix|, |f.prefix|) && f.prefix == MARKER[..|f.prefix|]
    ensures Shown(Run(f, s, h, i)) == f.out + BytesAt(s, Kept(s, h, i - |f.prefix|))
    decreases |s| - i, 1
  {
    hide BytesAt, Run;
    var m, start := |f.prefix|, i - |f.prefix|;
    if i == |s| {
      RunEnds(f, s, h, i);
      KeptPartial(s, h, start, m);
      NoBytes(s);
      assert MARKER[..m] + [] == f.prefix;
    } else if s[i] == MARKER[m] {
      RunStep(f, s, h, i);
      var g := FeedByte(f, Event(s[i], i < h));
      assert f.prefix + [s[i]] == MARKER[..m + 1];
      if m + 1 == |MARKER| {
        assert MARKER[..m + 1] == MARKER && MarkerAt(s, start);
        RunDiscards(g, s, h, i + 1);
        NoBytes(s);
      } else {
        RunMatches(g, s, h, i + 1);
      }
    } else {
      assert !MarkerAt(s, start) by {
        assert s[start + m] != MARKER[m];
      }
      KeptPartial(s, h, start, m);
      hide Kept;
      var f1 := f.(out := f.out + f.prefix, prefix := []);
      RunStep(f, s, h, i);
      RunStep(f1, s, h, i);
      assert FeedByte(f1, Event(s[i], i < h)) == FeedByte(f, Event(s[i], i < h)) by {
        assert f1.out + [] == f1.out;
      }
      RunIdles(f1, s, h, i);
      assert f.out + f.prefix + BytesAt(s, Kept(s, h, i)) == f.out + (f.prefix + BytesAt(s, Kept(s, h, i)));
    }
  }

  // ---- the stream in chunks ----

  datatype Chunk = Chunk(data: seq<Byte>, historical: bool)

  function FeedChunk(f: Filter, c: Chunk): Filter {
    Fold(FeedByte, f, Events(c.data, c.historical))
  }

  function Stream(chunks: seq<Chunk>): seq<Byte>
    decreases |chunks|
  {
    if chunks == [] then [] else Stream(chunks[..|chunks| - 1]) + chunks[|chunks| - 1].data
  }

  /** The history comes first: a pump's replay precedes everything live. */
  ghost predicate HistoryFirst(chunks: seq<Chunk>) {
    forall i, j :: 0 <= i < j < |chunks| && chunks[j].historical ==> chunks[i].historical
  }

  /** How many bytes of the stream are historical. */
  function Historical(chunks: seq<Chunk>): nat
    decreases |chunks|
  {
    if chunks == [] then 0
    else Historical(chunks[..|chunks| - 1]) + if chunks[|chunks| - 1].historical then |chunks[|chunks| - 1].data| else 0
  }

  lemma {:induction false} HistoryLength(chunks: seq<Chunk>)
    requires HistoryFirst(chunks)
    ensures Historical(chunks) <= |Stream(chunks)|
    ensures chunks != [] && chunks[|chunks| - 1].historical ==> Historical(chunks) == |Stream(chunks)|
    decreases |chunks|
  {
    if chunks != [] {
      HistoryLength(chunks[..|chunks| - 1]);
    }
  }

  /** The run over a stream up to position `n`. */
  lemma {:induction false} RunUpTo(f: Filter, s: seq<Byte>, h: nat, i: nat, n: nat)
    requires i <= n <= |s|
    ensures Run(f, s, h, i) == Run(Run(f, s[..n], h, i), s, h, n)
    decreases n - i
  {
    if i < n {
      assert s[..n][i] == s[i];
      RunUpTo(FeedByte(f, Event(s[i], i < h)), s, h, i + 1, n);
    }
  }

  lemma {:induction false} RunEvents(f: Filter, s: seq<Byte>, h: nat, n: nat, historical: bool)
    requires n <= |s| && (if historical then h >= |s| else h <= n)
    ensures Run(f, s, h, n) == Fold(FeedByte, f, Events(s[n..], historical))
    decreases |s| - n
  {
    hide FeedByte;
    if n < |s| {
      var e := Event(s[n], historical);
      RunEvents(FeedByte(f, e), s, h, n + 1, historical);
      assert Events(s[n..], historical) == [e] + Events(s[n + 1..], historical);
      FoldConcat(FeedByte, f, [e], Events(s[n + 1..], historical));
      FoldOne(FeedByte, f, [], e);
    }
  }

  lemma {:induction false} ChunksRun(chunks: seq<Chunk>)
    requires HistoryFirst(chunks)
    ensures Fold(FeedChunk, FRESH, chunks) == Run(FRESH, Stream(chunks), Historical(chunks), 0)
    decreases |chunks|
  {
    hide FeedByte, Run;
    if chunks == [] {
      RunEnds(FRESH, [], 0, 0);
    } else {
      var k := |chunks| - 1;
      var s, before, h := Stream(chunks), Stream(chunks[..k]), Historical(chunks);
      ChunksRun(chunks[..k]);
      HistoryLength(chunks[..k]);
      assert s[..|before|] == before && s[|before|..] == chunks[k].data;
      if chunks[k].historical {
        assert k > 0 ==> chunks[k - 1].historical;
        assert Historical(chunks[..k]) == |before|;
      }
      RunHistory(FRESH, before, Historical(chunks[..k]), h, 0);
      RunUpTo(FRESH, s, h, 0, |before|);
      RunEvents(Run(FRESH, before, h, 0), s, h, |before|, chunks[k].historical);
    }
  }

  /** Only whether a position is historical matters. */
  lemma {:induction false} RunHistory(f: Filter, s: seq<Byte>, h: nat, h': nat, i: nat)
    requires h == h' || (h >= |s| && h' >= |s|)
    ensures Run(f, s, h, i) == Run(f, s, h', i)
    decreases if i < |s| then |s| - i else 0
  {
    if i < |s| {
      RunHistory(FeedByte(f, Event(s[i], i < h)), s, h, h', i + 1);
    }
  }

  /** Over any chunking: what has gone through, with what is still held back, is the stream without
      the clipboard writes that started in its history, whenever they ended; the rest is untouched. */
  lemma {:induction false} FilterKeeps(chunks: seq<Chunk>)
    requires HistoryFirst(chunks)
    ensures var s := Stream(chunks);
            Shown(Fold(FeedChunk, FRESH, chunks)) == BytesAt(s, Kept(s, Historical(chunks), 0))
  {
    ChunksRun(chunks);
    RunIdles(FRESH, Stream(chunks), Historical(chunks), 0);
  }

  // ---- against one pass of the regular expression ----

  /** ESC ] 5 2 ; then bytes that are neither BEL nor ESC, then BEL or ESC \ : where the match ends. */
  function BodyRun(s: seq<Byte>, k: nat): (n: nat)
    ensures n >= k
    decreases if k < |s| then |s| - k else 0
  {
    if k < |s| && s[k] != 0x07 && s[k] != 0x1b then BodyRun(s, k + 1) else k
  }

  function Match(s: seq<Byte>, i: nat): (e: End)
    ensures e.Past? ==> i < e.at <= |s|
  {
    if !MarkerAt(s, i) then Never
    else
      var k := BodyRun(s, i + |MARKER|);
      if k < |s| && s[k] == 0x07 then Past(k + 1)
      else if k + 1 < |s| && s[k] == 0x1b && s[k + 1] == 0x5c then Past(k + 2)
      else Never
  }

  /** Positions left by removing every leftmost match. */
  function Unmatched(s: seq<Byte>, i: nat): (ps: seq<nat>)
    ensures forall k :: 0 <= k < |ps| ==> i <= ps[k] < |s|
    decreases if i < |s| then |s| - i else 0
  {
    if i >= |s| then []
    else match Match(s, i)
      case Past(j) => Unmatched(s, j)
      case Never => [i] + Unmatched(s, i + 1)
  }

  /** Every marker met outside a write has a body free of stray ESC, and a terminator. */
  predicate WellTerminated(s: seq<Byte>, i: nat)
    decreases if i < |s| then |s| - i else 0
  {
    if i >= |s| then true
    else if MarkerAt(s, i) then Match(s, i).Past? && WellTerminated(s, Match(s, i).at)
    else WellTerminated(s, i + 1)
  }

  lemma {:induction false} SameEnd(s: seq<Byte>, k: nat)
    requires k <= |s|
    ensures var n := BodyRun(s, k);
            && (n < |s| && s[n] == BEL ==> BodyEnd(s, k, false) == Past(n + 1))
            && (n + 1 < |s| && s[n] == ESC && s[n + 1] == BACKSLASH ==> BodyEnd(s, k, false) == Past(n + 2))
    decreases |s| - k
  {
    if k < |s| && s[k] != BEL && s[k] != ESC {
      SameEnd(s, k + 1);
    }
  }

  /** On a wholly historical stream the filter keeps the positions the expression keeps, exactly when
      every write it meets is well terminated. */
  lemma {:induction false} FilterVersusExpression(s: seq<Byte>, i: nat)
    requires i <= |s|
    ensures Kept(s, |s|, i) == Unmatched(s, i) <==> WellTerminated(s, i)
    decreases |s| - i
  {
    hide BodyEnd, BodyRun, Matches;
    if i < |s| {
      if MarkerAt(s, i) {
        MarkerIs(s, i);
        SameEnd(s, i + |MARKER|);
        if Match(s, i).Past? {
          FilterVersusExpression(s, Match(s, i).at);
        } else {
          assert Unmatched(s, i)[0] == i;
          assert forall k :: 0 <= k < |Kept(s, |s|, i)| ==> Kept(s, |s|, i)[k] > i;
        }
      } else {
        FilterVersusExpression(s, i + 1);
        assert Kept(s, |s|, i) == [i] + Kept(s, |s|, i + 1);
        assert Unmatched(s, i) == [i] + Unmatched(s, i + 1);
        assert Kept(s, |s|, i)[1..] == Kept(s, |s|, i + 1) && Unmatched(s, i)[1..] == Unmatched(s, i + 1);
      }
    }
  }
}
