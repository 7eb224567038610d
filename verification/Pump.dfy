/** The read loop of an attached stream: output goes through the clipboard filter to the viewers, and
    unchanged to the restore point. */
module Pump {
  import opened Common
  import opened Folds
  import opened RestorePoints
  import opened Sessions
  import F = ReplayFilter

  predicate Idle(f: F.Filter) {
    f.prefix == [] && !f.discard
  }

  function Live(f: F.Filter, d: seq<Byte>): F.Filter {
    Fold(F.FeedByte, f.(out := []), F.Events(d, false))
  }

  /** A filter that is holding something when live output begins has either put what it held before
      all of it, or taken something out of it. */
  predicate Changed(f: F.Filter, d: seq<Byte>, g: F.Filter) {
    || (f.prefix != [] && Idle(g) && g.out == f.prefix + d)
    || (f.prefix != [] && !g.discard && g.prefix == f.prefix + d && g.out == [])
    || (g.prefix == [] && g.discard && g.out == [])
    || (Idle(g) && |g.out| < |d|)
  }

  lemma ChangesOne(f: F.Filter, d: seq<Byte>, g: F.Filter, b: Byte)
    requires Changed(f, d, g) && |f.prefix| < |F.MARKER|
    ensures Changed(f, d + [b], F.FeedByte(g, F.Event(b, false)))
  {
    assert f.prefix + (d + [b]) == f.prefix + d + [b];
  }

  lemma {:induction false} ChangesLive(f: F.Filter, d: seq<Byte>)
    requires |f.prefix| < |F.MARKER| && (f.prefix != [] ==> !f.discard) && !Idle(f)
    ensures Changed(f, d, Live(f, d))
    decreases |d|
  {
    if d == [] {
      NoEvents(f.(out := []), false);
      assert f.prefix + d == f.prefix;
    } else {
      hide Fold, F.FeedByte, Changed;
      var k := |d| - 1;
      ChangesLive(f, d[..k]);
      assert F.Events(d, false) == F.Events(d[..k], false) + [F.Event(d[k], false)];
      FoldOne(F.FeedByte, f.(out := []), F.Events(d[..k], false), F.Event(d[k], false));
      ChangesOne(f, d[..k], Live(f, d[..k]), d[k]);
      assert d[..k] + [d[k]] == d;
    }
  }

  /** Live output reaches the viewers unchanged exactly when the filter holds nothing: otherwise a
      viewer whose restore point already had what is held is sent it twice, or is never sent the end
      of a clipboard write that its restore point had begun. */
  lemma {:induction false} LivePasses(f: F.Filter, d: seq<Byte>)
    requires |f.prefix| < |F.MARKER| && (f.prefix != [] ==> !f.discard) && d != []
    ensures Live(f, d).out == d <==> Idle(f)
    ensures Idle(f) ==> Live(f, d) == f.(out := d)
  {
    if Idle(f) {
      F.PassAll(f.(out := []), d);
    } else {
      ChangesLive(f, d);
    }
  }

  /** What was let through before does not matter to the filter. */
  lemma {:induction false} OutIsApart(f: F.Filter, passed: seq<Byte>, es: seq<F.Event>)
    ensures var g := Fold(F.FeedByte, f.(out := []), es);
            Fold(F.FeedByte, f.(out := passed), es) == g.(out := passed + g.out)
    decreases |es|
  {
    if es == [] {
      assert passed + [] == passed;
    } else {
      var k := |es| - 1;
      OutIsApart(f, passed, es[..k]);
      var g := Fold(F.FeedByte, f.(out := []), es[..k]);
      OneIsApart(g, passed, es[k]);
    }
  }

  lemma OneIsApart(g: F.Filter, passed: seq<Byte>, e: F.Event)
    ensures var h := F.FeedByte(g, e);
            F.FeedByte(g.(out := passed + g.out), e) == h.(out := passed + h.out)
  {
    assert passed + g.out + g.prefix == passed + (g.out + g.prefix);
    assert passed + g.out + [e.b] == passed + (g.out + [e.b]);
    assert passed + g.out + g.prefix + [e.b] == passed + (g.out + g.prefix + [e.b]);
  }

  lemma NoEvents(f: F.Filter, historical: bool)
    ensures Fold(F.FeedByte, f, F.Events([], historical)) == f
  {
  }

  lemma HistoryGrows(chunks: seq<F.Chunk>, c: F.Chunk)
    requires F.HistoryFirst(chunks)
    requires c.historical ==> forall i :: 0 <= i < |chunks| ==> chunks[i].historical
    ensures F.HistoryFirst(chunks + [c])
  {
  }

  class OutputPump<S(!new)> {
    const session: Session<S>
    const filter: F.ReplayClipboardFilter
    var replayLeft: nat

    ghost var chunks: seq<F.Chunk>   // everything read, and whether it was replay
    ghost var passed: seq<Byte>      // what was let through

    ghost predicate Valid()
      reads this, session, session.screen, session.ring, session.ring.data, filter
    {
      session.Valid() && Filtering()
    }

    ghost predicate Filtering()
      reads this, filter
    {
      && filter.Valid()
      && filter.Now(passed) == Fold(F.FeedChunk, F.FRESH, chunks)
      && F.HistoryFirst(chunks)
      && (0 < replayLeft ==> forall i :: 0 <= i < |chunks| ==> chunks[i].historical)
    }

    constructor (session: Session<S>, replay: nat)
      requires session.Valid()
      ensures Valid() && this.session == session && replayLeft == replay && fresh(filter) && passed == [] && chunks == []
    {
      var f := new F.ReplayClipboardFilter();
      this.session, filter, replayLeft, chunks, passed := session, f, replay, [], [];
    }

    method Filtered(data: seq<Byte>, historical: bool) returns (out: seq<Byte>)
      requires filter.Valid() && filter.Now(passed) == Fold(F.FeedChunk, F.FRESH, chunks)
      requires F.HistoryFirst(chunks)
      requires historical ==> forall i :: 0 <= i < |chunks| ==> chunks[i].historical
      modifies filter, this`chunks, this`passed
      ensures filter.Valid() && filter.Now(passed) == Fold(F.FeedChunk, F.FRESH, chunks) && F.HistoryFirst(chunks)
      ensures chunks == old(chunks) + (if data == [] then [] else [F.Chunk(data, historical)])
      ensures passed == old(passed) + out && F.Stream(chunks) == old(F.Stream(chunks)) + data
      ensures !historical && Idle(old(filter.Now([]))) ==> out == data && Idle(filter.Now([]))
    {
      ghost var before, chunk := filter.Now([]), F.Chunk(data, historical);
      hide Fold, F.FeedByte, F.HistoryFirst;
      out := filter.Feed(data, historical);
      if data == [] {
        NoEvents(before, historical);
        assert chunks + [] == chunks && passed + [] == passed && F.Stream(chunks) + data == F.Stream(chunks);
        return;
      }
      FoldOne(F.FeedChunk, F.FRESH, chunks, chunk);
      OutIsApart(before, passed, F.Events(data, historical));
      if !historical && Idle(before) {
        F.PassAll(before, data);
      }
      HistoryGrows(chunks, chunk);
      assert (chunks + [chunk])[..|chunks|] == chunks;
      chunks, passed := chunks + [chunk], passed + out;
    }

    /** The chunk's historical part and its live part, each filtered as what it is. */
    method Split(data: seq<Byte>) returns (history: seq<Byte>, output: seq<Byte>)
      requires Filtering()
      modifies this`replayLeft, this`chunks, this`passed, filter
      ensures Filtering()
      ensures replayLeft == if |data| < old(replayLeft) then old(replayLeft) - |data| else 0
      ensures F.Stream(chunks) == old(F.Stream(chunks)) + data && passed == old(passed) + history + output
      ensures old(replayLeft) == 0 && Idle(old(filter.Now([]))) ==>
                history == [] && output == data && Idle(filter.Now([]))
    {
      hide Fold, F.HistoryFirst, F.Stream, Idle;
      var live := data;
      history := [];
      if replayLeft > 0 {
        var n := if |data| < replayLeft then |data| else replayLeft;
        history := Filtered(data[..n], true);
        replayLeft := replayLeft - n;
        live := data[n..];
        assert data == data[..n] + live;
      }
      output := Filtered(live, false);
      assert old(F.Stream(chunks)) + data[..|data| - |live|] + live == old(F.Stream(chunks)) + data;
      assert old(passed) + [] + output == old(passed) + output;
    }

    /** One event of output. */
    method Take(data: seq<Byte>)
      requires Valid()
      modifies this`replayLeft, this`chunks, this`passed, filter
      modifies session`viewers, session`stories, session`fanned, session`heard, session`insync
      modifies session.screen, session.ring, session.ring.data
      ensures Valid()
      ensures replayLeft == if |data| < old(replayLeft) then old(replayLeft) - |data| else 0
      ensures session.heard == old(session.heard) + Outs(data) && F.Stream(chunks) == old(F.Stream(chunks)) + data
      ensures old(passed) <= passed && session.fanned == old(session.fanned) + Outs(passed[|old(passed)|..])
      ensures old(replayLeft) == 0 && Idle(old(filter.Now([]))) ==>
                && session.fanned == old(session.fanned) + Outs(data) && Idle(filter.Now([]))
                && session.insync == old(session.insync)
    {
      hide Fold, Outs, Filtering, Idle;
      var history, output := Split(data);
      session.Chunk(data, history, output);
      OutsConcat(history, output);
      Grouped(old(session.fanned), history, output);
      assert passed[|old(passed)|..] == history + output;
      assert history == [] ==> history + output == output;
    }

    /** Everything the viewers were sent, with what is still held, is everything read without the
        clipboard writes that began in the replay. */
    lemma PassedSoFar()
      requires Valid()
      ensures var s := F.Stream(chunks);
              F.Shown(filter.Now(passed)) == F.BytesAt(s, F.Kept(s, F.Historical(chunks), 0))
    {
      F.FilterKeeps(chunks);
    }
  }
}
