/** Seeding a restore point from the daemon's own terminal, while output, sizes and re-attaches go on. */
module Seeding {
  import opened Common
  import opened Folds
  import opened RestorePoints
  import opened Sessions

  /** The bytes of a run of events. */
  function BytesOf(es: seq<Event>): seq<Byte>
    decreases |es|
  {
    if es == [] then []
    else BytesOf(es[..|es| - 1]) + if es[|es| - 1].Out? then [es[|es| - 1].b] else []
  }

  lemma {:induction false} BytesConcat(a: seq<Event>, b: seq<Event>)
    ensures BytesOf(a + b) == BytesOf(a) + BytesOf(b)
    decreases |b|
  {
    if b == [] {
      assert a + b == a;
    } else {
      var k := |b| - 1;
      var all := a + b;
      assert all[..|all| - 1] == a + b[..k] && all[|all| - 1] == b[k];
      BytesConcat(a, b[..k]);
    }
  }

  predicate Plain(es: seq<Event>) {
    forall i :: 0 <= i < |es| ==> es[i].Out?
  }

  predicate Quiet(es: seq<Event>) {
    forall i :: 0 <= i < |es| ==> es[i].Sized?
  }

  lemma {:induction false} PlainBytes(es: seq<Event>)
    requires Plain(es)
    ensures Outs(BytesOf(es)) == es
    decreases |es|
  {
    if es != [] {
      PlainBytes(es[..|es| - 1]);
    }
  }

  lemma {:induction false} NoBytes(es: seq<Event>)
    ensures |BytesOf(es)| == 0 <==> Quiet(es)
    decreases |es|
  {
    if es != [] {
      NoBytes(es[..|es| - 1]);
    }
  }

  /** A terminal knows its size: the last one it was given. */
  ghost predicate Sizable<S(!new)>(m: Machine<S>) {
    && Steady(m)
    && (forall s: S, g :: m.size(m.step(s, Sized(g))) == g)
    && (forall s: S, b :: m.size(m.step(s, Out(b))) == m.size(s))
  }

  // ---- a terminal that remembers everything it was given but sizes it already had ----

  datatype Tape = Tape(size: Grid, given: seq<Event>)

  function Record(t: Tape, e: Event): Tape {
    if e == Sized(t.size) then t else Tape(if e.Sized? then e.g else t.size, t.given + [e])
  }

  function Recorder(): Machine<Tape> {
    Machine((g: Grid) => Tape(g, []), Record, (t: Tape) => t.size, (t: Tape) => 0, (t: Tape) => true)
  }

  lemma RecorderIsSizable()
    ensures Sizable(Recorder())
  {
  }

  /** What events change anything for a terminal of a size, and the size it has then. */
  function Heard(size: Grid, es: seq<Event>): Tape {
    Fold(Record, Tape(size, []), es)
  }

  /** The restore point's terminal has been given `sizes` more than the daemon's, or something else for
      good. */
  datatype Drift = Ahead(sizes: seq<Event>) | Off

  const EXACT := Ahead([])

  /** The restore point is given `ours` while the daemon's terminal, of size `size`, is given `theirs`. */
  function Apart(d: Drift, size: Grid, ours: seq<Event>, theirs: seq<Event>): Drift {
    if d.Off? then Off
    else
      var a, b := Heard(size, d.sizes + ours).given, Heard(size, theirs).given;
      if b <= a then Ahead(a[|b|..]) else Off
  }

  /** The daemon's log, what this server has heard of it, the terminal its restore point stands for,
      and a seed being read: the generation it was read under and how much of the log it covers.
      `lead` is how much of the log the installed seed covers. */
  datatype World<!S> = World(log: seq<Event>, seen: nat, fold: S, gen: nat,
                             read: nat, readAt: nat, snap: Option<nat>, seeded: bool, lead: nat, drift: Drift)

  datatype Step =
    | Emit(e: Event)
    | Hear
    | ReadGen
    | Snapshot
    | Install
    | Rejoin(g: Grid)   // a contiguous re-attach, which leaves the session with this size

  function Seen(w: World): seq<Event>
    requires w.seen <= |w.log|
  {
    w.log[..w.seen]
  }

  /** A snapshot of `n` events is installed: the window is what this server has of the stream after
      the bytes the snapshot has seen. */
  function Seeded<S>(m: Machine<S>, blank: S, w: World<S>, n: nat): S
    requires n <= |w.log| && w.seen <= |w.log|
    requires |BytesOf(w.log[..n])| <= |BytesOf(Seen(w))|
  {
    m.Write(Fold(m.step, blank, w.log[..n]), BytesOf(Seen(w))[|BytesOf(w.log[..n])|..])
  }

  predicate Sane(w: World) {
    && w.seen <= |w.log| && w.readAt <= w.seen && w.lead <= |w.log|
    && (w.snap.Some? ==> w.readAt <= w.snap.value <= |w.log|)
  }

  ghost function Next<S>(m: Machine<S>, blank: S, w: World<S>, step: Step): World<S>
    requires Sane(w)
  {
    match step
    case Emit(e) => w.(log := w.log + [e])
    case Hear =>
      if w.seen == |w.log| then w
      else
        var e := w.log[w.seen];
        w.(seen := w.seen + 1, fold := m.step(w.fold, e), gen := w.gen + if e.Sized? then 1 else 0,
           drift := Apart(w.drift, m.size(Daemon(m, blank, w)), [e], if w.seen < w.lead then [] else [e]))
    case ReadGen => w.(read := w.gen, readAt := w.seen, snap := None)
    case Snapshot => w.(snap := Some(|w.log|))
    case Install =>
      if w.snap.None? || w.gen != w.read || |BytesOf(Seen(w))| < |BytesOf(w.log[..w.snap.value])| then w
      else
        var n := w.snap.value;
        w.(fold := Seeded(m, blank, w, n), seeded := true, lead := n, snap := None, drift := EXACT)
    case Rejoin(g) =>
      var now := m.size(m.After(blank, w.log));
      var turned := !g.Zero() && g != now;
      var ours := Replay(if turned then g else now, w.log[w.seen..]);
      w.(log := if turned then w.log + [Sized(g)] else w.log, seen := |w.log|, gen := w.gen + 1,
         fold := m.After(w.fold, ours),
         drift := Apart(w.drift, m.size(Daemon(m, blank, w)), ours, w.log[Covered(w)..]))
  }

  /** A re-attach reports the size the session has by then and replays the bytes that were missed; missed
      sizes are not among them. */
  function Replay(g: Grid, missed: seq<Event>): seq<Event> {
    [Sized(g)] + Outs(BytesOf(missed))
  }

  /** How much of the log the restore point stands for. */
  function Covered(w: World): nat {
    if w.seen < w.lead then w.lead else w.seen
  }

  /** The daemon's terminal, as of what the restore point stands for. */
  ghost function Daemon<S>(m: Machine<S>, blank: S, w: World<S>): S
    requires Sane(w)
  {
    m.After(blank, w.log[..Covered(w)])
  }

  ghost function Run<S>(m: Machine<S>, blank: S, w: World<S>, steps: seq<Step>): (r: World<S>)
    requires Sane(w)
    ensures Sane(r)
    decreases |steps|
  {
    if steps == [] then w
    else
      var before := Run(m, blank, w, steps[..|steps| - 1]);
      StepSane(m, blank, before, steps[|steps| - 1]);
      Next(m, blank, before, steps[|steps| - 1])
  }

  lemma StepSane<S>(m: Machine<S>, blank: S, w: World<S>, step: Step)
    requires Sane(w)
    ensures Sane(Next(m, blank, w, step))
  {
  }

  ghost predicate Inv<S>(m: Machine<S>, blank: S, w: World<S>): (holds: bool)
    ensures holds ==> Sane(w)
  {
    && Sane(w) && w.read <= w.gen
    && (w.read == w.gen ==> Plain(w.log[w.readAt..w.seen]))
    && (!w.seeded ==> w.drift.Off?)
    && (w.seeded && w.seen < w.lead ==> Quiet(w.log[w.seen..w.lead]) && w.drift.Ahead?)
    && (w.seeded ==> Stands(m, w.drift, w.fold, Daemon(m, blank, w)))
  }

  ghost predicate Stands<S>(m: Machine<S>, d: Drift, fold: S, daemon: S) {
    d.Ahead? ==> Quiet(d.sizes) && fold == m.After(daemon, d.sizes)
  }

  // ---- what a terminal makes of events is what the recorder keeps of them ----

  lemma {:induction false} ToldSame<S(!new)>(m: Machine<S>, s: S, es: seq<Event>)
    requires Sizable(m)
    ensures m.After(s, es) == m.After(s, Heard(m.size(s), es).given)
    ensures m.size(m.After(s, es)) == Heard(m.size(s), es).size
    decreases |es|
  {
    if es != [] {
      var k := |es| - 1;
      ToldSame(m, s, es[..k]);
      var t := Heard(m.size(s), es[..k]);
      if es[k] != Sized(t.size) {
        FoldOne(m.step, s, t.given, es[k]);
      }
    }
  }

  /** What was recorded before does not matter. */
  lemma {:induction false} RecordOn(t: Tape, es: seq<Event>)
    ensures Fold(Record, t, es) == Tape(Heard(t.size, es).size, t.given + Heard(t.size, es).given)
    decreases |es|
  {
    if es != [] {
      RecordOn(t, es[..|es| - 1]);
    }
  }

  lemma {:induction false} BytesHeard(size: Grid, es: seq<Event>)
    ensures BytesOf(Heard(size, es).given) == BytesOf(es)
    decreases |es|
  {
    if es != [] {
      var k := |es| - 1;
      BytesHeard(size, es[..k]);
      BytesConcat(Heard(size, es[..k]).given, [es[k]]);
      assert [es[k]][..0] == [];
    }
  }

  /** Both have been given the same bytes: what the restore point has more are sizes. */
  lemma MoreAreSizes(d: Drift, size: Grid, ours: seq<Event>, theirs: seq<Event>)
    requires BytesOf(ours) == BytesOf(theirs) && d.Ahead? && Quiet(d.sizes)
    ensures var n := Apart(d, size, ours, theirs); n.Ahead? ==> Quiet(n.sizes)
  {
    hide Fold, BytesOf;
    var a, b := Heard(size, d.sizes + ours).given, Heard(size, theirs).given;
    if b <= a {
      BytesHeard(size, d.sizes + ours);
      BytesHeard(size, theirs);
      BytesConcat(d.sizes, ours);
      NoBytes(d.sizes);
      assert a == b + a[|b|..];
      BytesConcat(b, a[|b|..]);
      NoBytes(a[|b|..]);
    }
  }

  /** The drift is told rightly on every terminal. */
  lemma ApartStands<S(!new)>(m: Machine<S>, d: Drift, fold: S, daemon: S, ours: seq<Event>, theirs: seq<Event>)
    requires Sizable(m) && Stands(m, d, fold, daemon) && BytesOf(ours) == BytesOf(theirs)
    ensures Stands(m, Apart(d, m.size(daemon), ours, theirs), m.After(fold, ours), m.After(daemon, theirs))
  {
    hide Fold, BytesOf;
    var n := Apart(d, m.size(daemon), ours, theirs);
    if n.Ahead? {
      var a, b := Heard(m.size(daemon), d.sizes + ours).given, Heard(m.size(daemon), theirs).given;
      MoreAreSizes(d, m.size(daemon), ours, theirs);
      FoldConcat(m.step, daemon, d.sizes, ours);
      ToldSame(m, daemon, d.sizes + ours);
      ToldSame(m, daemon, theirs);
      assert a == b + a[|b|..];
      FoldConcat(m.step, daemon, b, a[|b|..]);
    }
  }

  lemma EmitKeeps<S>(m: Machine<S>, blank: S, w: World<S>, e: Event)
    requires Inv(m, blank, w)
    ensures Inv(m, blank, Next(m, blank, w, Emit(e)))
  {
    hide Fold;
    var log := w.log + [e];
    assert log[..Covered(w)] == w.log[..Covered(w)];
    assert log[w.readAt..w.seen] == w.log[w.readAt..w.seen];
    if w.seen < w.lead {
      assert log[w.seen..w.lead] == w.log[w.seen..w.lead];
    }
  }

  lemma BytesOfOne(e: Event)
    ensures BytesOf([e]) == if e.Out? then [e.b] else []
  {
    assert [e][..0] == [];
  }

  lemma HearKeeps<S(!new)>(m: Machine<S>, blank: S, w: World<S>)
    requires Sizable(m) && Inv(m, blank, w)
    ensures Inv(m, blank, Next(m, blank, w, Hear))
  {
    hide Fold, BytesOf, Apart, Stands, Heard;
    if w.seen == |w.log| {
      return;
    }
    var e := w.log[w.seen];
    assert w.log[w.readAt..w.seen + 1] == w.log[w.readAt..w.seen] + [e];
    if !w.seeded {
      StaysOff(m.size(Daemon(m, blank, w)), [e], if w.seen < w.lead then [] else [e]);
    } else if w.seen < w.lead {
      assert w.log[w.seen..w.lead][0] == e;
      assert w.log[w.seen + 1..w.lead] == w.log[w.seen..w.lead][1..];
      HearAgain(m, w.drift, w.fold, Daemon(m, blank, w), e);
    } else {
      assert w.log[..w.seen + 1] == w.log[..w.seen] + [e];
      FoldOne(m.step, blank, w.log[..w.seen], e);
      HearNext(m, w.drift, w.fold, Daemon(m, blank, w), e);
    }
  }

  lemma StaysOff(size: Grid, ours: seq<Event>, theirs: seq<Event>)
    ensures Apart(Off, size, ours, theirs) == Off
  {
  }

  /** A size that the seed already had. */
  lemma HearAgain<S(!new)>(m: Machine<S>, d: Drift, fold: S, daemon: S, e: Event)
    requires Sizable(m) && Stands(m, d, fold, daemon) && d.Ahead? && e.Sized?
    ensures var n := Apart(d, m.size(daemon), [e], []); n.Ahead? && Stands(m, n, m.step(fold, e), daemon)
  {
    hide BytesOf, Stands;
    ApartNothing(d, m.size(daemon), [e]);
    NoBytes([e]);
    NoBytes([]);
    ApartStands(m, d, fold, daemon, [e], []);
    FoldOne(m.step, fold, [], e);
  }

  lemma ApartNothing(d: Drift, size: Grid, ours: seq<Event>)
    requires d.Ahead?
    ensures Apart(d, size, ours, []).Ahead?
  {
  }

  lemma HearNext<S(!new)>(m: Machine<S>, d: Drift, fold: S, daemon: S, e: Event)
    requires Sizable(m) && Stands(m, d, fold, daemon)
    ensures Stands(m, Apart(d, m.size(daemon), [e], [e]), m.step(fold, e), m.step(daemon, e))
  {
    hide Fold, BytesOf, Stands, Apart;
    ApartStands(m, d, fold, daemon, [e], [e]);
    FoldOne(m.step, fold, [], e);
    FoldOne(m.step, daemon, [], e);
  }

  /** The seed and the window after it are the daemon's terminal, at what this server has heard or,
      where sizes are still in flight, at the snapshot. */
  lemma SeedIsExact<S>(m: Machine<S>, blank: S, w: World<S>, n: nat)
    requires n <= |w.log| && w.seen <= |w.log| && |BytesOf(w.log[..n])| <= |BytesOf(Seen(w))|
    requires n <= w.seen ==> Plain(w.log[n..w.seen])
    ensures Seeded(m, blank, w, n) == Fold(m.step, blank, w.log[..if n <= w.seen then w.seen else n])
    ensures w.seen < n ==> Quiet(w.log[w.seen..n])
  {
    hide Fold, Outs;
    var b := |BytesOf(w.log[..n])|;
    if n <= w.seen {
      var rest := w.log[n..w.seen];
      assert Seen(w) == w.log[..n] + rest;
      BytesConcat(w.log[..n], rest);
      PlainBytes(rest);
      assert BytesOf(Seen(w))[b..] == BytesOf(rest);
      FoldConcat(m.step, blank, w.log[..n], rest);
    } else {
      var ahead := w.log[w.seen..n];
      assert w.log[..n] == Seen(w) + ahead;
      BytesConcat(Seen(w), ahead);
      NoBytes(ahead);
      assert BytesOf(Seen(w))[b..] == [];
      NothingWritten(m, Fold(m.step, blank, w.log[..n]));
    }
  }

  lemma NothingWritten<S>(m: Machine<S>, s: S)
    ensures m.Write(s, []) == s
  {
  }

  lemma InstallKeeps<S>(m: Machine<S>, blank: S, w: World<S>)
    requires Inv(m, blank, w)
    ensures Inv(m, blank, Next(m, blank, w, Install))
  {
    hide Fold, BytesOf, Seeded;
    if w.snap.None? || w.gen != w.read || |BytesOf(Seen(w))| < |BytesOf(w.log[..w.snap.value])| {
      return;
    }
    var n := w.snap.value;
    if n <= w.seen {
      assert w.log[n..w.seen] == w.log[w.readAt..w.seen][n - w.readAt..];
    }
    SeedIsExact(m, blank, w, n);
    Unmoved(m, Seeded(m, blank, w, n));
  }

  lemma Unmoved<S>(m: Machine<S>, s: S)
    ensures m.After(s, []) == s
  {
  }

  lemma {:induction false} OutsBytes(bytes: seq<Byte>)
    ensures BytesOf(Outs(bytes)) == bytes
    decreases |bytes|
  {
    if bytes != [] {
      var k := |bytes| - 1;
      OutsBytes(bytes[..k]);
      assert Outs(bytes)[..k] == Outs(bytes[..k]);
    }
  }

  lemma ReplayBytes(g: Grid, missed: seq<Event>)
    ensures BytesOf(Replay(g, missed)) == BytesOf(missed)
  {
    hide BytesOf, Outs;
    BytesConcat([Sized(g)], Outs(BytesOf(missed)));
    BytesOfOne(Sized(g));
    OutsBytes(BytesOf(missed));
  }

  /** Every byte that was missed comes after what the restore point stands for. */
  lemma MissedBytes<S>(m: Machine<S>, blank: S, w: World<S>)
    requires Inv(m, blank, w) && w.seeded
    ensures BytesOf(w.log[w.seen..]) == BytesOf(w.log[Covered(w)..])
  {
    hide BytesOf, Fold;
    if w.seen < w.lead {
      assert w.log[w.seen..] == w.log[w.seen..w.lead] + w.log[w.lead..];
      BytesConcat(w.log[w.seen..w.lead], w.log[w.lead..]);
      NoBytes(w.log[w.seen..w.lead]);
    }
  }

  lemma RejoinKeeps<S(!new)>(m: Machine<S>, blank: S, w: World<S>, g: Grid)
    requires Sizable(m) && Inv(m, blank, w)
    ensures Inv(m, blank, Next(m, blank, w, Rejoin(g)))
  {
    hide Fold, BytesOf, Apart, Stands, Replay;
    var n := Next(m, blank, w, Rejoin(g));
    var now := m.size(m.After(blank, w.log));
    var ours := Replay(if !g.Zero() && g != now then g else now, w.log[w.seen..]);
    if w.seeded {
      ReplayBytes(if !g.Zero() && g != now then g else now, w.log[w.seen..]);
      MissedBytes(m, blank, w);
      ApartStands(m, w.drift, w.fold, Daemon(m, blank, w), ours, w.log[Covered(w)..]);
      assert w.log == w.log[..Covered(w)] + w.log[Covered(w)..];
      FoldConcat(m.step, blank, w.log[..Covered(w)], w.log[Covered(w)..]);
      assert n.log[..|w.log|] == w.log;
    } else {
      StaysOff(m.size(Daemon(m, blank, w)), ours, w.log[Covered(w)..]);
    }
  }

  lemma StepKeeps<S(!new)>(m: Machine<S>, blank: S, w: World<S>, step: Step)
    requires Sizable(m) && Inv(m, blank, w)
    ensures Inv(m, blank, Next(m, blank, w, step))
  {
    hide Inv, Next;
    match step
    case Emit(e) => EmitKeeps(m, blank, w, e);
    case Hear => HearKeeps(m, blank, w);
    case ReadGen => ReadKeeps(m, blank, w);
    case Snapshot => ReadKeeps(m, blank, w);
    case Install => InstallKeeps(m, blank, w);
    case Rejoin(g) => RejoinKeeps(m, blank, w, g);
  }

  lemma ReadKeeps<S>(m: Machine<S>, blank: S, w: World<S>)
    requires Inv(m, blank, w)
    ensures Inv(m, blank, Next(m, blank, w, ReadGen)) && Inv(m, blank, Next(m, blank, w, Snapshot))
  {
    hide Fold, BytesOf;
  }

  /** A server that has just attached to a session and is rebuilding its copy from a replay. */
  function Begin<S>(log: seq<Event>, seen: nat, fold: S): World<S> {
    World(log, seen, fold, 0, 0, seen, None, false, 0, Off)
  }

  lemma BeginInv<S>(m: Machine<S>, blank: S, log: seq<Event>, seen: nat, fold: S)
    requires seen <= |log|
    ensures Inv(m, blank, Begin(log, seen, fold))
  {
  }

  lemma {:induction false} RunInv<S(!new)>(m: Machine<S>, blank: S, w: World<S>, steps: seq<Step>)
    requires Sizable(m) && Inv(m, blank, w)
    ensures Inv(m, blank, Run(m, blank, w, steps))
    decreases |steps|
  {
    hide Inv, Next;
    if steps != [] {
      RunInv(m, blank, w, steps[..|steps| - 1]);
      StepKeeps(m, blank, Run(m, blank, w, steps[..|steps| - 1]), steps[|steps| - 1]);
    }
  }

  // ---- and only then ----

  predicate Differ(a: Tape, b: Tape) {
    exists i :: 0 <= i < |a.given| && i < |b.given| && a.given[i] != b.given[i]
  }

  /** `a` has missed something, and is of the size that `b` has or is given next. */
  predicate Behind(a: Tape, b: Tape, coming: seq<Event>) {
    && |a.given| < |Record(b, Sized(a.size)).given|
    && (a.size == b.size || (coming != [] && coming[0] == Sized(a.size)))
  }

  /** What a drift means for two recordings, the second of which is given `coming` next. */
  predicate Recorded(d: Drift, a: Tape, b: Tape, coming: seq<Event>) {
    match d
    case Ahead(sizes) => a.given == b.given + sizes
    case Off => Differ(a, b) || Behind(a, b, coming)
  }

  lemma RecordedTells(d: Drift, a: Tape, b: Tape, coming: seq<Event>)
    requires Recorded(d, a, b, coming) && Stands(Recorder(), d, a, b)
    ensures a == b <==> d == EXACT
  {
  }

  lemma DifferOn(a: Tape, b: Tape, ours: seq<Event>, theirs: seq<Event>)
    requires Differ(a, b)
    ensures Differ(Fold(Record, a, ours), Fold(Record, b, theirs))
  {
    RecordOn(a, ours);
    RecordOn(b, theirs);
    var i :| 0 <= i < |a.given| && i < |b.given| && a.given[i] != b.given[i];
    assert Fold(Record, a, ours).given[i] == a.given[i] && Fold(Record, b, theirs).given[i] == b.given[i];
  }

  /** Two that agreed but for sizes have come apart for good. */
  lemma ComesApart(d: Drift, a: Tape, b: Tape, ours: seq<Event>, theirs: seq<Event>)
    requires d.Ahead? && Stands(Recorder(), d, a, b) && a.given == b.given + d.sizes
    ensures var n, r, q := Apart(d, b.size, ours, theirs), Fold(Record, a, ours), Fold(Record, b, theirs);
            if n.Ahead? then r.given == q.given + n.sizes else Differ(r, q) || |r.given| < |q.given|
  {
    hide Fold;
    var x, y := Heard(b.size, d.sizes + ours).given, Heard(b.size, theirs).given;
    var r, q := Fold(Record, a, ours), Fold(Record, b, theirs);
    FoldConcat(Record, b, d.sizes, ours);
    RecordOn(b, d.sizes + ours);
    RecordOn(b, theirs);
    if !(y <= x) && |y| <= |x| {
      var i :| 0 <= i < |y| && y[i] != x[i];
      assert r.given[|b.given| + i] == x[i] && q.given[|b.given| + i] == y[i];
    }
  }

  lemma RecHear(d: Drift, a: Tape, b: Tape, e: Event, coming: seq<Event>)
    requires Stands(Recorder(), d, a, b) && Recorded(d, a, b, [e] + coming)
    ensures Recorded(Apart(d, b.size, [e], [e]), Record(a, e), Record(b, e), coming)
  {
    hide Fold, Apart, Stands;
    FoldOne(Record, a, [], e);
    FoldOne(Record, b, [], e);
    if d.Ahead? {
      ComesApart(d, a, b, [e], [e]);
      if Apart(d, b.size, [e], [e]).Off? && |Record(a, e).given| < |Record(b, e).given| {
        SameStays(d, a, b, e);
      }
    } else {
      StaysOff(b.size, [e], [e]);
      if Differ(a, b) {
        DifferOn(a, b, [e], [e]);
      }
    }
  }

  /** What is ahead does not fall behind by one event that both are given. */
  lemma SameStays(d: Drift, a: Tape, b: Tape, e: Event)
    requires d.Ahead? && Stands(Recorder(), d, a, b) && a.given == b.given + d.sizes
    ensures |Record(b, e).given| <= |Record(a, e).given|
  {
    if d.sizes == [] {
      assert a == b;
    }
  }

  lemma {:induction false} HeardAtLeast(t: Tape, es: seq<Event>)
    ensures var r := Fold(Record, t, es);
            |r.given| >= |t.given| + |BytesOf(es)| + if r.size == t.size then 0 else 1
    decreases |es|
  {
    if es != [] {
      HeardAtLeast(t, es[..|es| - 1]);
    }
  }

  lemma {:induction false} OutsHeard(t: Tape, bytes: seq<Byte>)
    ensures Fold(Record, t, Outs(bytes)) == Tape(t.size, t.given + Outs(bytes))
    decreases |bytes|
  {
    if bytes != [] {
      var k := |bytes| - 1;
      OutsHeard(t, bytes[..k]);
      assert Outs(bytes)[..k] == Outs(bytes[..k]);
    }
  }

  lemma ReplayHeard(t: Tape, g: Grid, missed: seq<Event>)
    ensures Fold(Record, t, Replay(g, missed)) == Tape(g, Record(t, Sized(g)).given + Outs(BytesOf(missed)))
  {
    hide Fold, Outs, BytesOf;
    FoldConcat(Record, t, [Sized(g)], Outs(BytesOf(missed)));
    FoldOne(Record, t, [], Sized(g));
    OutsHeard(Record(t, Sized(g)), BytesOf(missed));
  }

  /** One that is behind stays behind when sizes are missed. */
  lemma BehindOn(a: Tape, b: Tape, g: Grid, missed: seq<Event>, theirs: seq<Event>, coming: seq<Event>)
    requires Behind(a, b, theirs + coming) && BytesOf(missed) == BytesOf(theirs)
    requires coming == [] || coming == [Sized(g)]
    requires coming == [] ==> Fold(Record, b, theirs).size == g
    ensures Behind(Fold(Record, a, Replay(g, missed)), Fold(Record, b, theirs), coming)
  {
    hide Fold, Outs, BytesOf, Replay;
    ReplayHeard(a, g, missed);
    var all, p := theirs + [Sized(g)], Record(b, Sized(a.size));
    FoldOne(Record, b, theirs, Sized(g));
    BytesConcat(theirs, [Sized(g)]);
    BytesOfOne(Sized(g));
    if a.size == b.size {
      HeardAtLeast(b, all);
    } else {
      assert all[0] == Sized(a.size) && all == [all[0]] + all[1..];
      FoldConcat(Record, b, [all[0]], all[1..]);
      FoldOne(Record, b, [], all[0]);
      BytesConcat([all[0]], all[1..]);
      BytesOfOne(all[0]);
      HeardAtLeast(p, all[1..]);
    }
  }

  ghost predicate RecInv(blank: Tape, w: World<Tape>): (holds: bool)
    ensures holds ==> Sane(w)
  {
    && Inv(Recorder(), blank, w)
    && (w.seeded ==> Recorded(w.drift, w.fold, Daemon(Recorder(), blank, w), w.log[Covered(w)..]))
  }

  lemma RecHearKeeps(blank: Tape, w: World<Tape>)
    requires RecInv(blank, w) && w.seeded && w.seen < |w.log|
    ensures var n := Next(Recorder(), blank, w, Hear);
            Sane(n) && Recorded(n.drift, n.fold, Daemon(Recorder(), blank, n), n.log[Covered(n)..])
  {
    hide Fold, BytesOf, Recorded, Record, Apart, Stands, Heard;
    var e, b, rest := w.log[w.seen], Daemon(Recorder(), blank, w), w.log[Covered(w)..];
    if w.seen < w.lead {
      RecHearAgain(w.drift, w.fold, b, e, rest);
    } else {
      assert w.log[..w.seen + 1] == w.log[..w.seen] + [e];
      assert rest == [e] + w.log[w.seen + 1..];
      FoldOne(Record, blank, w.log[..w.seen], e);
      RecHear(w.drift, w.fold, b, e, w.log[w.seen + 1..]);
    }
  }

  lemma RecHearAgain(d: Drift, a: Tape, b: Tape, e: Event, coming: seq<Event>)
    requires d.Ahead? && Stands(Recorder(), d, a, b) && Recorded(d, a, b, coming)
    ensures Recorded(Apart(d, b.size, [e], []), Record(a, e), b, coming)
  {
    hide Apart, Stands;
    ApartNothing(d, b.size, [e]);
    ComesApart(d, a, b, [e], []);
    FoldOne(Record, a, [], e);
  }

  lemma RecRejoin(d: Drift, a: Tape, b: Tape, g: Grid, missed: seq<Event>, theirs: seq<Event>, coming: seq<Event>)
    requires Stands(Recorder(), d, a, b) && Recorded(d, a, b, theirs + coming)
    requires BytesOf(missed) == BytesOf(theirs) && (coming == [] || coming == [Sized(g)])
    requires coming == [] ==> Fold(Record, b, theirs).size == g
    ensures Recorded(Apart(d, b.size, Replay(g, missed), theirs), Fold(Record, a, Replay(g, missed)), Fold(Record, b, theirs), coming)
  {
    hide Fold, BytesOf, Apart, Stands, Replay, Outs;
    if d.Ahead? {
      ComesApart(d, a, b, Replay(g, missed), theirs);
      ReplayHeard(a, g, missed);
    } else {
      StaysOff(b.size, Replay(g, missed), theirs);
      if Differ(a, b) {
        DifferOn(a, b, Replay(g, missed), theirs);
      } else {
        BehindOn(a, b, g, missed, theirs, coming);
      }
    }
  }

  lemma RecRejoinKeeps(blank: Tape, w: World<Tape>, g: Grid)
    requires RecInv(blank, w) && w.seeded
    ensures var n := Next(Recorder(), blank, w, Rejoin(g));
            Sane(n) && Recorded(n.drift, n.fold, Daemon(Recorder(), blank, n), n.log[Covered(n)..])
  {
    hide Fold, BytesOf, Recorded, Record, Apart, Stands, Heard, Replay;
    var n := Next(Recorder(), blank, w, Rejoin(g));
    var now := Fold(Record, blank, w.log).size;
    var reported, b := if !g.Zero() && g != now then g else now, Daemon(Recorder(), blank, w);
    var theirs := w.log[Covered(w)..];
    var coming := n.log[|w.log|..];
    assert coming == if !g.Zero() && g != now then [Sized(g)] else [];
    assert w.log == w.log[..Covered(w)] + theirs;
    FoldConcat(Record, blank, w.log[..Covered(w)], theirs);
    assert n.log[..|w.log|] == w.log;
    MissedBytes(Recorder(), blank, w);
    RecordedMore(w.drift, w.fold, b, theirs, coming);
    RecRejoin(w.drift, w.fold, b, reported, w.log[w.seen..], theirs, coming);
  }

  lemma RecordedMore(d: Drift, a: Tape, b: Tape, coming: seq<Event>, more: seq<Event>)
    requires Recorded(d, a, b, coming)
    ensures Recorded(d, a, b, coming + more)
  {
    if d.Off? && coming != [] {
      assert (coming + more)[0] == coming[0];
    }
  }

  lemma RecEmit(blank: Tape, w: World<Tape>, e: Event)
    requires RecInv(blank, w) && w.seeded
    ensures var n := Next(Recorder(), blank, w, Emit(e));
            Sane(n) && Recorded(n.drift, n.fold, Daemon(Recorder(), blank, n), n.log[Covered(n)..])
  {
    hide Fold, BytesOf, Recorded, Record, Apart, Stands;
    var log := w.log + [e];
    assert log[..Covered(w)] == w.log[..Covered(w)] && log[Covered(w)..] == w.log[Covered(w)..] + [e];
    RecordedMore(w.drift, w.fold, Daemon(Recorder(), blank, w), w.log[Covered(w)..], [e]);
  }

  lemma RecStep(blank: Tape, w: World<Tape>, step: Step)
    requires RecInv(blank, w)
    ensures RecInv(blank, Next(Recorder(), blank, w, step))
  {
    hide Fold, BytesOf, Recorded, Record, Apart, Inv, Seeded, Heard, Replay;
    RecorderIsSizable();
    StepKeeps(Recorder(), blank, w, step);
    InvSane(Recorder(), blank, w);
    match step
    case Emit(e) =>
      if w.seeded {
        RecEmit(blank, w, e);
      }
    case Hear =>
      if w.seeded && w.seen < |w.log| {
        RecHearKeeps(blank, w);
      }
    case Rejoin(g) =>
      if w.seeded {
        RecRejoinKeeps(blank, w, g);
      }
    case Install => RecInstall(blank, w);
    case _ =>
  }

  lemma InvSane<S>(m: Machine<S>, blank: S, w: World<S>)
    requires Inv(m, blank, w)
    ensures Sane(w)
  {
  }

  lemma NoFold(t: Tape)
    ensures Fold(Record, t, []) == t
  {
  }

  lemma RecInstall(blank: Tape, w: World<Tape>)
    requires RecInv(blank, w)
    ensures var n := Next(Recorder(), blank, w, Install);
            n.seeded ==> Sane(n) && Recorded(n.drift, n.fold, Daemon(Recorder(), blank, n), n.log[Covered(n)..])
  {
    hide Fold, BytesOf, Seeded;
    InstallKeeps(Recorder(), blank, w);
    NoFold(Daemon(Recorder(), blank, Next(Recorder(), blank, w, Install)));
  }

  lemma {:induction false} RecRun(blank: Tape, w: World<Tape>, steps: seq<Step>)
    requires RecInv(blank, w)
    ensures RecInv(blank, Run(Recorder(), blank, w, steps))
    decreases |steps|
  {
    hide RecInv, Next;
    if steps != [] {
      RecRun(blank, w, steps[..|steps| - 1]);
      RecStep(blank, Run(Recorder(), blank, w, steps[..|steps| - 1]), steps[|steps| - 1]);
    }
  }

  /** On the terminal that remembers everything, a seeded restore point is the daemon's terminal exactly
      when the run has not drifted. */
  lemma {:induction false} RecorderTells(blank: Tape, log: seq<Event>, seen: nat, fold: Tape, steps: seq<Step>)
    requires seen <= |log|
    ensures var w := Run(Recorder(), blank, Begin(log, seen, fold), steps);
            w.seeded ==> (w.fold == Daemon(Recorder(), blank, w) <==> w.drift == EXACT)
  {
    BeginInv(Recorder(), blank, log, seen, fold);
    RecRun(blank, Begin(log, seen, fold), steps);
    var w := Run(Recorder(), blank, Begin(log, seen, fold), steps);
    if w.seeded {
      RecordedTells(w.drift, w.fold, Daemon(Recorder(), blank, w), w.log[Covered(w)..]);
    }
  }

  // ---- every terminal drifts alike ----

  lemma {:induction false} SizesAlike<S(!new)>(m: Machine<S>, blank: S, t: Tape, es: seq<Event>)
    requires Sizable(m) && m.size(blank) == t.size
    ensures m.size(m.After(blank, es)) == Fold(Record, t, es).size
    decreases |es|
  {
    if es != [] {
      SizesAlike(m, blank, t, es[..|es| - 1]);
    }
  }

  predicate Twins<S>(w: World<S>, v: World<Tape>) {
    && w.log == v.log && w.seen == v.seen && w.gen == v.gen && w.read == v.read && w.readAt == v.readAt
    && w.snap == v.snap && w.seeded == v.seeded && w.lead == v.lead && w.drift == v.drift
  }

  lemma TwinStep<S(!new)>(m: Machine<S>, blank: S, w: World<S>, t: Tape, v: World<Tape>, step: Step)
    requires Sizable(m) && m.size(blank) == t.size && Twins(w, v) && Inv(m, blank, w) && Inv(Recorder(), t, v)
    ensures Twins(Next(m, blank, w, step), Next(Recorder(), t, v, step))
  {
    hide Fold, BytesOf, Record, Seeded, Apart, Replay;
    SizesAlike(m, blank, t, w.log);
    SizesAlike(m, blank, t, w.log[..Covered(w)]);
  }

  lemma {:induction false} TwinRun<S(!new)>(m: Machine<S>, blank: S, w: World<S>, t: Tape, v: World<Tape>, steps: seq<Step>)
    requires Sizable(m) && m.size(blank) == t.size && Twins(w, v) && Inv(m, blank, w) && Inv(Recorder(), t, v)
    ensures Twins(Run(m, blank, w, steps), Run(Recorder(), t, v, steps))
    decreases |steps|
  {
    hide Inv, Next, Twins;
    if steps != [] {
      var k := |steps| - 1;
      TwinRun(m, blank, w, t, v, steps[..k]);
      RunInv(m, blank, w, steps[..k]);
      RecorderIsSizable();
      RunInv(Recorder(), t, v, steps[..k]);
      TwinStep(m, blank, Run(m, blank, w, steps[..k]), t, Run(Recorder(), t, v, steps[..k]), steps[k]);
    }
  }

  /** Whatever is interleaved with it, a seed that was installed makes the restore point the daemon's
      own terminal, as of everything heard or of the snapshot while its sizes are in flight, exactly
      when the run has not drifted: then on every terminal, otherwise not on the one that remembers
      everything. */
  lemma {:induction false} SeededIsExact<S(!new)>(m: Machine<S>, blank: S, log: seq<Event>, seen: nat, fold: S, steps: seq<Step>, other: Tape)
    requires Sizable(m) && seen <= |log|
    ensures var w := Run(m, blank, Begin(log, seen, fold), steps);
            var t := Tape(m.size(blank), []);
            var v := Run(Recorder(), t, Begin(log, seen, other), steps);
            && v.seeded == w.seeded && v.log == w.log && v.seen == w.seen && v.lead == w.lead && v.drift == w.drift
            && (w.seeded && w.drift == EXACT ==> w.fold == Daemon(m, blank, w))
            && (w.seeded ==> (v.fold == Daemon(Recorder(), t, v) <==> w.drift == EXACT))
  {
    var t := Tape(m.size(blank), []);
    BeginInv(m, blank, log, seen, fold);
    BeginInv(Recorder(), t, log, seen, other);
    RunInv(m, blank, Begin(log, seen, fold), steps);
    TwinRun(m, blank, Begin(log, seen, fold), t, Begin(log, seen, other), steps);
    RecorderTells(t, log, seen, other, steps);
  }

  // ---- runs that drift ----

  /** Every size that was missed changes nothing, or is the one reported and was missed before any byte. */
  ghost predicate Early(size: Grid, missed: seq<Event>, g: Grid) {
    || AllOf(missed, size)
    || exists k :: 0 <= k < |missed| && OnlyTurn(missed, k, size, g)
  }

  predicate OnlyTurn(missed: seq<Event>, k: nat, size: Grid, g: Grid)
    requires k < |missed|
  {
    && missed[k] == Sized(g)
    && (forall i :: 0 <= i < k ==> missed[i] == Sized(size))
    && (forall i :: k < i < |missed| && missed[i].Sized? ==> missed[i].g == g)
  }

  predicate AllOf(es: seq<Event>, g: Grid) {
    forall i :: 0 <= i < |es| && es[i].Sized? ==> es[i].g == g
  }

  lemma {:induction false} NoTurns(g: Grid, es: seq<Event>)
    ensures AllOf(es, g) ==> Heard(g, es) == Tape(g, Outs(BytesOf(es)))
    ensures Plain(Heard(g, es).given) ==> AllOf(es, g)
    decreases |es|
  {
    if es != [] {
      var k := |es| - 1;
      NoTurns(g, es[..k]);
      var t, all := Heard(g, es[..k]).given, Heard(g, es).given;
      if Plain(all) {
        assert forall i :: 0 <= i < |t| ==> t[i] == all[i];
        if es[k] != Sized(g) {
          LastKept(Heard(g, es[..k]), es[k]);
        }
        assert forall i :: 0 <= i < k ==> es[i] == es[..k][i];
      }
    }
  }

  lemma LastKept(t: Tape, e: Event)
    requires e != Sized(t.size)
    ensures Record(t, e).given[|t.given|] == e
  {
  }

  /** Where the size first changes. */
  lemma {:induction false} FirstTurn(size: Grid, es: seq<Event>) returns (k: nat)
    requires !AllOf(es, size)
    ensures k < |es| && AllOf(es[..k], size) && es[k].Sized? && es[k].g != size
    decreases |es|
  {
    var n := |es| - 1;
    if AllOf(es[..n], size) {
      k := n;
      assert es == es[..n] + [es[n]];
    } else {
      k := FirstTurn(size, es[..n]);
      assert es[..n][..k] == es[..k];
    }
  }

  lemma HeardTurn(size: Grid, es: seq<Event>, k: nat)
    requires k < |es| && AllOf(es[..k], size) && es[k].Sized? && es[k].g != size
    ensures Heard(size, es).given == Outs(BytesOf(es[..k])) + [es[k]] + Heard(es[k].g, es[k + 1..]).given
  {
    hide Fold, Outs, BytesOf, AllOf;
    var before, after := es[..k], es[k + 1..];
    assert es == (before + [es[k]]) + after;
    NoTurns(size, before);
    FoldOne(Record, Tape(size, []), before, es[k]);
    FoldConcat(Record, Tape(size, []), before + [es[k]], after);
    RecordOn(Tape(es[k].g, Outs(BytesOf(before)) + [es[k]]), after);
  }

  /** A re-attach of a restore point in step keeps it so exactly then. */
  lemma MissedExactly(size: Grid, missed: seq<Event>)
    ensures var g := Heard(size, missed).size; Apart(EXACT, size, Replay(g, missed), missed) == EXACT <==> Early(size, missed, g)
  {
    hide Fold, Outs, BytesOf, AllOf, Replay;
    var g, b := Heard(size, missed).size, Heard(size, missed).given;
    ReplayHeard(Tape(size, []), g, missed);
    assert EXACT.sizes + Replay(g, missed) == Replay(g, missed);
    if AllOf(missed, size) {
      NoTurns(size, missed);
    } else {
      var k := FirstTurn(size, missed);
      HeardTurn(size, missed, k);
      OneTurn(size, missed, k, g);
      TurnExactly(size, missed, k, g);
    }
  }

  lemma TurnExactly(size: Grid, missed: seq<Event>, k: nat, g: Grid)
    requires k < |missed| && AllOf(missed[..k], size) && missed[k].Sized? && missed[k].g != size
    ensures Heard(size, missed).given == Heard(size, Replay(g, missed)).given
            <==> OnlyTurn(missed, k, size, g)
  {
    hide Fold, Outs, BytesOf, Replay;
    var e, before, after := missed[k], missed[..k], missed[k + 1..];
    var a, b := Heard(size, Replay(g, missed)).given, Heard(size, missed).given;
    HeardTurn(size, missed, k);
    ReplayHeard(Tape(size, []), g, missed);
    assert missed == before + ([e] + after);
    BytesConcat(before, [e] + after);
    BytesConcat([e], after);
    BytesOfOne(e);
    NoBytes(before);
    NoTurns(e.g, after);
    var x, rest := BytesOf(before), Heard(e.g, after).given;
    assert forall i :: 0 <= i < k ==> missed[i] == before[i];
    assert forall i :: k < i < |missed| ==> missed[i] == after[i - k - 1];
    if a == b {
      assert b[|x|] == e;
      assert x == [] && g != size && e == Sized(g);
      assert rest == b[1..] && a[1..] == Outs(BytesOf(missed));
    }
  }

  lemma OneTurn(size: Grid, missed: seq<Event>, k: nat, g: Grid)
    requires k < |missed| && AllOf(missed[..k], size) && missed[k].Sized? && missed[k].g != size
    ensures Early(size, missed, g) <==> OnlyTurn(missed, k, size, g)
  {
    assert forall i :: 0 <= i < k ==> missed[..k][i] == missed[i];
  }

  lemma RunOne<S>(m: Machine<S>, blank: S, w: World<S>, steps: seq<Step>, step: Step)
    requires Sane(w)
    ensures Run(m, blank, w, steps + [step]) == Next(m, blank, Run(m, blank, w, steps), step)
    ensures Run(m, blank, w, [step]) == Next(m, blank, w, step)
  {
    assert (steps + [step])[..|steps|] == steps;
    assert [step][..0] == [];
  }

  function Emits(es: seq<Event>): seq<Step> {
    seq(|es|, i requires 0 <= i < |es| => Emit(es[i]))
  }

  /** A restore point seeded at the start, and what the daemon went through since. */
  function Away(t: Tape, es: seq<Event>): World<Tape> {
    World(es, 0, t, 0, 0, 0, None, true, 0, EXACT)
  }

  lemma SeededAtStart(t: Tape)
    ensures Run(Recorder(), t, Begin([], 0, t), [ReadGen, Snapshot, Install]) == Away(t, [])
  {
    hide Run, Fold, BytesOf, Record, Seeded;
    var m, w0 := Recorder(), Begin([], 0, t);
    var w2: World<Tape> := World([], 0, t, 0, 0, 0, Some(0), false, 0, Off);
    var s1: seq<Step> := [ReadGen];
    RunOne(m, t, w0, [], ReadGen);
    RunOne(m, t, w0, s1, Snapshot);
    RunOne(m, t, w0, s1 + [Snapshot], Install);
    assert w2.log[..0] == [];
    SeedIsExact(m, t, w2, 0);
    NoFold(t);
    assert s1 + [Snapshot] + [Install] == [ReadGen, Snapshot, Install];
  }

  lemma {:induction false} EmitsAway(t: Tape, es: seq<Event>)
    ensures Run(Recorder(), t, Begin([], 0, t), [ReadGen, Snapshot, Install] + Emits(es)) == Away(t, es)
    decreases |es|
  {
    hide Run, Fold, BytesOf, Record;
    var s3: seq<Step> := [ReadGen, Snapshot, Install];
    SeededAtStart(t);
    if es == [] {
      assert s3 + Emits(es) == s3;
    } else {
      var k := |es| - 1;
      EmitsAway(t, es[..k]);
      assert s3 + Emits(es) == s3 + Emits(es[..k]) + [Emit(es[k])];
      RunOne(Recorder(), t, Begin([], 0, t), s3 + Emits(es[..k]), Emit(es[k]));
      assert es[..k] + [es[k]] == es;
    }
  }

  /** Whatever the daemon goes through while the stream is away, the seeded restore point is its terminal
      after a contiguous re-attach exactly when the missed sizes were early. */
  lemma MissedWhileAway(t: Tape, es: seq<Event>)
    ensures var g := Fold(Record, t, es).size;
            var w := Run(Recorder(), t, Begin([], 0, t), [ReadGen, Snapshot, Install] + Emits(es) + [Rejoin(g)]);
            w.seeded && w.seen == |w.log| && (w.fold == Daemon(Recorder(), t, w) <==> Early(t.size, es, g))
  {
    hide Run, Fold, BytesOf, Record, Replay, Apart, Early, Daemon, Heard;
    var m, g, steps := Recorder(), Fold(Record, t, es).size, [ReadGen, Snapshot, Install] + Emits(es);
    EmitsAway(t, es);
    RunOne(m, t, Begin([], 0, t), steps, Rejoin(g));
    assert es[0..] == es && es[..0] == [];
    DaemonAway(t, es);
    RecordOn(t, es);
    MissedExactly(t.size, es);
    RecorderTells(t, [], 0, t, steps + [Rejoin(g)]);
  }

  lemma DaemonAway(t: Tape, es: seq<Event>)
    ensures Daemon(Recorder(), t, Away(t, es)) == t
  {
    assert es[..0] == [];
  }

  /** Output and then a new size are missed: the size comes first. */
  lemma ResizedWhileAway(t: Tape, b: Byte, g: Grid)
    requires g != t.size
    ensures var w := Run(Recorder(), t, Begin([], 0, t), [ReadGen, Snapshot, Install, Emit(Out(b)), Emit(Sized(g)), Rejoin(g)]);
            w.seeded && w.seen == |w.log| && w.fold != Daemon(Recorder(), t, w)
  {
    hide Run, BytesOf, Daemon, Next;
    var es := [Out(b)] + [Sized(g)];
    FoldOne(Record, t, [Out(b)], Sized(g));
    FoldOne(Record, t, [], Out(b));
    MissedWhileAway(t, es);
    assert es[0] == Out(b) && es[1] == Sized(g) && es[..1][0] == es[0];
    assert [ReadGen, Snapshot, Install] + Emits(es) + [Rejoin(g)]
        == [ReadGen, Snapshot, Install, Emit(Out(b)), Emit(Sized(g)), Rejoin(g)];
  }

  /** So does output between a size and the way back: neither size is ever given. */
  lemma ThereAndBack(t: Tape, b: Byte, g: Grid)
    requires g != t.size
    ensures var w := Run(Recorder(), t, Begin([], 0, t),
                         [ReadGen, Snapshot, Install, Emit(Sized(g)), Emit(Out(b)), Emit(Sized(t.size)), Rejoin(t.size)]);
            w.seeded && w.seen == |w.log| && w.fold != Daemon(Recorder(), t, w)
  {
    hide Run, BytesOf, Daemon, Next;
    var es := [Sized(g)] + [Out(b)] + [Sized(t.size)];
    FoldOne(Record, t, [Sized(g)] + [Out(b)], Sized(t.size));
    MissedWhileAway(t, es);
    assert es[0] == Sized(g) && es[1] == Out(b) && es[2] == Sized(t.size);
    assert [ReadGen, Snapshot, Install] + Emits(es) + [Rejoin(t.size)]
        == [ReadGen, Snapshot, Install, Emit(Sized(g)), Emit(Out(b)), Emit(Sized(t.size)), Rejoin(t.size)];
  }

  /** The snapshot has seen two different sizes that are still in flight: they are given again. */
  lemma SizesGivenTwice(t: Tape, a: Grid, b: Grid)
    requires a != b
    ensures var w := Run(Recorder(), t, Begin([], 0, t), [ReadGen, Emit(Sized(b)), Emit(Sized(a)), Snapshot, Install, Hear, Hear]);
            w.seeded && w.seen == |w.log| && w.fold != Daemon(Recorder(), t, w)
  {
    hide Next, Run, Daemon, Apart;
    var m, w0 := Recorder(), Begin([], 0, t);
    var s4: seq<Step> := [ReadGen] + [Emit(Sized(b))] + [Emit(Sized(a))] + [Snapshot];
    TwoSizes(t, a, b);
    var w5 := InstallTwo(t, a, b);
    RunOne(m, t, w0, s4, Install);
    var w6 := HearAgainAt(t, w5, a);
    RunOne(m, t, w0, s4 + [Install], Hear);
    var w7 := HearAgainAt(t, w6, a);
    RunOne(m, t, w0, s4 + [Install] + [Hear], Hear);
    GivenTwice(a, b);
    var all := s4 + [Install] + [Hear] + [Hear];
    assert all == [ReadGen, Emit(Sized(b)), Emit(Sized(a)), Snapshot, Install, Hear, Hear];
    RecorderTells(t, [], 0, t, all);
  }

  lemma GivenTwice(a: Grid, b: Grid)
    requires a != b
    ensures Apart(Apart(EXACT, a, [Sized(b)], []), a, [Sized(a)], []) != EXACT
  {
    hide Fold;
    assert EXACT.sizes + [Sized(b)] == [] + [Sized(b)];
    FoldOne(Record, Tape(a, []), [], Sized(b));
    FoldOne(Record, Tape(a, []), [Sized(b)], Sized(a));
    NoFold(Tape(a, []));
  }

  lemma TwoSizes(t: Tape, a: Grid, b: Grid)
    ensures Run(Recorder(), t, Begin([], 0, t), [ReadGen] + [Emit(Sized(b))] + [Emit(Sized(a))] + [Snapshot])
         == World([Sized(b), Sized(a)], 0, t, 0, 0, 0, Some(2), false, 0, Off)
  {
    hide Run, Fold, BytesOf, Record;
    var m, w0 := Recorder(), Begin([], 0, t);
    var s1: seq<Step> := [ReadGen];
    RunOne(m, t, w0, [], ReadGen);
    RunOne(m, t, w0, s1, Emit(Sized(b)));
    RunOne(m, t, w0, s1 + [Emit(Sized(b))], Emit(Sized(a)));
    RunOne(m, t, w0, s1 + [Emit(Sized(b))] + [Emit(Sized(a))], Snapshot);
  }

  lemma InstallTwo(t: Tape, a: Grid, b: Grid) returns (w: World<Tape>)
    requires a != b
    ensures w == Next(Recorder(), t, World([Sized(b), Sized(a)], 0, t, 0, 0, 0, Some(2), false, 0, Off), Install)
    ensures Sane(w) && w.seeded && w.log == [Sized(b), Sized(a)] && w.seen == 0 && w.lead == 2 && w.drift == EXACT
    ensures Fold(Record, t, w.log[..2]).size == a
  {
    hide Fold, BytesOf, Record, Seeded;
    var w4: World<Tape> := World([Sized(b), Sized(a)], 0, t, 0, 0, 0, Some(2), false, 0, Off);
    NoBytes(w4.log[..0]);
    NoBytes(w4.log[..2]);
    w := Next(Recorder(), t, w4, Install);
    assert w4.log[..2] == [Sized(b)] + [Sized(a)];
    FoldOne(Record, t, [Sized(b)], Sized(a));
    LastSize(Fold(Record, t, [Sized(b)]), a);
  }

  /** A size that the seed already had is heard. */
  lemma HearAgainAt(t: Tape, w: World<Tape>, g: Grid) returns (r: World<Tape>)
    requires Sane(w) && w.seen < w.lead == |w.log| && Fold(Record, t, w.log[..w.lead]).size == g
    ensures r == Next(Recorder(), t, w, Hear) && Sane(r) && r.log == w.log && r.seen == w.seen + 1 && r.lead == w.lead && r.seeded == w.seeded
    ensures r.drift == Apart(w.drift, g, [w.log[w.seen]], [])
  {
    hide Fold, BytesOf, Record, Apart;
    r := Next(Recorder(), t, w, Hear);
  }

  lemma LastSize(t: Tape, g: Grid)
    ensures Record(t, Sized(g)).size == g
  {
  }
}
