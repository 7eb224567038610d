/** One browser's share of a session: its queue, the mark that it has lost something, and what its
    writer does with the queue. */
module Viewers {
  import opened Common
  import opened Folds
  import opened Queues
  import opened RestorePoints

  const QUEUE_CAPACITY: nat := 256
  const CONTROL_RESERVE: nat := 8

  /** `Told` is a size frame sent to one viewer alone; on the wire it is a `Resize`. */
  datatype Frame = Data(bytes: seq<Byte>) | Resize(g: Grid) | Told(g: Grid) | Resync(fast: bool)

  datatype Viewer = Viewer(ch: seq<Frame>, stale: bool, size: Grid, visibleOnce: bool)

  const SUBSCRIBED := Viewer([], false, Grid(0, 0), false)

  /** A queue never holds more than it can. */
  predicate Bounded(v: Viewer) {
    |v.ch| <= QUEUE_CAPACITY
  }

  function PushControl(ch: seq<Frame>, f: Frame): seq<Frame>
  {
    PushNewest(ch, f, QUEUE_CAPACITY)
  }

  function MarkStale(v: Viewer): (r: Viewer)
    ensures r.stale && (Bounded(v) ==> Bounded(r))
  {
    if v.stale then v else v.(stale := true, ch := PushControl(v.ch, Resync(false)))
  }

  /** What the pump does with one viewer when output arrives. */
  function Offer(v: Viewer, data: seq<Byte>): (r: Viewer)
    ensures Bounded(v) ==> Bounded(r)
  {
    if v.size.Zero() || v.stale then v
    else if !AdmitExpendable(|v.ch|, QUEUE_CAPACITY, CONTROL_RESERVE) then MarkStale(v)
    else if |v.ch| < QUEUE_CAPACITY then v.(ch := v.ch + [Data(data)])
    else MarkStale(v)
  }

  function PushResize(v: Viewer, f: Frame): (r: Viewer)
    ensures Bounded(v) ==> Bounded(r)
  {
    if |v.ch| < QUEUE_CAPACITY then v.(ch := v.ch + [f]) else MarkStale(v)
  }

  function Announce(v: Viewer, g: Grid): (r: Viewer)
    ensures Bounded(v) ==> Bounded(r)
  {
    if v.stale then v else PushResize(v, Resize(g))
  }

  function Tell(v: Viewer, g: Grid): (r: Viewer)
    ensures Bounded(v) ==> Bounded(r)
  {
    if v.stale then v else PushResize(v, Told(g))
  }

  /** The browser says how big its window is; 0x0 is one that is not showing the session. */
  function SetSize(v: Viewer, cols: nat, rows: nat, preserve: bool): (r: Viewer)
    ensures Bounded(v) ==> Bounded(r)
  {
    var g := if cols == 0 || rows == 0 then Grid(0, 0) else Grid(cols, rows);
    var sized := v.(size := g, visibleOnce := v.visibleOnce || !g.Zero());
    if v.size.Zero() && v.visibleOnce && !g.Zero()
    then sized.(stale := true, ch := PushControl(sized.ch, Resync(!preserve)))
    else sized
  }

  /** Brought to the present: nothing queued matters any more. */
  function Synced(v: Viewer): (r: Viewer)
    ensures Bounded(r)
  {
    v.(ch := [], stale := false)
  }

  // ---- a viewer and its writer, over a whole run ----

  function EventsOf(f: Frame): seq<Event> {
    match f
    case Data(bytes) => Outs(bytes)
    case Resize(g) => [Sized(g)]
    case Told(_) => []
    case Resync(_) => []
  }

  function Events(fs: seq<Frame>): seq<Event>
    decreases |fs|
  {
    if fs == [] then [] else Events(fs[..|fs| - 1]) + EventsOf(fs[|fs| - 1])
  }

  lemma Regroup<T>(a: seq<T>, b: seq<T>, c: seq<T>)
    ensures (a + b) + c == a + (b + c)
  {
  }

  lemma {:induction false} EventsConcat(a: seq<Frame>, b: seq<Frame>)
    ensures Events(a + b) == Events(a) + Events(b)
    decreases |b|
  {
    if b == [] {
      assert a + b == a;
    } else {
      var k := |b| - 1;
      var all := a + b;
      assert all[..|all| - 1] == a + b[..k] && all[|all| - 1] == b[k];
      EventsConcat(a, b[..k]);
      Regroup(Events(a), Events(b[..k]), EventsOf(b[k]));
    }
  }

  lemma EventsMore(q: seq<Frame>, f: Frame)
    ensures Events(q + [f]) == Events(q) + EventsOf(f)
    ensures Events([f]) == EventsOf(f)
  {
    assert (q + [f])[..|q|] == q;
    assert [f][..0] == [];
  }

  /** A viewer, everything that has happened on the stream, how much of it had happened at the
      viewer's last sync, and what its writer has sent since. `lost` counts events the viewer will
      not be sent, `adrift` those of them for which nothing will bring it to the present. */
  datatype Story = Story(v: Viewer, world: seq<Event>, base: nat, got: seq<Frame>, syncing: bool,
                         lost: nat, adrift: nat)

  const BEGIN := Story(SUBSCRIBED, [], 0, [], false, 0, 0)

  datatype Step =
    | Output(data: seq<Byte>)                            // the pump fans out a chunk
    | Applied(g: Grid)                                   // the session's size changed, in the stream
    | Adopted(g: Grid)                                   // a re-attach found the session at another size
    | Restarted                                          // the restore point changed under every viewer
    | Answered(g: Grid)                                  // this viewer is told the size it did not get
    | Window(cols: nat, rows: nat, preserve: bool)       // the browser declares its window
    | Write                                              // the writer takes the next frame
    | Sync                                               // the writer brings the viewer to the present

  function Skip(s: Story, n: nat): Story {
    if s.v.stale then s
    else s.(lost := s.lost + n, adrift := s.adrift + if s.v.size.Zero() && s.v.visibleOnce then 0 else n)
  }

  function WriteNext(s: Story): Story
    requires s.v.ch != []
  {
    var f := s.v.ch[0];
    var rest := s.(v := s.v.(ch := s.v.ch[1..]));
    if f.Resync? then rest.(syncing := true)
    else if s.v.size.Zero() then Skip(rest, |EventsOf(f)|)
    else rest.(got := s.got + [f])
  }

  function Next(s: Story, step: Step): (r: Story)
    ensures Bounded(s.v) ==> Bounded(r.v)
  {
    match step
    case Output(data) =>
      var seen := if s.v.size.Zero() then Skip(s, |data|) else s;
      seen.(v := Offer(s.v, data), world := s.world + Outs(data))
    case Applied(g) => s.(v := Announce(s.v, g), world := s.world + [Sized(g)])
    case Adopted(g) => Skip(s, 1).(world := s.world + [Sized(g)])
    case Restarted => s.(v := MarkStale(s.v))
    case Answered(g) => s.(v := Tell(s.v, g))
    case Window(cols, rows, preserve) => s.(v := SetSize(s.v, cols, rows, preserve))
    case Write => if s.syncing || s.v.ch == [] then s else WriteNext(s)
    case Sync => s.(v := Synced(s.v), base := |s.world|, got := [], syncing := false, lost := 0, adrift := 0)
  }

  function Run(steps: seq<Step>): (s: Story)
    ensures Bounded(s.v)
    decreases |steps|
  {
    if steps == [] then BEGIN else Next(Run(steps[..|steps| - 1]), steps[|steps| - 1])
  }

  /** What the viewer has been sent since its last sync, and what is queued for it. */
  function Sent(s: Story): seq<Event> {
    Events(s.got) + Events(s.v.ch)
  }

  predicate Calm(ch: seq<Frame>) {
    forall i :: 0 <= i < |ch| ==> !ch[i].Resync?
  }

  predicate Owed(ch: seq<Frame>) {
    !Calm(ch)
  }

  /** A viewer that has lost nothing holds the stream since its sync, whole and in order. */
  predicate Whole(s: Story) {
    && s.base <= |s.world|
    && |Sent(s)| + s.lost == |s.world| - s.base
    && (s.lost == 0 ==> Sent(s) == s.world[s.base..])
    && (!s.v.size.Zero() ==> s.lost == s.adrift)
    && s.adrift <= s.lost
    && (!s.v.visibleOnce ==> s.lost == s.adrift && s.v.size.Zero())
  }

  predicate Inv(s: Story): (holds: bool)
    ensures holds ==> Bounded(s.v)
  {
    && Bounded(s.v)
    && (s.v.stale <==> s.syncing || Owed(s.v.ch))
    && (!s.v.stale ==> Whole(s))
    && (s.v.visibleOnce || s.v.size.Zero())
  }

  // ---- each step keeps the invariant ----

  /** A queued frame extends what the viewer holds by its events. */
  lemma Queued(s: Story, f: Frame)
    ensures Sent(s.(v := s.v.(ch := s.v.ch + [f]))) == Sent(s) + EventsOf(f)
  {
    hide EventsOf, Outs;
    EventsMore(s.v.ch, f);
    assert Events(s.got) + (Events(s.v.ch) + EventsOf(f)) == Sent(s) + EventsOf(f);
  }

  /** A frame the writer takes moves from the queue to what was sent, or is skipped. */
  lemma Written(got: seq<Frame>, ch: seq<Frame>)
    requires ch != []
    ensures Events(got + [ch[0]]) + Events(ch[1..]) == Events(got) + Events(ch)
    ensures |Events(got) + Events(ch[1..])| + |EventsOf(ch[0])| == |Events(got) + Events(ch)|
    ensures EventsOf(ch[0]) == [] ==> Events(got) + Events(ch[1..]) == Events(got) + Events(ch)
  {
    hide EventsOf, Outs, Events;
    Dropped(ch);
    EventsMore(got, ch[0]);
    Regroup(Events(got), EventsOf(ch[0]), Events(ch[1..]));
  }

  lemma Dropped(ch: seq<Frame>)
    requires ch != []
    ensures Events(ch) == EventsOf(ch[0]) + Events(ch[1..])
  {
    hide Outs, EventsOf;
    assert ch == [ch[0]] + ch[1..];
    EventsConcat([ch[0]], ch[1..]);
    EventsMore([], ch[0]);
  }

  lemma StaleOwes(v: Viewer)
    requires Bounded(v) && !v.stale && Calm(v.ch)
    ensures Owed(MarkStale(v).ch)
  {
    var ch := MarkStale(v).ch;
    assert ch[|ch| - 1] == Resync(false);
  }

  lemma Grown(world: seq<Event>, base: nat, more: seq<Event>)
    requires base <= |world|
    ensures (world + more)[base..] == world[base..] + more
  {
  }

  lemma OutputKeeps(s: Story, data: seq<Byte>)
    requires Inv(s)
    ensures Inv(Next(s, Output(data)))
  {
    hide Events, Outs;
    var t := Next(s, Output(data));
    if !s.v.stale {
      Grown(s.world, s.base, Outs(data));
      if t.v.stale {
        StaleOwes(s.v);
      } else if !s.v.size.Zero() {
        Queued(s, Data(data));
      }
    }
  }

  lemma AppliedKeeps(s: Story, g: Grid)
    requires Inv(s)
    ensures Inv(Next(s, Applied(g))) && Inv(Next(s, Adopted(g))) && Inv(Next(s, Answered(g)))
  {
    hide Events, Outs;
    if !s.v.stale {
      Grown(s.world, s.base, [Sized(g)]);
      if |s.v.ch| < QUEUE_CAPACITY {
        Queued(s, Resize(g));
        Queued(s, Told(g));
        assert Sent(s) + [] == Sent(s);
      } else {
        StaleOwes(s.v);
      }
    }
  }

  lemma WriteKeeps(s: Story)
    requires Inv(s)
    ensures Inv(Next(s, Write))
  {
    hide Events, Outs;
    if !s.syncing && s.v.ch != [] {
      Written(s.got, s.v.ch);
      if s.v.stale {
        var i :| 0 <= i < |s.v.ch| && s.v.ch[i].Resync?;
        if 0 < i {
          assert s.v.ch[1..][i - 1].Resync?;
        }
      }
    }
  }

  lemma WindowKeeps(s: Story, cols: nat, rows: nat, preserve: bool)
    requires Inv(s)
    ensures Inv(Next(s, Window(cols, rows, preserve))) && Inv(Next(s, Restarted)) && Inv(Next(s, Sync))
  {
    hide Outs, EventsOf;
    if !s.v.stale {
      StaleOwes(s.v);
    }
    var w := SetSize(s.v, cols, rows, preserve);
    if s.v.size.Zero() && s.v.visibleOnce && !w.size.Zero() {
      assert w.ch[|w.ch| - 1].Resync?;
    }
  }

  lemma {:induction false} RunInv(steps: seq<Step>)
    ensures Inv(Run(steps))
    decreases |steps|
  {
    hide Inv, Next;
    if steps == [] {
      BeginInv();
    } else {
      var k := |steps| - 1;
      RunInv(steps[..k]);
      var s := Run(steps[..k]);
      StepKeeps(s, steps[k]);
    }
  }

  lemma BeginInv()
    ensures Inv(BEGIN)
  {
  }

  lemma StepKeeps(s: Story, step: Step)
    requires Inv(s)
    ensures Inv(Next(s, step))
  {
    hide Inv, Next;
    match step
    case Output(data) => OutputKeeps(s, data);
    case Applied(g) => AppliedKeeps(s, g);
    case Adopted(g) => AppliedKeeps(s, g);
    case Restarted => WindowKeeps(s, 0, 0, false);
    case Answered(g) => AppliedKeeps(s, g);
    case Window(cols, rows, preserve) => WindowKeeps(s, cols, rows, preserve);
    case Write => WriteKeeps(s);
    case Sync => WindowKeeps(s, 0, 0, false);
  }

  // ---- what every run promises ----

  /** The step is something a viewer that has never been shown misses, or a new size that no viewer is
      told of, and nothing will make up for it. */
  predicate Slips(v: Viewer, step: Step) {
    !v.stale && match step
      case Output(data) => data != [] && v.size.Zero() && !v.visibleOnce
      case Write => v.ch != [] && EventsOf(v.ch[0]) != [] && v.size.Zero() && !v.visibleOnce
      case Adopted(_) => !(v.size.Zero() && v.visibleOnce)
      case _ => false
  }

  /** One of the steps after the last sync slipped past the viewer. */
  ghost predicate Slipped(steps: seq<Step>) {
    exists n :: 0 <= n < |steps| && Sync !in steps[n + 1..] && SlipAt(steps, n)
  }

  ghost predicate SlipAt(steps: seq<Step>, n: nat)
    requires n < |steps|
  {
    Slips(Run(steps[..n]).v, steps[n])
  }

  lemma SlipCounts(s: Story, step: Step)
    requires Inv(s) && step != Sync
    ensures Next(s, step).adrift > 0 <==> s.adrift > 0 || Slips(s.v, step)
  {
    hide Outs, Events;
  }

  /** What is adrift is what has slipped past since the last sync. */
  lemma {:induction false} AdriftSlipped(steps: seq<Step>)
    ensures Run(steps).adrift > 0 <==> Slipped(steps)
    decreases |steps|
  {
    hide Inv, Next, Slips;
    if steps != [] {
      var k := |steps| - 1;
      var before := steps[..k];
      AdriftSlipped(before);
      RunInv(before);
      if steps[k] == Sync {
        NewSync(Run(before));
        forall n | 0 <= n < k && SlipAt(steps, n)
          ensures Sync in steps[n + 1..]
        {
          assert steps[n + 1..][k - n - 1] == Sync;
        }
      } else {
        SlipCounts(Run(before), steps[k]);
        forall n | 0 <= n < k
          ensures (Sync in steps[n + 1..] <==> Sync in before[n + 1..]) && SlipAt(steps, n) == SlipAt(before, n)
        {
          assert steps[n + 1..] == before[n + 1..] + [steps[k]];
          assert steps[..n] == before[..n];
        }
        assert SlipAt(steps, k) <==> Slips(Run(before).v, steps[k]);
      }
    }
  }

  lemma NewSync(s: Story)
    ensures Next(s, Sync).adrift == 0 && forall v: Viewer :: !Slips(v, Sync)
  {
  }

  /** In every run, a viewer that is shown and not marked stale holds the stream since its last sync,
      each event once and in order, exactly when no step since that sync slipped past it: no output and
      no queued frame before its window was first shown, and no re-attach at another size. And a viewer
      is marked stale exactly while a resync is queued for it or in its writer's hands. */
  lemma ExactlyOnce(steps: seq<Step>)
    ensures var s := Run(steps);
            && Bounded(s.v)
            && (s.v.stale <==> s.syncing || Owed(s.v.ch))
            && (!s.v.stale && !s.v.size.Zero() ==>
                  && s.base <= |s.world|
                  && (Sent(s) == s.world[s.base..] <==> !Slipped(steps)))
  {
    hide Slipped;
    RunInv(steps);
    AdriftSlipped(steps);
  }

  // ---- when a viewer falls behind ----

  /** The step is more than this viewer can be given in order: output when 248 frames are queued for it, a
      size when all 256 places are taken, a restore point that is no longer the one it was drawn from, or
      being shown again. */
  predicate Overtaken(v: Viewer, step: Step) {
    match step
    case Output(_) => !v.size.Zero() && |v.ch| >= 248
    case Applied(_) => |v.ch| >= 256
    case Answered(_) => |v.ch| >= 256
    case Restarted => true
    case Window(cols, rows, _) => v.size.Zero() && v.visibleOnce && cols > 0 && rows > 0
    case _ => false
  }

  /** One step: only these make a viewer stale, and only a sync makes it fresh. */
  lemma StaleStepwise(s: Story, step: Step)
    requires Inv(s)
    ensures Next(s, step).v.stale <==> step != Sync && (s.v.stale || Overtaken(s.v, step))
  {
    hide Outs, Events, EventsOf;
  }

  ghost predicate OvertakenAt(steps: seq<Step>, n: nat)
    requires n < |steps|
  {
    Overtaken(Run(steps[..n]).v, steps[n])
  }

  ghost predicate FellBehind(steps: seq<Step>) {
    exists n :: 0 <= n < |steps| && Sync !in steps[n + 1..] && steps[n] != Sync && OvertakenAt(steps, n)
  }

  /** In every run, a viewer is stale exactly when one of the steps since its last sync was more than it
      could be given: one whose queue is emptied in time is never stale but for a return or a restart. */
  lemma {:induction false} StaleExactly(steps: seq<Step>)
    ensures Run(steps).v.stale <==> FellBehind(steps)
    decreases |steps|
  {
    hide Inv, Next, Overtaken;
    if steps == [] {
      assert !BEGIN.v.stale;
    } else {
      var k := |steps| - 1;
      var before := steps[..k];
      StaleExactly(before);
      RunInv(before);
      StaleStepwise(Run(before), steps[k]);
      if steps[k] == Sync {
        forall n | 0 <= n < k && OvertakenAt(steps, n)
          ensures Sync in steps[n + 1..]
        {
          assert steps[n + 1..][k - n - 1] == Sync;
        }
      } else {
        forall n | 0 <= n < k
          ensures (Sync in steps[n + 1..] <==> Sync in before[n + 1..]) && OvertakenAt(steps, n) == OvertakenAt(before, n)
        {
          assert steps[n + 1..] == before[n + 1..] + [steps[k]];
          assert steps[..n] == before[..n];
        }
        assert OvertakenAt(steps, k) <==> Overtaken(Run(before).v, steps[k]);
      }
    }
  }

  /** In every run, output reaches a viewer that is shown and not stale, after all it has been sent, unless
      248 frames are waiting; then, and only then, is it marked stale instead. */
  lemma Delivered(steps: seq<Step>, data: seq<Byte>)
    ensures var s, t := Run(steps), Run(steps + [Output(data)]);
            !s.v.stale && !s.v.size.Zero() ==>
              && (t.v.stale <==> |s.v.ch| >= 248)
              && (!t.v.stale ==> Sent(t) == Sent(s) + Outs(data) && t.v.ch == s.v.ch + [Data(data)] && t.got == s.got)
  {
    hide Outs, Events;
    var all := steps + [Output(data)];
    assert all[..|all| - 1] == steps;
    Queued(Run(steps), Data(data));
  }

  /** A viewer that becomes stale is owed one resync, behind all it was sent; a fast one exactly when its
      window is shown again and did not ask for its scrollback to be preserved. */
  lemma OwedOne(steps: seq<Step>, step: Step)
    ensures var s, t := Run(steps), Run(steps + [step]);
            !s.v.stale && t.v.stale ==>
              && t.v.ch != [] && Calm(t.v.ch[..|t.v.ch| - 1])
              && t.v.ch[|t.v.ch| - 1] == Resync(step.Window? && !step.preserve)
    ensures var s, t := Run(steps), Run(steps + [step]);
            step.Window? && Overtaken(s.v, step) ==> t.v.ch != [] && t.v.ch[|t.v.ch| - 1] == Resync(!step.preserve)
  {
    hide Outs, Events, EventsOf;
    RunInv(steps);
    var all := steps + [step];
    assert all[..|all| - 1] == steps;
  }

  /** A size goes the same way, to every viewer that is not stale, until all 256 places are taken. */
  lemma Announced(steps: seq<Step>, g: Grid)
    ensures var s, t := Run(steps), Run(steps + [Applied(g)]);
            !s.v.stale ==>
              && (t.v.stale <==> |s.v.ch| >= 256)
              && (!t.v.stale ==> Sent(t) == Sent(s) + [Sized(g)] && t.got == s.got)
  {
    hide Outs, Events;
    RunInv(steps);
    var all := steps + [Applied(g)];
    assert all[..|all| - 1] == steps;
    Queued(Run(steps), Resize(g));
  }

  /** Continuing a run. */
  function Continue(s: Story, steps: seq<Step>): (t: Story)
    ensures Bounded(s.v) ==> Bounded(t.v)
    decreases |steps|
  {
    if steps == [] then s else Next(Continue(s, steps[..|steps| - 1]), steps[|steps| - 1])
  }

  lemma {:induction false} Continued(steps: seq<Step>, more: seq<Step>)
    ensures Continue(Run(steps), more) == Run(steps + more)
    decreases |more|
  {
    hide Next;
    if more == [] {
      assert steps + more == steps;
    } else {
      var k := |more| - 1;
      var all := steps + more;
      assert all[..|all| - 1] == steps + more[..k] && all[|all| - 1] == more[k];
      Continued(steps, more[..k]);
    }
  }

  /** Nothing is queued for a stale viewer but requests to sync: what is left of its queue is what was
      there when it became stale. */
  lemma {:induction false} SilentUntilSync(s: Story, steps: seq<Step>) returns (k: nat)
    requires Inv(s) && s.v.stale && Sync !in steps
    ensures var t := Continue(s, steps);
            Inv(t) && t.v.stale && k <= |Events(s.v.ch)| && Events(t.v.ch) == Events(s.v.ch)[k..]
    decreases |steps|
  {
    hide Inv, Outs, EventsOf;
    if steps == [] {
      k := 0;
    } else {
      var n := |steps| - 1;
      assert Sync !in steps[..n] && steps[n] != Sync;
      var before := SilentUntilSync(s, steps[..n]);
      var t := Continue(s, steps[..n]);
      StepKeeps(t, steps[n]);
      var more := StaleStep(t, steps[n]);
      k := before + more;
    }
  }

  lemma StaleQueue(t: Story, step: Step)
    requires Bounded(t.v) && t.v.stale && step != Sync
    ensures var u := Next(t, step).v;
            && u.stale
            && (|| u.ch == t.v.ch
                || (t.v.ch != [] && u.ch == t.v.ch[1..])
                || (exists fast :: u.ch == PushControl(t.v.ch, Resync(fast))))
  {
    hide Outs, EventsOf;
    if step.Window? {
      assert SetSize(t.v, step.cols, step.rows, step.preserve).ch in [t.v.ch, PushControl(t.v.ch, Resync(!step.preserve))];
    }
  }

  lemma StaleStep(t: Story, step: Step) returns (k: nat)
    requires Inv(t) && t.v.stale && step != Sync
    ensures var u := Next(t, step);
            u.v.stale && k <= |Events(t.v.ch)| && Events(u.v.ch) == Events(t.v.ch)[k..]
  {
    hide Outs, Inv, Next, Events;
    var ch := t.v.ch;
    StaleQueue(t, step);
    var u := Next(t, step).v.ch;
    if u == ch {
      k := 0;
    } else if ch != [] && u == ch[1..] {
      Dropped(ch);
      k := |EventsOf(ch[0])|;
    } else {
      var fast :| u == PushControl(ch, Resync(fast));
      k := Pushed(ch, Resync(fast));
    }
  }

  lemma Pushed(ch: seq<Frame>, f: Frame) returns (k: nat)
    requires |ch| <= QUEUE_CAPACITY && f.Resync?
    ensures k <= |Events(ch)| && Events(PushControl(ch, f)) == Events(ch)[k..]
  {
    hide Outs, Events;
    if |ch| < QUEUE_CAPACITY {
      EventsMore(ch, f);
      k := 0;
    } else {
      Dropped(ch);
      EventsMore(ch[1..], f);
      k := |EventsOf(ch[0])|;
    }
  }

  function Writes(n: nat): (steps: seq<Step>)
    ensures |steps| == n
  {
    seq(n, _ => Write)
  }

  /** A stale viewer's writer comes to the resync by taking no more than what is queued. */
  lemma {:induction false} ResyncIsReached(s: Story)
    requires Inv(s) && s.v.stale
    ensures Continue(s, Writes(|s.v.ch|)).syncing
    decreases |s.v.ch|
  {
    hide Inv;
    InvStale(s);
    if s.syncing {
      StaysSyncing(s, |s.v.ch|);
    } else {
      WriteKeeps(s);
      var t := Next(s, Write);
      ResyncIsReached(t);
      Unshift(s, |s.v.ch| - 1);
    }
  }

  lemma InvStale(s: Story)
    requires Inv(s) && s.v.stale
    ensures s.syncing || s.v.ch != []
  {
  }

  lemma {:induction false} StaysSyncing(s: Story, n: nat)
    requires Bounded(s.v) && s.syncing
    ensures Continue(s, Writes(n)).syncing
  {
    if n != 0 {
      assert Writes(n)[..n - 1] == Writes(n - 1);
      StaysSyncing(s, n - 1);
    }
  }

  lemma {:induction false} Unshift(s: Story, n: nat)
    requires Bounded(s.v)
    ensures Continue(s, Writes(n + 1)) == Continue(Next(s, Write), Writes(n))
  {
    hide Next;
    assert Writes(n + 1)[..n] == Writes(n);
    if n != 0 {
      assert Writes(n)[..n - 1] == Writes(n - 1);
      Unshift(s, n - 1);
    } else {
      assert Continue(s, Writes(0)) == s;
    }
  }

  /** Once a viewer has been shown, only a re-attach at another size can slip past it. */
  lemma {:induction false} NeverAdrift(s: Story, steps: seq<Step>)
    requires Inv(s) && s.v.visibleOnce && s.adrift == 0
    requires forall g :: Adopted(g) !in steps
    ensures var t := Continue(s, steps); Inv(t) && t.v.visibleOnce && t.adrift == 0
    decreases |steps|
  {
    hide Inv, Sent, Outs;
    if steps != [] {
      var n := |steps| - 1;
      assert forall g :: Adopted(g) !in steps[..n];
      NeverAdrift(s, steps[..n]);
      var t := Continue(s, steps[..n]);
      StepKeeps(t, steps[n]);
      StaysAshore(t, steps[n]);
    }
  }

  lemma StaysAshore(t: Story, step: Step)
    requires Inv(t) && t.v.visibleOnce && t.adrift == 0 && !step.Adopted?
    ensures Next(t, step).v.visibleOnce && Next(t, step).adrift == 0
  {
    hide Sent, Outs;
  }

  /** What the browser shows: the restore point of its last sync, and what its writer has sent since.
      It is the session's terminal at some point of the stream, and the present once its queue is
      empty. */
  lemma ShowsAMoment<S>(m: Machine<S>, origin: S, s: Story)
    requires Inv(s) && !s.v.stale && !s.v.size.Zero() && s.adrift == 0
    ensures var shown := m.After(m.After(origin, s.world[..s.base]), Events(s.got));
            && s.base + |Events(s.got)| <= |s.world|
            && shown == m.After(origin, s.world[..s.base + |Events(s.got)|])
            && (s.v.ch == [] ==> shown == m.After(origin, s.world))
  {
    hide Fold, Outs;
    var got := Events(s.got);
    FoldConcat(m.step, origin, s.world[..s.base], got);
    assert Sent(s) == s.world[s.base..];
    assert got == s.world[s.base..s.base + |got|];
    assert s.world[..s.base] + got == s.world[..s.base + |got|];
    if s.v.ch == [] {
      assert Sent(s) == got;
      assert s.world[..|s.world|] == s.world;
    }
  }

  // ---- two ways past the mark ----

  /** A browser is synced when it connects, before it has said how big it is; what is printed before
      its first size is dropped, and nothing asks for a resync. */
  lemma ConnectDrifts()
    ensures var s := Run([Sync, Output([0x41]), Window(80, 24, false)]);
            && !s.v.stale && !s.v.size.Zero() && s.v.ch == [] && s.got == []
            && s.base < |s.world| && Sent(s) != s.world[s.base..]
  {
    var a := [Sync];
    var b := a + [Output([0x41])];
    var c := b + [Window(80, 24, false)];
    assert c == [Sync, Output([0x41]), Window(80, 24, false)];
    assert a[..0] == [] && b[..1] == a && c[..2] == b;
    assert Run(a) == Next(BEGIN, Sync);
    assert Run(b) == Next(Run(a), Output([0x41]));
    assert Run(c) == Next(Run(b), Window(80, 24, false));
  }

  /** The size last announced to a viewer. */
  function LastSize(fs: seq<Frame>, g: Grid): Grid
    decreases |fs|
  {
    if fs == [] then g
    else
      match fs[|fs| - 1]
      case Resize(r) => r
      case Told(r) => r
      case _ => LastSize(fs[..|fs| - 1], g)
  }

  function SizeOf(world: seq<Event>, g: Grid): Grid
    decreases |world|
  {
    if world == [] then g
    else if world[|world| - 1].Sized? then world[|world| - 1].g
    else SizeOf(world[..|world| - 1], g)
  }

  /** The answer to a size that was not granted is read before it is queued: what the viewer was last
      told is the session's size exactly when no other size came in between. */
  lemma AnswerMayBeOld(s: Story, asked: Grid, between: seq<Grid>, first: Grid)
    requires Inv(s) && !s.v.stale && |s.v.ch| + |between| < QUEUE_CAPACITY
    requires SizeOf(s.world, first) == asked
    ensures var t := Next(AllApplied(s, between), Answered(asked));
            && !t.v.stale
            && LastSize(t.v.ch, first) == asked
            && (LastSize(t.v.ch, first) == SizeOf(t.world, first) <==>
                  between == [] || between[|between| - 1] == asked)
  {
    ManyApplied(s, between);
    var t := AllApplied(s, between);
    assert (t.v.ch + [Told(asked)])[..|t.v.ch|] == t.v.ch;
    if between != [] {
      LastApplied(s, between);
    }
  }

  function AllApplied(s: Story, gs: seq<Grid>): (t: Story)
    decreases |gs|
  {
    if gs == [] then s else Next(AllApplied(s, gs[..|gs| - 1]), Applied(gs[|gs| - 1]))
  }

  lemma {:induction false} ManyApplied(s: Story, gs: seq<Grid>)
    requires Bounded(s.v) && !s.v.stale && |s.v.ch| + |gs| < QUEUE_CAPACITY
    ensures var t := AllApplied(s, gs); !t.v.stale && |t.v.ch| == |s.v.ch| + |gs|
    decreases |gs|
  {
    if gs != [] {
      ManyApplied(s, gs[..|gs| - 1]);
    }
  }

  lemma LastApplied(s: Story, gs: seq<Grid>)
    requires Bounded(s.v) && gs != []
    ensures AllApplied(s, gs).world == AllApplied(s, gs[..|gs| - 1]).world + [Sized(gs[|gs| - 1])]
  {
  }
}
