/** A session on the server: its restore point and its viewers, which every chunk of output reaches in
    one critical section. */
module Sessions {
  import opened Common
  import opened Folds
  import opened Ring
  import opened RestorePoints
  import opened Viewers

  type Id = string

  /** What a viewer was brought to at its last sync, and how much of the stream had been heard then. */
  datatype Sight<!S> = Sight(origin: S, whole: seq<Event>, mark: nat)

  /** Resizing a terminal to the size it has does nothing. */
  ghost predicate Steady<S(!new)>(m: Machine<S>) {
    forall s: S :: m.step(s, Sized(m.size(s))) == s
  }

  lemma AfterMore<S>(m: Machine<S>, a: S, as': seq<Event>, b: S, bs: seq<Event>, more: seq<Event>)
    requires m.After(a, as') == m.After(b, bs)
    ensures m.After(a, as' + more) == m.After(b, bs + more)
  {
    FoldConcat(m.step, a, as', more);
    FoldConcat(m.step, b, bs, more);
  }

  /** Daemon offset `daemon` went into the ring at position `ring`. */
  datatype StreamBase = StreamBase(daemon: nat, ring: nat)

  datatype Verdict =
    | Installed     // the restore point stands on the snapshot
    | Moved         // the snapshot no longer describes a point that can be installed at
    | InFlight      // bytes the snapshot has seen are still on their way
    | Holed         // offsets no longer map onto the ring
    | TooOld        // the snapshot predates this attachment's replay

  /** What each step does to the viewer itself, and to the stream it is told. */
  lemma StepEffects(s: Story, data: seq<Byte>, g: Grid)
    ensures Next(s, Output(data)).v == Offer(s.v, data) && Next(s, Output(data)).world == s.world + Outs(data)
    ensures Next(s, Applied(g)).v == Announce(s.v, g) && Next(s, Applied(g)).world == s.world + [Sized(g)]
    ensures Next(s, Adopted(g)).v == s.v && Next(s, Adopted(g)).world == s.world + [Sized(g)]
    ensures Next(s, Restarted).v == MarkStale(s.v) && Next(s, Restarted).world == s.world
    ensures Next(s, Answered(g)).v == Tell(s.v, g) && Next(s, Answered(g)).world == s.world
    ensures Next(s, Sync).v == Synced(s.v) && Next(s, Sync).world == s.world
  {
    hide Outs, Offer, Announce, Tell, MarkStale;
  }

  lemma WindowEffect(s: Story, cols: nat, rows: nat, preserve: bool)
    ensures Next(s, Window(cols, rows, preserve)).v == SetSize(s.v, cols, rows, preserve)
    ensures Next(s, Window(cols, rows, preserve)).world == s.world
  {
    hide SetSize;
  }

  lemma WriteEffect(s: Story)
    requires !s.syncing && s.v.ch != []
    ensures Next(s, Write).v == s.v.(ch := s.v.ch[1..]) && Next(s, Write).world == s.world
  {
    hide EventsOf;
  }

  /** A frame makes no stale viewer fresh. */
  lemma StaysStale(v: Viewer, data: seq<Byte>, g: Grid)
    ensures v.stale ==> Offer(v, data).stale && Announce(v, g).stale
  {
  }

  lemma ResizedStays(v: Viewer, cols: nat, rows: nat, preserve: bool)
    ensures v.stale ==> SetSize(v, cols, rows, preserve).stale
  {
  }

  lemma ToldStays(v: Viewer, g: Grid)
    ensures v.stale ==> Tell(v, g) == v
  {
  }

  /** Only a sync moves the place from which a viewer is sent the stream. */
  lemma BaseKept(s: Story, step: Step)
    ensures step != Sync ==> Next(s, step).base == s.base
    ensures Next(s, Sync).base == |s.world|
  {
    hide Outs, EventsOf;
  }

  function Bases(stories: map<Id, Story>): map<Id, nat> {
    map id | id in stories :: stories[id].base
  }

  lemma BasesFollow(stories: map<Id, Story>, step: Step)
    requires step != Sync
    ensures Bases(map id | id in stories :: Next(stories[id], step)) == Bases(stories)
  {
    hide Next;
    forall id | id in stories
      ensures Next(stories[id], step).base == stories[id].base
    {
      BaseKept(stories[id], step);
    }
  }

  /** What was fanned out since `base` is what was heard since `mark`. */
  ghost predicate InStep(base: nat, mark: nat, fanned: seq<Event>, heard: seq<Event>) {
    base <= |fanned| && mark <= |heard| && fanned[base..] == heard[mark..]
  }

  lemma InStepMore(base: nat, mark: nat, fanned: seq<Event>, heard: seq<Event>, more: seq<Event>)
    requires InStep(base, mark, fanned, heard)
    ensures InStep(base, mark, fanned + more, heard + more)
  {
    assert (fanned + more)[base..] == fanned[base..] + more;
    assert (heard + more)[mark..] == heard[mark..] + more;
  }

  /** The last size of any extent, if there was one. */
  function Latest(gs: seq<Grid>): (g: Grid)
    ensures g.Zero() ==> g == Grid(0, 0)
    decreases |gs|
  {
    if gs == [] then Grid(0, 0)
    else if gs[|gs| - 1].cols > 0 && gs[|gs| - 1].rows > 0 then gs[|gs| - 1]
    else Latest(gs[..|gs| - 1])
  }

  /** The size a viewer is drawn on: the last one the session is known to have had, or the one sessions are
      spawned with. */
  function KnownGrid(gs: seq<Grid>): Grid {
    if Latest(gs) == Grid(0, 0) then Grid(220, 50) else Latest(gs)
  }

  lemma LatestMore(gs: seq<Grid>, g: Grid)
    ensures Latest(gs + [g]) == if g.Zero() then Latest(gs) else g
  {
    assert (gs + [g])[..|gs|] == gs;
  }

  lemma JoinInv(world: seq<Event>)
    ensures Inv(BEGIN.(world := world, base := |world|))
  {
  }

  class Session<!S(!new)> {
    const machine: Machine<S>
    const ring: RingBuffer
    const screen: Keyframe<S>
    var viewers: map<Id, Viewer>
    var pty: Grid

    var base: StreamBase

    ghost var heard: seq<Event>           // what the restore point has been given, in order
    ghost var fanned: seq<Event>          // what has been fanned out to the viewers, in order
    ghost var stories: map<Id, Story>
    ghost var sights: map<Id, Sight<S>>   // of the viewers last synced from a restore point
    ghost var insync: set<Id>             // those since whose sync all output was fanned out as it came
    ghost var sizes: seq<Grid>            // every size adopted or applied

    ghost predicate Watched()
      reads `viewers, `stories, `fanned, `sights, `heard
    {
      && stories.Keys == viewers.Keys
      && (forall id :: id in viewers ==>
            stories[id].v == viewers[id] && stories[id].world == fanned && Inv(stories[id]))
      && sights.Keys <= viewers.Keys
      && (forall id :: id in sights ==> sights[id].mark <= |heard|)
    }

    /** The terminal as of now, by the restore point. */
    ghost function Present(): S
      requires screen.Valid() && screen.model.Some?
      reads screen, screen.ring, screen.ring.data
    {
      screen.machine.After(screen.origin, screen.Whole())
    }

    /** What a viewer would show had it been given everything heard since its sync. */
    ghost function Caught(sight: Sight<S>): S
      requires sight.mark <= |heard|
      reads `heard
    {
      machine.After(sight.origin, sight.whole + heard[sight.mark..])
    }

    /** Viewers synced at different moments and not marked stale agree with the restore point. */
    ghost predicate Linked()
      requires screen.Valid()
      reads `viewers, `sights, `heard, screen, screen.ring, screen.ring.data
    {
      forall id :: id in sights && id in viewers && !viewers[id].stale && sights[id].mark <= |heard| ==>
        screen.model.Some? && Caught(sights[id]) == Present()
    }

    /** These viewers have been sent, or have queued, what the restore point has heard since their sync. */
    ghost predicate Aligned()
      reads `stories, `fanned, `sights, `heard, `insync
    {
      && insync <= sights.Keys && insync <= stories.Keys
      && forall id :: id in insync ==> InStep(stories[id].base, sights[id].mark, fanned, heard)
    }

    ghost predicate Valid()
      reads this, screen, ring, ring.data
    {
      && screen.ring == ring && screen.machine == machine && Steady(machine)
      && screen.Valid() && Watched() && Linked() && Aligned() && pty == Latest(sizes)
    }

    twostate lemma AlignedMore(more: seq<Event>)
      requires old(Aligned()) && insync == old(insync) && sights == old(sights)
      requires fanned == old(fanned) + more && heard == old(heard) + more && Bases(stories) == old(Bases(stories))
      ensures Aligned()
    {
      hide InStep;
      assert stories.Keys == Bases(stories).Keys;
      assert old(stories.Keys) == old(Bases(stories)).Keys;
      forall id | id in insync
        ensures InStep(stories[id].base, sights[id].mark, fanned, heard)
      {
        assert stories[id].base == Bases(stories)[id] == old(stories)[id].base;
        InStepMore(old(stories)[id].base, sights[id].mark, old(fanned), old(heard), more);
      }
    }

    twostate lemma AlignedSame()
      requires old(Aligned()) && insync == old(insync) && sights == old(sights)
      requires fanned == old(fanned) && heard == old(heard) && Bases(stories) == old(Bases(stories))
      ensures Aligned()
    {
      assert fanned == old(fanned) + [] && heard == old(heard) + [];
      AlignedMore([]);
    }

    lemma AllStale()
      requires screen.Valid() && forall id :: id in viewers ==> viewers[id].stale
      ensures Linked()
    {
    }

    twostate lemma AlignedKept()
      requires old(Aligned()) && insync <= old(insync) && insync <= sights.Keys && fanned == old(fanned) && heard == old(heard)
      requires forall id :: id in insync ==>
                 id in stories && stories[id].base == old(stories)[id].base && sights[id] == old(sights)[id]
      ensures Aligned()
    {
    }

    constructor (machine: Machine<S>, capacity: int, ghost anything: S)
      requires Steady(machine)
      ensures Valid() && fresh(screen) && fresh(ring) && fresh(ring.data)
      ensures viewers == map[] && screen.model.None? && this.machine == machine && heard == fanned == [] && sizes == []
    {
      var buffer := new RingBuffer(capacity);
      var keyframe := new Keyframe(machine, buffer, anything);
      this.machine, ring, screen := machine, buffer, keyframe;
      viewers, pty, base := map[], Grid(0, 0), StreamBase(0, 0);
      heard, fanned, stories, sights, insync, sizes := [], [], map[], map[], {}, [];
    }

    method Subscribe(id: Id) returns (grid: Grid)
      requires Valid() && id !in viewers
      modifies this`viewers, this`stories
      ensures Valid() && viewers == old(viewers)[id := SUBSCRIBED] && grid == KnownGrid(sizes)
      ensures stories == old(stories)[id := BEGIN.(world := fanned, base := |fanned|)]
    {
      hide Linked, Inv;
      Join(id);
      LinkedKept(id);
      AlignedKept();
      grid := if pty.Zero() then SPAWN_GRID else pty;
    }

    method Join(id: Id)
      requires Watched() && id !in viewers
      modifies this`viewers, this`stories
      ensures Watched() && viewers == old(viewers)[id := SUBSCRIBED]
      ensures stories == old(stories)[id := BEGIN.(world := fanned, base := |fanned|)]
      ensures id !in sights
    {
      hide Inv;
      JoinInv(fanned);
      viewers := viewers[id := SUBSCRIBED];
      stories := stories[id := BEGIN.(world := fanned, base := |fanned|)];
    }

    method Unsubscribe(id: Id)
      requires Valid()
      modifies this`viewers, this`stories, this`sights, this`insync
      ensures Valid() && viewers == old(viewers) - {id} && stories == old(stories) - {id} && insync == old(insync) - {id}
    {
      hide Watched, Linked, InStep;
      viewers, stories, sights, insync := viewers - {id}, stories - {id}, sights - {id}, insync - {id};
      WatchedLess(id);
      LinkedLess(id);
      AlignedKept();
    }

    twostate lemma WatchedLess(id: Id)
      requires old(Watched()) && fanned == old(fanned) && heard == old(heard)
      requires viewers == old(viewers) - {id} && stories == old(stories) - {id} && sights == old(sights) - {id}
      ensures Watched()
    {
      hide Inv;
    }

    twostate lemma LinkedLess(id: Id)
      requires old(screen.Valid()) && screen.Valid() && old(Linked())
      requires unchanged(screen) && unchanged(screen.ring) && unchanged(screen.ring.data) && screen.ring == ring
      requires heard == old(heard) && viewers == old(viewers) - {id} && sights == old(sights) - {id}
      ensures Linked()
    {
      hide Fold;
    }

    /** Every viewer's story goes on by the same step. */
    ghost method Follow(step: Step, more: seq<Event>)
      requires stories.Keys == viewers.Keys && sights.Keys <= viewers.Keys
      requires forall id :: id in sights ==> sights[id].mark <= |heard|
      requires forall id :: id in stories ==> Inv(stories[id]) && stories[id].world == fanned
      requires forall id :: id in stories ==> Next(stories[id], step).v == viewers[id]
      requires forall id :: id in stories ==> Next(stories[id], step).world == fanned + more
      modifies this`stories, this`fanned
      ensures Watched() && fanned == old(fanned) + more
      ensures stories == map id | id in old(stories) :: Next(old(stories)[id], step)
      ensures step != Sync ==> Bases(stories) == old(Bases(stories))
    {
      hide Inv, Next;
      forall id | id in stories
        ensures Inv(Next(stories[id], step))
      {
        StepKeeps(stories[id], step);
      }
      if step != Sync {
        BasesFollow(stories, step);
      }
      hide Bases;
      stories := map id | id in stories :: Next(stories[id], step);
      fanned := fanned + more;
    }

    method FanOut(data: seq<Byte>)
      requires Watched()
      modifies this`viewers, this`stories, this`fanned
      ensures Watched() && fanned == old(fanned) + Outs(data)
      ensures stories == map id | id in old(stories) :: Next(old(stories)[id], Output(data))
      ensures Bases(stories) == old(Bases(stories))
      ensures viewers.Keys == old(viewers.Keys)
      ensures forall id :: id in viewers && !viewers[id].stale ==> !old(viewers)[id].stale
    {
      hide Inv, Outs, Next, Offer, Announce, MarkStale, Bases;
      var todo := viewers.Keys;
      while todo != {}
        invariant todo <= viewers.Keys == old(viewers.Keys)
        invariant forall id :: id in todo ==> viewers[id] == old(viewers)[id]
        invariant forall id :: id in viewers && id !in todo ==> viewers[id] == Offer(old(viewers)[id], data)
        modifies this`viewers
        decreases |todo|
      {
        var id :| id in todo;
        viewers := viewers[id := Offer(viewers[id], data)];
        todo := todo - {id};
      }
      forall id | id in stories
        ensures Next(stories[id], Output(data)).v == viewers[id] && Next(stories[id], Output(data)).world == fanned + Outs(data)
        ensures old(viewers)[id].stale ==> viewers[id].stale
      {
        StepEffects(stories[id], data, SPAWN_GRID);
        StaysStale(old(viewers)[id], data, SPAWN_GRID);
      }
      Follow(Output(data), Outs(data));
    }

    method AnnounceAll(g: Grid)
      requires Watched()
      modifies this`viewers, this`stories, this`fanned
      ensures Watched() && fanned == old(fanned) + [Sized(g)]
      ensures stories == map id | id in old(stories) :: Next(old(stories)[id], Applied(g))
      ensures Bases(stories) == old(Bases(stories))
      ensures viewers.Keys == old(viewers.Keys)
      ensures forall id :: id in viewers && !viewers[id].stale ==> !old(viewers)[id].stale
    {
      hide Inv, Outs, Next, Offer, Announce, MarkStale, Bases;
      var todo := viewers.Keys;
      while todo != {}
        invariant todo <= viewers.Keys == old(viewers.Keys)
        invariant forall id :: id in todo ==> viewers[id] == old(viewers)[id]
        invariant forall id :: id in viewers && id !in todo ==> viewers[id] == Announce(old(viewers)[id], g)
        modifies this`viewers
        decreases |todo|
      {
        var id :| id in todo;
        viewers := viewers[id := Announce(viewers[id], g)];
        todo := todo - {id};
      }
      forall id | id in stories
        ensures Next(stories[id], Applied(g)).v == viewers[id] && Next(stories[id], Applied(g)).world == fanned + [Sized(g)]
        ensures old(viewers)[id].stale ==> viewers[id].stale
      {
        StepEffects(stories[id], [], g);
        StaysStale(old(viewers)[id], [], g);
      }
      Follow(Applied(g), [Sized(g)]);
    }

    method ResyncAll()
      requires Watched()
      modifies this`viewers, this`stories, this`fanned
      ensures Watched() && fanned == old(fanned)
      ensures stories == map id | id in old(stories) :: Next(old(stories)[id], Restarted)
      ensures Bases(stories) == old(Bases(stories))
      ensures forall id :: id in viewers ==> viewers[id].stale
    {
      hide Inv, Outs, Next, MarkStale, Bases;
      var todo := viewers.Keys;
      while todo != {}
        invariant todo <= viewers.Keys == old(viewers.Keys)
        invariant forall id :: id in todo ==> viewers[id] == old(viewers)[id]
        invariant forall id :: id in viewers && id !in todo ==> viewers[id] == MarkStale(old(viewers)[id])
        modifies this`viewers
        decreases |todo|
      {
        var id :| id in todo;
        viewers := viewers[id := MarkStale(viewers[id])];
        todo := todo - {id};
      }
      assert fanned + [] == fanned;
      forall id | id in stories
        ensures Next(stories[id], Restarted).v == viewers[id] && Next(stories[id], Restarted).world == fanned
      {
        StepEffects(stories[id], [], SPAWN_GRID);
      }
      Follow(Restarted, []);
    }

    /** Sights of the same stream stay together when the stream goes on. */
    twostate lemma LinkedMore(more: seq<Event>)
      requires old(screen.Valid()) && screen.Valid() && screen.ring == ring && screen.machine == machine
      requires old(screen.model.Some?) ==> screen.model.Some?
      requires old(screen.model.Some?) ==> screen.origin == old(screen.origin) && screen.Whole() == old(screen.Whole()) + more
      requires old(Linked()) && old(Watched()) && sights == old(sights) && heard == old(heard) + more
      requires viewers.Keys == old(viewers.Keys)
      requires forall id :: id in viewers && !viewers[id].stale ==> !old(viewers)[id].stale
      ensures Linked()
    {
      hide Fold, Outs;
      forall id | id in sights && id in viewers && !viewers[id].stale
        ensures screen.model.Some? && Caught(sights[id]) == Present()
      {
        var sight := sights[id];
        assert heard[sight.mark..] == old(heard)[sight.mark..] + more;
        assert sight.whole + heard[sight.mark..] == sight.whole + old(heard)[sight.mark..] + more;
        assert old(Caught(sight) == Present());
        AfterMore(machine, sight.origin, sight.whole + old(heard)[sight.mark..],
                  old(screen.origin), old(screen.Whole()), more);
      }
    }

    /** One chunk from the daemon, in one critical section: the restore point takes `data`, the viewers
        get what the clipboard filter let through. */
    method Chunk(data: seq<Byte>, history: seq<Byte>, live: seq<Byte>)
      requires Valid()
      modifies this`viewers, this`stories, this`fanned, this`heard, this`insync, screen, ring, ring.data
      ensures Valid() && screen.gen == old(screen.gen)
      ensures insync == if history + live == data then old(insync) else {}
      ensures heard == old(heard) + Outs(data)
      ensures fanned == old(fanned) + Outs(history) + Outs(live)
      ensures screen.model.Some? == old(screen.model.Some?)
      ensures screen.model.Some? ==>
                screen.origin == old(screen.origin) && screen.Whole() == old(screen.Whole()) + Outs(data)
    {
      hide Watched, Linked, Aligned, Bases, Outs, Fold, Next;
      screen.Ingest(data);
      Hear(Outs(data));
      Spread(history, live);
      LinkedMore(Outs(data));
      Grouped(old(fanned), history, live);
      if history + live == data {
        AlignedMore(Outs(data));
      } else {
        insync := {};
        NobodyAligned();
      }
    }

    /** The viewers are sent the history and the live output, if any. */
    method Spread(history: seq<Byte>, live: seq<Byte>)
      requires Watched()
      modifies this`viewers, this`stories, this`fanned
      ensures Watched() && fanned == old(fanned) + Outs(history) + Outs(live)
      ensures Bases(stories) == old(Bases(stories)) && viewers.Keys == old(viewers.Keys)
      ensures forall id :: id in viewers && !viewers[id].stale ==> !old(viewers)[id].stale
    {
      hide Watched, Outs, Bases, Next;
      if |history| > 0 {
        FanOut(history);
      }
      if |live| > 0 {
        FanOut(live);
      }
      NoOuts(history);
      NoOuts(live);
    }

    lemma NobodyAligned()
      ensures insync == {} ==> Aligned()
    {
    }

    /** The size the daemon reports is the session's, unless it is none. */
    method SetPTYSize(g: Grid)
      requires Valid()
      modifies this`pty, this`sizes
      ensures Valid() && sizes == old(sizes) + [g]
    {
      hide Watched, Linked, Aligned;
      LatestMore(sizes, g);
      sizes := sizes + [g];
      if !g.Zero() {
        pty := g;
      }
    }

    /** The session's new size, told to the restore point and to every viewer at one point of the
        stream. */
    method ApplyGrid(g: Grid)
      requires Valid()
      modifies this`pty, this`sizes, this`viewers, this`stories, this`fanned, this`heard, screen
      ensures Valid() && sizes == old(sizes) + [g]
      ensures heard == old(heard) + if g.Zero() then [] else [Sized(g)]
      ensures fanned == old(fanned) + if g.Zero() then [] else [Sized(g)]
    {
      hide Watched, Linked, Aligned, Bases, Outs, Fold, Next;
      SetPTYSize(g);
      if g.Zero() {
        assert heard + [] == heard && fanned + [] == fanned;
        return;
      }
      screen.Resize(g);
      Hear([Sized(g)]);
      AnnounceAll(g);
      LinkedMore([Sized(g)]);
      AlignedMore([Sized(g)]);
    }

    lemma Known(id: Id)
      requires Watched() && id in viewers
      ensures id in stories && stories[id].v == viewers[id] && stories[id].world == fanned && Inv(stories[id])
      ensures forall a :: a in sights ==> a in viewers && sights[a].mark <= |heard|
    {
    }

    /** One viewer moves on by one step. */
    method Put(id: Id, v: Viewer, ghost step: Step)
      requires Watched() && id in viewers && id in stories
      requires Next(stories[id], step).v == v && Next(stories[id], step).world == fanned
      modifies this`viewers, this`stories
      ensures Watched() && viewers == old(viewers)[id := v]
      ensures stories == old(stories)[id := Next(old(stories)[id], step)]
      ensures step != Sync ==> stories[id].base == old(stories)[id].base
    {
      hide Inv, Next;
      StepKeeps(stories[id], step);
      BaseKept(stories[id], step);
      viewers := viewers[id := v];
      stories := stories[id := Next(stories[id], step)];
    }

    /** What one viewer does does not touch the agreement of the others, or its own while it stays
        fresh. */
    twostate lemma LinkedKept(id: Id)
      requires old(screen.Valid()) && screen.Valid() && old(Linked())
      requires unchanged(screen) && unchanged(screen.ring) && unchanged(screen.ring.data) && screen.ring == ring
      requires heard == old(heard) && sights.Keys <= old(sights.Keys) && forall a :: a in sights ==> sights[a] == old(sights)[a]
      requires forall a :: a in viewers && a != id ==> a in old(viewers) && viewers[a] == old(viewers)[a]
      requires id in viewers && id in sights && !viewers[id].stale ==> id in old(viewers) && !old(viewers)[id].stale
      ensures Linked()
    {
      hide Fold;
    }

    /** The stream goes on for those who watch. */
    ghost method Hear(more: seq<Event>)
      requires Watched()
      modifies this`heard
      ensures Watched() && heard == old(heard) + more
    {
      hide Inv;
      heard := heard + more;
    }

    /** Every frame still queued is thrown away, and nothing is owed. */
    method Drain(id: Id)
      requires Valid() && id in viewers
      modifies this`viewers, this`stories, this`sights, this`insync
      ensures Valid() && id in old(viewers) && sights == old(sights) - {id} && insync == old(insync) - {id}
      ensures id in stories && stories[id].base == |fanned|
      ensures viewers == old(viewers)[id := Synced(old(viewers)[id])]
      ensures stories == old(stories)[id := Next(old(stories)[id], Sync)]
    {
      hide Inv, Outs, Fold, Next, Synced, Watched, Linked;
      Forget(id);
      Known(id);
      StepEffects(stories[id], [], SPAWN_GRID);
      BaseKept(stories[id], Sync);
      Put(id, Synced(viewers[id]), Sync);
      LinkedKept(id);
      insync := insync - {id};
      AlignedKept();
    }

    ghost method Forget(id: Id)
      requires Watched()
      modifies this`sights
      ensures Watched() && sights == old(sights) - {id}
    {
      hide Inv;
      sights := sights - {id};
    }

    ghost method See(id: Id)
      requires Valid() && id in viewers && screen.model.Some? && id in stories && stories[id].base == |fanned|
      modifies this`sights, this`insync
      ensures Valid() && insync == old(insync) + {id} && sights == old(sights)[id := Sight(screen.origin, screen.Whole(), |heard|)]
    {
      hide Inv, Outs, Fold, Next, SetSize, Synced;
      sights, insync := sights[id := Sight(screen.origin, screen.Whole(), |heard|)], insync + {id};
      assert heard[|heard|..] == fanned[|fanned|..] == [] && screen.Whole() + [] == screen.Whole();
    }

    /** The writer brings its viewer to the present: what is queued is thrown away, and the state and
        the window it is given are the terminal that has seen the whole stream. */
    method SyncViewer(id: Id) returns (known: bool, grid: Grid, point: Option<(S, seq<Byte>)>)
      requires Valid()
      modifies this`viewers, this`stories, this`sights, this`insync
      ensures Valid() && known == (id in old(viewers))
      ensures insync == if known && point.Some? then old(insync) + {id} else if known then old(insync) - {id} else old(insync)
      ensures !known ==> viewers == old(viewers)
      ensures known ==> viewers == old(viewers)[id := Synced(old(viewers)[id])]
      ensures known ==> stories == old(stories)[id := Next(old(stories)[id], Sync)]
      ensures known ==> (point.Some? <==> screen.model.Some? && machine.readable(screen.model.value))
      ensures known && point.None? ==> grid == KnownGrid(sizes)
      ensures known && point.Some? ==>
                && sights == old(sights)[id := Sight(screen.origin, screen.Whole(), |heard|)]
                && grid == machine.size(point.value.0)
                && machine.Write(point.value.0, point.value.1) == Present()
    {
      hide Inv, Outs, Fold, Watched, Linked, Aligned, Next, Synced;
      known, grid, point := id in viewers, pty, None;
      if !known {
        return;
      }
      Drain(id);
      grid := if pty.Zero() then SPAWN_GRID else pty;
      point := screen.Take();
      if point.Some? {
        grid := machine.size(point.value.0);
        See(id);
      }
    }

    /** The writer takes the next frame of its queue; what an observer would be sent it drops. */
    method TakeFrame(id: Id) returns (frame: Option<Frame>)
      requires Valid() && id in viewers && viewers[id].ch != [] && id in stories && !stories[id].syncing
      modifies this`viewers, this`stories
      ensures Valid() && stories == old(stories)[id := Next(old(stories)[id], Write)]
      ensures var v := old(viewers)[id];
              && viewers == old(viewers)[id := v.(ch := v.ch[1..])]
              && frame == if v.size.Zero() && !v.ch[0].Resync? then None else Some(v.ch[0])
    {
      hide Inv, Outs, Fold, Next, Watched, Linked;
      var v := viewers[id];
      frame := Some(v.ch[0]);
      Known(id);
      WriteEffect(stories[id]);
      Put(id, v.(ch := v.ch[1..]), Write);
      LinkedKept(id);
      AlignedKept();
      if v.size.Zero() && !v.ch[0].Resync? {
        frame := None;
      }
    }

    /** A browser declares its window; a negative size is an error, a viewer already gone is not. */
    method SetViewerSize(id: Id, cols: int, rows: int, preserve: bool) returns (ok: bool)
      requires Valid()
      modifies this`viewers, this`stories
      ensures Valid() && ok == (0 <= cols && 0 <= rows)
      ensures !ok || id !in old(viewers) ==> viewers == old(viewers) && stories == old(stories)
      ensures ok && id in old(viewers) ==>
                stories == old(stories)[id := Next(old(stories)[id], Window(cols, rows, preserve))]
    {
      hide Inv, Outs, Fold, Next, Watched, Linked, SetSize;
      if cols < 0 || rows < 0 {
        return false;
      }
      if id in viewers {
        Known(id);
        WindowEffect(stories[id], cols, rows, preserve);
        ResizedStays(viewers[id], cols, rows, preserve);
        Put(id, SetSize(viewers[id], cols, rows, preserve), Window(cols, rows, preserve));
        LinkedKept(id);
        AlignedKept();
      }
      return true;
    }

    method TellViewer(id: Id, g: Grid)
      requires Valid()
      modifies this`viewers, this`stories
      ensures Valid()
      ensures stories == if id in old(viewers) then old(stories)[id := Next(old(stories)[id], Answered(g))] else old(stories)
    {
      hide Inv, Outs, Fold, Next, Watched, Linked, Tell;
      if id in viewers {
        Known(id);
        StepEffects(stories[id], [], g);
        ToldStays(viewers[id], g);
        Put(id, if viewers[id].stale then viewers[id] else Tell(viewers[id], g), Answered(g));
        LinkedKept(id);
        AlignedKept();
      }
    }

    /** The local copy is thrown away, and every viewer is owed a resync. */
    method RestartLocalCopy()
      requires Valid()
      modifies this`viewers, this`stories, this`fanned, screen, ring
      ensures Valid() && screen.model.None? && ring.Held() == [] && ring.position == old(ring.position) + 1
      ensures screen.gen == old(screen.gen) + 1
      ensures forall id :: id in viewers ==> viewers[id].stale
      ensures fanned == old(fanned) && heard == old(heard)
    {
      hide Watched, Linked, Aligned, Bases, Outs, Fold;
      ring.Reset();
      screen.Forget();
      ResyncAll();
      AllStale();
      AlignedSame();
    }

    ghost method FollowAdopted(g: Grid)
      requires Watched()
      modifies this`stories, this`fanned, this`heard
      ensures Watched() && heard == old(heard) + [Sized(g)] && fanned == old(fanned) + [Sized(g)]
      ensures stories == map id | id in old(stories) :: Next(old(stories)[id], Adopted(g))
      ensures Bases(stories) == old(Bases(stories))
    {
      hide Inv, Outs, Next, Bases;
      heard := heard + [Sized(g)];
      forall id | id in stories
        ensures Next(stories[id], Adopted(g)).v == viewers[id] && Next(stories[id], Adopted(g)).world == fanned + [Sized(g)]
      {
        StepEffects(stories[id], [], g);
      }
      Follow(Adopted(g), [Sized(g)]);
    }

    /** A (re-)attached stream reports the session's size: the restore point starts over with a fresh
        copy, or takes the size at the end of what it holds. No viewer is told. */
    method Adopt(afresh: bool, g: Grid)
      requires Valid() && (afresh ==> screen.model.None?)
      modifies this`pty, this`sizes, this`stories, this`fanned, this`heard, screen
      ensures Valid() && viewers == old(viewers) && screen.model.Some? && sizes == old(sizes) + [g]
      ensures old(screen.model.None?) ==> screen.Whole() == [] && heard == old(heard) && fanned == old(fanned)
      ensures old(screen.model.Some?) ==> screen.gen == old(screen.gen) + if g.Zero() then 0 else 1
      ensures old(screen.model.Some?) && (g.Zero() || g == machine.size(old(Present()))) ==>
                Present() == old(Present()) && heard == old(heard) && stories == old(stories)
      ensures old(screen.model.Some?) && !g.Zero() && g != machine.size(old(Present())) ==>
                && heard == old(heard) + [Sized(g)] && fanned == old(fanned) + [Sized(g)]
                && stories == map id | id in old(stories) :: Next(old(stories)[id], Adopted(g))
    {
      hide Inv, Outs, Fold, Next, SetSize, Synced, Aligned, Bases, Latest, InStep;
      SetPTYSize(g);
      if afresh || screen.model.None? {
        screen.Reset(g);
      } else {
        ghost var before := Present();
        FoldOne(machine.step, screen.origin, screen.Whole(), Sized(g));
        assert screen.Whole() + [] == screen.Whole();
        screen.Resize(g);
        if !g.Zero() && g != machine.size(before) {
          FollowAdopted(g);
          LinkedMore([Sized(g)]);
          AlignedMore([Sized(g)]);
        }
      }
    }

    /** A stream has been opened, asking for what follows `since` or for everything: if its replay does
        not begin exactly where the local copy ends, the copy is thrown away first. */
    method Attach(since: Option<nat>, replayFrom: nat, g: Grid) returns (afresh: bool)
      requires Valid() && (since.None? ==> screen.model.None?)
      modifies this`viewers, this`pty, this`sizes, this`base, this`stories, this`fanned, this`heard, screen, ring
      ensures Valid() && screen.model.Some? && sizes == old(sizes) + [g] && base == StreamBase(replayFrom, ring.position)
      ensures afresh == (since != Some(replayFrom))
      ensures since.Some? && afresh ==> ring.Held() == [] && forall id :: id in viewers ==> viewers[id].stale
      ensures !(since.Some? && afresh) ==>
                viewers == old(viewers) && ring.Held() == old(ring.Held()) && ring.position == old(ring.position)
      ensures afresh || old(screen.model.None?) ==> screen.Whole() == []
      ensures !afresh && old(screen.model.Some?) && (g.Zero() || g == machine.size(old(Present()))) ==>
                Present() == old(Present()) && stories == old(stories)
    {
      hide Watched, Linked, Aligned, Bases;
      afresh := since.None?;
      if since.Some? && replayFrom != since.value {
        RestartLocalCopy();
        afresh := true;
      }
      Adopt(afresh, g);
      base := StreamBase(replayFrom, ring.position);
    }

    /** One look at whether a snapshot that is true at daemon offset `offset`, read under generation
        `gen`, can be installed; and its installation if so. */
    method InstallAt(gen: nat, offset: nat, holed: bool, snapshot: S, ghost start: S, ghost log: seq<Event>)
      returns (verdict: Verdict)
      requires Valid() && snapshot == machine.After(start, log)
      modifies this`viewers, this`stories, this`fanned, screen
      ensures Valid() && ring.Held() == old(ring.Held()) && screen.gen == old(screen.gen)
      ensures var pos := base.ring + offset - base.daemon;
              match verdict
              case Holed => holed
              case Moved => !holed && (old(screen.gen) != gen || (base.daemon <= offset && pos < ring.Oldest()))
              case TooOld => !holed && old(screen.gen) == gen && offset < base.daemon
              case InFlight => !holed && old(screen.gen) == gen && base.daemon <= offset && ring.position < pos
              case Installed =>
                && !holed && old(screen.gen) == gen && base.daemon <= offset && ring.Oldest() <= pos <= ring.position
                && screen.model == Some(snapshot) && screen.at == pos && screen.origin == start
                && screen.Whole() == log + Outs(ring.Held()[pos - ring.Oldest()..])
                && forall id :: id in viewers ==> viewers[id].stale
      ensures !verdict.Installed? ==> viewers == old(viewers) && stories == old(stories) && screen.model == old(screen.model)
    {
      hide Watched, Linked, Aligned, Bases, Outs, Fold, Latest;
      if holed {
        return Holed;
      }
      if screen.gen != gen {
        return Moved;
      }
      if offset < base.daemon {
        return TooOld;
      }
      var pos := base.ring + (offset - base.daemon);
      if ring.position < pos {
        return InFlight;
      }
      var _, _, held := ring.ReadFrom(pos);
      if !held {
        return Moved;
      }
      Apply(snapshot, pos, start, log);
      return Installed;
    }

    /** The snapshot becomes the restore point, and every viewer is owed a resync. */
    method Apply(snapshot: S, pos: nat, ghost start: S, ghost log: seq<Event>)
      requires Valid() && ring.Oldest() <= pos <= ring.position && snapshot == machine.After(start, log)
      modifies this`viewers, this`stories, this`fanned, screen`model, screen`at, screen`origin, screen`taken
      ensures Valid()
      ensures screen.model == Some(snapshot) && screen.at == pos && screen.origin == start
      ensures screen.Whole() == log + Outs(ring.Held()[pos - ring.Oldest()..])
      ensures forall id :: id in viewers ==> viewers[id].stale
    {
      hide Watched, Linked, Aligned, Bases, Outs, Fold, Latest;
      screen.Install(snapshot, pos, start, log);
      ResyncAll();
      AllStale();
      AlignedSame();
    }

    /** A viewer that is shown, not marked stale and not adrift, since whose sync all output was fanned
        out as it came, shows the session's terminal as it was at some
        point since; and as it is now, once its queue is empty. */
    lemma ShowsTheSession(id: Id)
      requires Valid() && id in insync && !viewers[id].stale && !viewers[id].size.Zero()
      requires stories[id].adrift == 0
      ensures var sight := sights[id];
              var got := Events(stories[id].got);
              var shown := machine.After(machine.After(sight.origin, sight.whole), got);
              && got <= heard[sight.mark..]
              && shown == machine.After(sight.origin, sight.whole + heard[sight.mark..][..|got|])
              && (viewers[id].ch == [] ==> shown == Present())
    {
      hide Outs, Fold, EventsOf;
      var sight, s := sights[id], stories[id];
      var got := Events(s.got);
      FoldConcat(machine.step, sight.origin, sight.whole, got);
      assert Sent(s) == fanned[s.base..];
      assert heard[sight.mark..][..|got|] == got;
      if viewers[id].ch == [] {
        assert Sent(s) == got;
        assert Caught(sight) == Present();
      }
    }
  }

  lemma Grouped(es: seq<Event>, a: seq<Byte>, b: seq<Byte>)
    ensures es + Outs(a) + Outs(b) == es + Outs(a + b)
  {
    OutsConcat(a, b);
  }

  lemma NoOuts(data: seq<Byte>)
    ensures data == [] ==> Outs(data) == [] && forall es: seq<Event> :: es + Outs(data) == es
  {
  }
}
