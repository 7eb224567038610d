/** The server's restore point for one session: a terminal that has consumed the stream up to a ring
    position, and the ring after it. The terminal is any deterministic machine. */
module RestorePoints {
  import opened Common
  import opened Folds
  import opened Ring

  datatype Grid = Grid(cols: int, rows: int) {
    predicate Zero() {
      cols <= 0 || rows <= 0
    }
  }

  const SPAWN_GRID := Grid(220, 50)

  /** One thing the program did to its terminal: a byte of output, or a new size from here on. */
  datatype Event = Out(b: Byte) | Sized(g: Grid)

  function Outs(bytes: seq<Byte>): (es: seq<Event>)
    ensures |es| == |bytes|
    ensures forall i :: 0 <= i < |es| ==> es[i] == Out(bytes[i])
  {
    seq(|bytes|, i requires 0 <= i < |bytes| => Out(bytes[i]))
  }

  /** A terminal: a blank screen of some size, what an event does to it, its size, how many bytes of over-long
      sequences it has given up on, and whether it can still be read. */
  datatype Machine<!S> = Machine(blank: Grid -> S, step: (S, Event) -> S, size: S -> Grid, dropped: S -> nat,
                                 readable: S -> bool) {
    ghost function After(s: S, es: seq<Event>): S {
      Fold(step, s, es)
    }

    function Write(s: S, bytes: seq<Byte>): S {
      Fold(step, s, Outs(bytes))
    }
  }

  lemma OutsConcat(a: seq<Byte>, b: seq<Byte>)
    ensures Outs(a + b) == Outs(a) + Outs(b)
  {
  }

  lemma OutsCut(taken: seq<Event>, rest: seq<Byte>, k: nat, n: nat)
    requires k + n <= |rest|
    ensures taken + Outs(rest[..k]) + Outs(rest[k..][..n]) == taken + Outs(rest[..k + n])
  {
    OutsConcat(rest[..k], rest[k..][..n]);
    assert rest[..k] + rest[k..][..n] == rest[..k + n];
  }

  lemma OutsNothing()
    ensures Outs([]) == []
  {
  }

  lemma OutsMore(taken: seq<Event>, a: seq<Byte>, b: seq<Byte>)
    ensures taken + Outs(a + b) == taken + Outs(a) + Outs(b)
  {
    OutsConcat(a, b);
  }

  lemma OutsWhole(taken: seq<Event>, rest: seq<Byte>, k: nat)
    requires k <= |rest|
    ensures taken + Outs(rest[..k]) + Outs(rest[k..]) == taken + Outs(rest)
  {
    OutsConcat(rest[..k], rest[k..]);
    assert rest[..k] + rest[k..] == rest;
  }

  lemma TakeMore<S>(m: Machine<S>, origin: S, taken: seq<Event>, bytes: seq<Byte>, rest: seq<Byte>)
    requires bytes <= rest
    ensures m.Write(m.After(origin, taken), bytes) == m.After(origin, taken + Outs(bytes))
    ensures taken + Outs(bytes) + Outs(rest[|bytes|..]) == taken + Outs(rest)
  {
    hide Fold, Outs;
    FoldConcat(m.step, origin, taken, Outs(bytes));
    assert rest == bytes + rest[|bytes|..];
    OutsConcat(bytes, rest[|bytes|..]);
    assert taken + Outs(bytes) + Outs(rest[|bytes|..]) == taken + (Outs(bytes) + Outs(rest[|bytes|..]));
  }

  /** The newest bytes of a ring, before and after a write. */
  lemma StillHeld(held: seq<Byte>, data: seq<Byte>, capacity: nat, from: nat)
    requires from <= |held| + |data| && |held| + |data| - from <= capacity
    ensures |Last(held + data, capacity)| >= |held| + |data| - from
    ensures var kept := Last(held + data, capacity);
            kept[|kept| - (|held| + |data| - from)..] == (held + data)[from..]
  {
  }

  /** The window a restore sends verbatim: at most 256 KiB. */
  const WINDOW_BYTES: nat := 0x4_0000

  class Keyframe<!S> {
    const machine: Machine<S>
    const ring: RingBuffer
    var model: Option<S>
    var at: nat     // the ring position the model has consumed through
    var gen: nat    // counts the sizes and restarts it has been through

    ghost var origin: S           // the terminal the model began as
    ghost var taken: seq<Event>   // what it has been fed since

    /** The model describes `taken` exactly, and what it has not taken is in the ring or about to
        enter it. */
    ghost predicate Sound(incoming: seq<Byte>)
      reads this, ring, ring.data
    {
      && ring.Valid()
      && (model.Some? ==>
            && ring.Oldest() <= at <= ring.position + |incoming|
            && model.value == machine.After(origin, taken))
    }

    ghost predicate Valid()
      reads this, ring, ring.data
    {
      Sound([])
    }

    /** The bytes the model has not consumed. */
    ghost function Rest(incoming: seq<Byte>): seq<Byte>
      requires Sound(incoming) && model.Some?
      reads this, ring, ring.data
    {
      (ring.Held() + incoming)[at - ring.Oldest()..]
    }

    /** Everything that has happened on the stream since the origin. */
    ghost function Whole(): seq<Event>
      requires Valid() && model.Some?
      reads this, ring, ring.data
    {
      taken + Outs(Rest([]))
    }

    ghost function Limit(): nat
      reads this
    {
      if WINDOW_BYTES < ring.capacity / 2 then WINDOW_BYTES else ring.capacity / 2
    }

    constructor (machine: Machine<S>, ring: RingBuffer, ghost origin: S)
      requires ring.Valid()
      ensures Valid() && model.None? && this.machine == machine && this.ring == ring && gen == 0
    {
      this.machine, this.ring := machine, ring;
      this.origin, taken := origin, [];
      model, at, gen := None, 0, 0;
    }

    /** Starts over at the ring's present. */
    method Reset(g: Grid)
      requires ring.Valid()
      modifies this
      ensures Valid() && model.Some? && Whole() == [] && at == ring.position && gen == old(gen) + 1
      ensures origin == machine.blank(if g.Zero() then SPAWN_GRID else g)
    {
      var grid := if g.Zero() then SPAWN_GRID else g;
      model, at, gen := Some(machine.blank(grid)), ring.position, gen + 1;
      origin, taken := machine.blank(grid), [];
      assert Rest([]) == [];
    }

    /** There is nothing to restore from until the next reset. */
    method Forget()
      requires ring.Valid()
      modifies this
      ensures Valid() && model.None? && gen == old(gen) + 1
    {
      model, at, gen := None, 0, gen + 1;
    }

    /** The model has taken `k` bytes of what it had not, since it had been fed `start`. */
    ghost predicate Along(incoming: seq<Byte>, start: seq<Event>, rest: seq<Byte>, k: nat)
      requires Sound(incoming) && model.Some?
      reads this, ring, ring.data
    {
      k <= |rest| && taken == start + Outs(rest[..k]) && Rest(incoming) == rest[k..]
    }

    lemma AlongAll(incoming: seq<Byte>, start: seq<Event>, rest: seq<Byte>, k: nat)
      requires Sound(incoming) && model.Some? && Along(incoming, start, rest, k)
      ensures taken + Outs(Rest(incoming)) == start + Outs(rest) && taken == start + Outs(rest[..k])
    {
      hide Outs, Fold;
      OutsWhole(start, rest, k);
    }

    lemma AlongNone(incoming: seq<Byte>)
      requires Sound(incoming) && model.Some?
      ensures Along(incoming, taken, Rest(incoming), 0)
    {
    }

    method Consume(bytes: seq<Byte>, ghost incoming: seq<Byte>, ghost start: seq<Event>, ghost rest: seq<Byte>, ghost k: nat)
      requires Sound(incoming) && model.Some? && Along(incoming, start, rest, k) && bytes <= Rest(incoming)
      modifies this`model, this`at, this`taken
      ensures Sound(incoming) && model.Some? && at == old(at) + |bytes| && Along(incoming, start, rest, k + |bytes|)
    {
      hide Fold, Outs;
      TakeMore(machine, origin, taken, bytes, Rest(incoming));
      OutsCut(start, rest, k, |bytes|);
      model, at := Some(machine.Write(model.value, bytes)), at + |bytes|;
      taken := taken + Outs(bytes);
      assert Rest(incoming) == rest[k..][|bytes|..];
    }

    /** Feeds the model the stream up to `target`, from the ring and then from the chunk about to be
        written. The ring always still has what is asked of it. */
    method Advance(target: nat, incoming: seq<Byte>)
      requires Sound(incoming) && target <= ring.position + |incoming|
      modifies this`model, this`at, this`taken
      ensures Sound(incoming) && model.Some? == old(model.Some?)
      ensures model.None? ==> at == old(at)
      ensures model.Some? ==> at == if old(at) < target then target else old(at)
      ensures model.Some? ==> taken + Outs(Rest(incoming)) == old(taken + Outs(Rest(incoming)))
      ensures model.Some? ==> taken == old(taken) + Outs(old(Rest(incoming))[..at - old(at)])
    {
      hide Fold, Outs, Along;
      if model.None? {
        return;
      }
      ghost var start, rest, from := taken, Rest(incoming), at;
      AlongNone(incoming);
      if target <= at {
        AlongAll(incoming, start, rest, 0);
        return;
      }
      var end := ring.position;
      if at < end {
        var upTo := if target < end then target else end;
        var held, _, ok := ring.ReadFrom(at);
        assert ok;  // the window never outruns the ring, so the model is never started over here
        Consume(held[..upTo - at], incoming, start, rest, 0);
      }
      if at < target && end <= at {
        var off: nat := at - end;
        if |incoming| <= off {
          return;
        }
        var n: nat := if target - at < |incoming| - off then target - at else |incoming| - off;
        Consume(incoming[off..off + n], incoming, start, rest, at - from);
      }
      AlongAll(incoming, start, rest, at - from);
    }

    /** The terminal that has been given the stream up to `target`. */
    ghost function Through(target: nat, incoming: seq<Byte>): S
      requires Sound(incoming) && model.Some? && at <= target <= ring.position + |incoming|
      reads this, ring, ring.data
    {
      machine.After(origin, taken + Outs(Rest(incoming)[..target - at]))
    }

    /** Before `incoming` is written: if the window would outgrow its bound, the model takes the stream up
        to half of that bound from its end, and all of it if it had to give up on a sequence on the way:
        there the window would begin inside what was given up. */
    method Admit(incoming: seq<Byte>)
      requires Valid()
      modifies this`model, this`at, this`taken
      ensures Sound(incoming) && model.Some? == old(model.Some?)
      ensures model.Some? ==> taken + Outs(Rest(incoming)) == old(Whole()) + Outs(incoming)
      ensures model.Some? ==> old(at) <= at && ring.position + |incoming| - at <= Limit()
      ensures model.Some? ==> var end := ring.position + |incoming|;
                if end - old(at) <= Limit() then at == old(at) && model == old(model)
                else at == if machine.dropped(old(Through(end - Limit() / 2, incoming))) != old(machine.dropped(model.value))
                           then end else end - Limit() / 2
      ensures model.Some? && machine.dropped(model.value) != old(machine.dropped(model.value)) ==> at == ring.position + |incoming|
    {
      hide Outs, Fold;
      assert Sound(incoming);
      if model.None? {
        return;
      }
      assert Rest(incoming) == Rest([]) + incoming;
      OutsMore(taken, Rest([]), incoming);
      var end: nat := ring.position + |incoming|;
      var window: nat := if WINDOW_BYTES < ring.capacity / 2 then WINDOW_BYTES else ring.capacity / 2;
      if end - at <= window {
        return;
      }
      var dropped := machine.dropped(model.value);
      ghost var half := Through(end - window / 2, incoming);
      Advance(end - window / 2, incoming);
      assert model.value == half;
      if machine.dropped(model.value) != dropped {
        Advance(end, incoming);
      }
    }

    /** One chunk of output: the restore point then stands for everything up to and including it, and
        the window is within its bound. */
    method Ingest(data: seq<Byte>)
      requires Valid()
      modifies this`model, this`at, this`taken, ring, ring.data
      ensures Valid() && model.Some? == old(model.Some?)
      ensures ring.position == old(ring.position) + |data|
      ensures ring.Held() == Last(old(ring.Held()) + data, ring.capacity)
      ensures model.Some? ==> Whole() == old(Whole()) + Outs(data)
      ensures model.Some? ==> ring.position - at <= 0x4_0000 && 2 * (ring.position - at) <= ring.capacity
      ensures model.Some? && ring.position - old(at) <= 0x4_0000 && 2 * (ring.position - old(at)) <= ring.capacity ==> at == old(at)
      ensures model.Some? && ring.position - old(at) > Limit() ==>
                at == if machine.dropped(old(Through(ring.position + |data| - Limit() / 2, data))) != old(machine.dropped(model.value))
                      then ring.position else ring.position - Limit() / 2
      ensures model.Some? && machine.dropped(model.value) != old(machine.dropped(model.value)) ==>
                at == ring.position && Rest([]) == []
    {
      hide Fold, Outs, Last, Around, Through;
      Admit(data);
      ghost var held := ring.Held();
      if model.Some? {
        StillHeld(held, data, ring.capacity, at - ring.Oldest());
      }
      ring.Write(data);
      if model.Some? {
        RestIsHeld();
      }
    }

    lemma RestIsHeld()
      requires Valid() && model.Some?
      ensures Rest([]) == ring.Held()[at - ring.Oldest()..] && (at == ring.position ==> Rest([]) == [])
    {
      hide Fold;
      assert ring.Held() + [] == ring.Held();
    }

    /** A new size takes effect exactly here: the bytes before it have been drawn at the old one. */
    method Resize(g: Grid)
      requires Valid()
      modifies this
      ensures Valid() && model.Some? == old(model.Some?) && origin == old(origin)
      ensures model.Some? ==> Whole() == old(Whole()) + if g.Zero() then [] else [Sized(g)]
      ensures gen == old(gen) + if model.None? || g.Zero() then 0 else 1
      ensures model.Some? && !g.Zero() ==> at == ring.position
    {
      hide Fold, Outs;
      if model.None? || g.Zero() {
        if model.Some? {
          assert Whole() + [] == Whole();
        }
        return;
      }
      OutsNothing();
      Advance(ring.position, []);
      assert Rest([]) == [];
      assert taken == old(Whole());
      FoldOne(machine.step, origin, taken, Sized(g));
      model := Some(machine.step(model.value, Sized(g)));
      taken := taken + [Sized(g)];
      gen := gen + 1;
      assert Rest([]) == [];
    }

    /** A terminal known to be right at a ring position replaces the model there; the ring after it is
        the window. No size is involved, so the generation stays. */
    method Install(state: S, pos: nat, ghost start: S, ghost log: seq<Event>)
      requires Valid() && ring.Oldest() <= pos <= ring.position && state == machine.After(start, log)
      modifies this`model, this`at, this`origin, this`taken
      ensures Valid() && model == Some(state) && at == pos && origin == start
      ensures Whole() == log + Outs(ring.Held()[pos - ring.Oldest()..])
    {
      model, at := Some(state), pos;
      origin, taken := start, log;
      assert ring.Held() + [] == ring.Held();
    }

    /** What a viewer needs, in one instant: a terminal that is given the state and then the window is
        the terminal that has seen the whole stream. */
    method Take() returns (point: Option<(S, seq<Byte>)>)
      requires Valid()
      ensures point.Some? <==> model.Some? && machine.readable(model.value)
      ensures point.Some? ==> point.value.0 == machine.After(origin, taken)
      ensures point.Some? ==> machine.Write(point.value.0, point.value.1) == machine.After(origin, Whole())
    {
      if model.None? || !machine.readable(model.value) {
        return None;
      }
      var window, _, ok := ring.ReadFrom(at);
      assert ok;
      assert window == Rest([]);
      FoldConcat(machine.step, origin, taken, Outs(window));
      return Some((model.value, window));
    }
  }
}
