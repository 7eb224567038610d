/** The stream between the daemon and this server's copy of a session, across full queues, drops and
    re-attaches. */
module Streams {
  import opened Common
  import opened Folds
  import opened Queues
  import opened Ring
  import opened Sessions

  const SUBSCRIPTION_CAPACITY: nat := 256
  const CONTROL_RESERVE: nat := 8
  const EVENTS_CAPACITY: nat := 256

  /** What travels: output, by the piece of the daemon's output it is; the notice that a piece was not
      sent; a size. */
  datatype Item = Bytes(from: nat, to: nat) | Gap(from: nat, to: nat) | Size

  /** The daemon's output since the session began; what is on its way, of which the first `flight` frames
      have left the daemon's queue for this subscription; how far into the output the client has read; the
      stream's event queue, its count of what it handed over, and its admission that bytes were lost; the
      server's ring, and where the attachment began in both. `skipped` counts bytes that were missing in
      front of an arriving frame since then and `thrown` bytes thrown out of the event queue; `seam`
      remembers whether either ever happened to the present copy. */
  datatype Link = Link(daemon: seq<Byte>, path: seq<Item>, flight: nat, at: nat,
                       queue: seq<Item>, consumed: nat, holed: bool,
                       held: seq<Byte>, position: nat, capacity: nat, base: StreamBase,
                       skipped: int, thrown: nat, seam: bool)

  datatype Step =
    | Produced(data: seq<Byte>)   // the program writes
    | Resized                     // the daemon tells of a size
    | Sent                        // the oldest frame leaves the daemon's queue
    | Arrived                     // the client reads the next frame
    | Pumped                      // the pump takes one event
    | Reattached(from: nat)       // the connection dropped; the new one's replay begins at `from`

  function Length(item: Item): nat {
    if item.Bytes? && item.from <= item.to then item.to - item.from else 0
  }

  function Waiting(q: seq<Item>): nat
    decreases |q|
  {
    if q == [] then 0 else Waiting(q[..|q| - 1]) + Length(q[|q| - 1])
  }

  function Data(daemon: seq<Byte>, item: Item): seq<Byte> {
    if item.Bytes? && item.from <= item.to <= |daemon| then daemon[item.from..item.to] else []
  }

  /** A control frame is never refused: a full queue gives up its oldest frame. */
  function Push(l: Link, item: Item): Link
    requires l.flight <= |l.path|
  {
    l.(path := l.path[..l.flight] + PushNewest(l.path[l.flight..], item, SUBSCRIPTION_CAPACITY))
  }

  /** So it is on the client's side. */
  function PushEvent(l: Link, item: Item): Link {
    var gone := if |l.queue| < EVENTS_CAPACITY then 0 else Length(l.queue[0]);
    l.(queue := PushNewest(l.queue, item, EVENTS_CAPACITY), thrown := l.thrown + gone, seam := l.seam || gone != 0)
  }

  /** The next frame is read. */
  function Taken(l: Link): Link
    requires 0 < l.flight <= |l.path|
  {
    l.(path := l.path[1..], flight := l.flight - 1)
  }

  function Next(l: Link, step: Step): Link
    requires l.flight <= |l.path|
  {
    match step
    case Produced(data) =>
      if data == [] then l
      else
        var end := |l.daemon| + |data|;
        var more := l.(daemon := l.daemon + data);
        if AdmitExpendable(|l.path| - l.flight, SUBSCRIPTION_CAPACITY, CONTROL_RESERVE)
        then more.(path := l.path + [Bytes(|l.daemon|, end)])
        else Push(more, Gap(|l.daemon|, end))
    case Resized => Push(l, Size)
    case Sent => if l.flight == |l.path| then l else l.(flight := l.flight + 1)
    case Arrived =>
      if l.flight == 0 then l
      else
        var item, rest := l.path[0], Taken(l);
        if item.Size? then PushEvent(rest, Size)
        else if item.Gap? then PushEvent(rest.(holed := true), item)
        else if |l.queue| < EVENTS_CAPACITY
        then rest.(at := item.to, queue := l.queue + [item], consumed := l.consumed + Length(item),
                   skipped := l.skipped + item.from - l.at, seam := l.seam || item.from != l.at)
        else PushEvent(rest.(at := item.to, holed := true), Gap(item.from, item.to))
    case Pumped =>
      if l.queue == [] then l
      else
        var data := Data(l.daemon, l.queue[0]);
        l.(queue := l.queue[1..], held := Last(l.held + data, l.capacity), position := l.position + |data|)
    case Reattached(from) =>
      if l.queue != [] || |l.daemon| < from then l  // the pump drains the events before it re-attaches
      else
        var kept := if l.holed || from != l.consumed
                    then l.(held := [], position := l.position + 1, seam := false)
                    else l;
        var replay := Replay(from, |l.daemon|);
        kept.(path := replay, flight := |replay|, at := from, consumed := from, holed := false,
              base := StreamBase(from, kept.position), skipped := 0, thrown := 0)
  }

  /** The replay is one frame, sent before anything is queued. */
  function Replay(from: nat, end: nat): seq<Item> {
    if from < end then [Bytes(from, end)] else []
  }

  function Begin(daemon: seq<Byte>, from: nat, capacity: nat): Link {
    var replay := Replay(from, |daemon|);
    Link(daemon, replay, |replay|, from, [], from, false, [], 0, capacity, StreamBase(from, 0), 0, 0, false)
  }

  function Run(l: Link, steps: seq<Step>): (r: Link)
    requires l.flight <= |l.path|
    ensures r.flight <= |r.path|
    decreases |steps|
  {
    if steps == [] then l else Next(Run(l, steps[..|steps| - 1]), steps[|steps| - 1])
  }

  /** The daemon offset that this server's copy has reached, by the attachment's arithmetic. */
  function Reached(l: Link): int {
    l.base.daemon + l.position - l.base.ring
  }

  /** Where reading frames one after another leads: up to a point of the output without a break, to an
      announcement of a loss, or to a frame that does not join on. */
  datatype Reading = Upto(pos: int) | Announced | Torn

  function Read(r: Reading, item: Item): Reading {
    if !r.Upto? || item.Size? then r
    else if item.Gap? then Announced
    else if item.from == r.pos then Upto(item.to)
    else Torn
  }

  function Walk(q: seq<Item>, at: int): Reading {
    Fold(Read, Upto(at), q)
  }

  /** Frames are in the order of the output, from `at` to `end`. */
  predicate Rising(q: seq<Item>, at: nat, end: nat)
    decreases |q|
  {
    if q == [] then at <= end
    else
      var rest, item := q[..|q| - 1], q[|q| - 1];
      if item.Size? then Rising(rest, at, end)
      else item.from < item.to <= end && Rising(rest, at, item.from)
  }

  predicate Inv(l: Link) {
    && l.base.ring <= l.position && l.at <= |l.daemon|
    && l.flight <= |l.path| <= l.flight + SUBSCRIPTION_CAPACITY && |l.queue| <= EVENTS_CAPACITY
    && Rising(l.path, l.at, |l.daemon|)
    && (forall i :: 0 <= i < |l.queue| && l.queue[i].Bytes? ==> l.queue[i].from < l.queue[i].to <= |l.daemon|)
    && (!l.holed ==> Accounted(l))
  }

  /** The account of a stream that has reported no loss. */
  predicate Accounted(l: Link) {
    && 0 <= l.skipped && l.consumed + l.skipped == l.at
    && Reached(l) + Waiting(l.queue) + l.thrown == l.consumed
    && (!l.seam ==>
          && l.skipped == 0 && l.thrown == 0 && Walk(l.queue, Reached(l)) == Upto(l.at)
          && |l.held| <= Reached(l) <= |l.daemon| && l.held == l.daemon[Reached(l) - |l.held|..Reached(l)])
  }

  // ---- frames in order ----

  lemma RisingMore(q: seq<Item>, at: nat, end: nat, later: nat)
    requires Rising(q, at, end) && end <= later
    ensures Rising(q, at, later)
    decreases |q|
  {
    if q != [] && q[|q| - 1].Size? {
      RisingMore(q[..|q| - 1], at, end, later);
    }
  }

  lemma RisingOne(q: seq<Item>, at: nat, end: nat, item: Item)
    requires Rising(q, at, end)
    ensures item.Size? ==> Rising(q + [item], at, end)
    ensures !item.Size? && end == item.from < item.to ==> Rising(q + [item], at, item.to)
  {
    assert (q + [item])[..|q|] == q;
  }

  /** A frame among others: those before it are before it, those after it are after it, and the rest is in
      order without it. */
  lemma {:induction false} RisingAround(p: seq<Item>, item: Item, q: seq<Item>, at: nat, end: nat)
    requires Rising(p + [item] + q, at, end)
    ensures item.Size? ==> Rising(p + q, at, end)
    ensures !item.Size? ==> item.from < item.to <= end && Rising(p, at, item.from) && Rising(q, item.to, end) && Rising(p + q, at, end)
    decreases |q|
  {
    if q == [] {
      assert p + [item] + q == p + [item] && (p + [item])[..|p|] == p && p + q == p;
      if !item.Size? {
        RisingMore(p, at, item.from, end);
      }
    } else {
      var k, last := |q| - 1, q[|q| - 1];
      var all := p + [item] + q;
      assert all[..|all| - 1] == p + [item] + q[..k] && all[|all| - 1] == last;
      assert (p + q)[..|p + q| - 1] == p + q[..k];
      RisingAround(p, item, q[..k], at, if last.Size? then end else last.from);
    }
  }

  lemma {:induction false} RisingReads(q: seq<Item>, at: nat, end: nat)
    requires Rising(q, at, end)
    ensures var r := Walk(q, at); r.Upto? ==> at <= r.pos <= end
    decreases |q|
  {
    if q != [] {
      var item := q[|q| - 1];
      RisingReads(q[..|q| - 1], at, if item.Size? then end else item.from);
    }
  }

  /** Nothing mends a tear, and nothing is asked after an announcement. */
  lemma {:induction false} ReadStays(q: seq<Item>, r: Reading)
    requires !r.Upto?
    ensures Fold(Read, r, q) == r
    decreases |q|
  {
    if q != [] {
      ReadStays(q[..|q| - 1], r);
    }
  }

  lemma WalkFirst(item: Item, q: seq<Item>, at: int)
    ensures Walk([item] + q, at) == Fold(Read, Read(Upto(at), item), q)
  {
    hide Fold;
    FoldConcat(Read, Upto(at), [item], q);
    FoldOne(Read, Upto(at), [], item);
  }

  lemma WaitingFirst(q: seq<Item>)
    requires q != []
    ensures Waiting(q) == Length(q[0]) + Waiting(q[1..])
    decreases |q|
  {
    if |q| == 1 {
      assert q[..0] == [] && q[1..] == [];
    } else {
      WaitingFirst(q[..|q| - 1]);
      assert q[..|q| - 1][1..] == q[1..][..|q| - 2];
    }
  }

  lemma WaitingMore(q: seq<Item>, item: Item)
    ensures Waiting(q + [item]) == Waiting(q) + Length(item)
  {
    assert (q + [item])[..|q|] == q;
  }

  // ---- every step keeps the account ----

  lemma PushKeeps(l: Link, item: Item)
    requires Inv(l)
    requires item.Size? || (item.from == |l.daemon| < item.to)
    ensures var n := Push(l, item);
            && n == l.(path := n.path) && l.flight <= |n.path| <= l.flight + SUBSCRIPTION_CAPACITY
            && Rising(n.path, l.at, if item.Size? then |l.daemon| else item.to)
  {
    hide Rising, Accounted;
    var p, q := l.path[..l.flight], l.path[l.flight..];
    if |q| < SUBSCRIPTION_CAPACITY {
      assert p + (q + [item]) == l.path + [item];
      RisingOne(l.path, l.at, |l.daemon|, item);
    } else {
      assert p + [q[0]] + q[1..] == l.path;
      RisingAround(p, q[0], q[1..], l.at, |l.daemon|);
      assert p + (q[1..] + [item]) == (p + q[1..]) + [item];
      RisingOne(p + q[1..], l.at, |l.daemon|, item);
    }
  }

  lemma AccountGrows(l: Link, data: seq<Byte>)
    requires Inv(l) && !l.holed
    ensures Accounted(l.(daemon := l.daemon + data))
  {
    hide Waiting, Fold;
    var r := Reached(l);
    if !l.seam {
      assert (l.daemon + data)[r - |l.held|..r] == l.daemon[r - |l.held|..r];
    }
  }

  lemma AccountSame(l: Link, n: Link)
    requires Accounted(l) && n == l.(path := n.path, flight := n.flight)
    ensures Accounted(n)
  {
  }

  lemma ProducedKeeps(l: Link, data: seq<Byte>)
    requires Inv(l)
    ensures Inv(Next(l, Produced(data)))
  {
    hide Rising, Accounted;
    if data == [] {
      return;
    }
    var more, end := l.(daemon := l.daemon + data), |l.daemon| + |data|;
    if AdmitExpendable(|l.path| - l.flight, SUBSCRIPTION_CAPACITY, CONTROL_RESERVE) {
      RisingOne(l.path, l.at, |l.daemon|, Bytes(|l.daemon|, end));
    } else {
      PushKeeps(l, Gap(|l.daemon|, end));
    }
    if !l.holed {
      AccountGrows(l, data);
      AccountSame(more, Next(l, Produced(data)));
    }
  }

  /** An event that is not output keeps the account of what it threw out. */
  lemma PushEventKeeps(l: Link, item: Item)
    requires Inv(l) && !item.Bytes? && (item.Gap? ==> l.holed)
    ensures Inv(PushEvent(l, item))
  {
    hide Rising, Fold, Waiting;
    var q := l.queue;
    if |q| < EVENTS_CAPACITY {
      WaitingMore(q, item);
      FoldOne(Read, Upto(Reached(l)), q, item);
    } else {
      WaitingMore(q[1..], item);
      WaitingFirst(q);
      if q[0].Size? {
        assert q == [q[0]] + q[1..];
        WalkFirst(q[0], q[1..], Reached(l));
        FoldOne(Read, Upto(Reached(l)), q[1..], item);
      } else if !l.holed && !l.seam {
        assert q == [q[0]] + q[1..];
        WalkFirst(q[0], q[1..], Reached(l));
        NoneThrown(q[0], q[1..], Reached(l));
      }
    }
  }

  /** A reading that gets anywhere has met no announcement, and no output that is empty. */
  lemma NoneThrown(item: Item, q: seq<Item>, at: int)
    requires !item.Size? && Fold(Read, Read(Upto(at), item), q).Upto?
    ensures item.Bytes?
  {
    hide Fold;
    if item.Gap? {
      ReadStays(q, Announced);
    }
  }

  /** A frame is handed over to a stream that has reported no loss. */
  lemma HandedOver(l: Link, item: Item)
    requires Accounted(l) && item.Bytes? && l.at <= item.from < item.to
    ensures Accounted(l.(at := item.to, queue := l.queue + [item], consumed := l.consumed + Length(item),
                         skipped := l.skipped + item.from - l.at, seam := l.seam || item.from != l.at))
  {
    hide Fold, Waiting;
    WaitingMore(l.queue, item);
    FoldOne(Read, Upto(Reached(l)), l.queue, item);
  }

  lemma TakenInOrder(l: Link)
    requires Inv(l) && 0 < l.flight
    ensures Rising(Taken(l).path, l.at, |l.daemon|)
    ensures var item := l.path[0];
            !item.Size? ==> l.at <= item.from < item.to <= |l.daemon| && Rising(Taken(l).path, item.to, |l.daemon|)
  {
    hide Rising, Accounted;
    assert l.path == [] + [l.path[0]] + l.path[1..] && [] + l.path[1..] == l.path[1..];
    RisingAround([], l.path[0], l.path[1..], l.at, |l.daemon|);
    if !l.path[0].Size? {
      NoFrames(l.at, l.path[0].from);
    }
  }

  lemma OutputKeeps(l: Link)
    requires Inv(l) && 0 < l.flight && l.path[0].Bytes?
    ensures Inv(Next(l, Arrived))
  {
    hide Rising, Accounted;
    TakenInOrder(l);
    var item, rest := l.path[0], Taken(l);
    if |l.queue| < EVENTS_CAPACITY {
      if !l.holed {
        AccountSame(l, rest);
        HandedOver(rest, item);
      }
    } else {
      PushEventKeeps(rest.(at := item.to, holed := true), Gap(item.from, item.to));
    }
  }

  /** A frame of output is counted only when it is handed over; one that is refused marks the stream. */
  lemma ArrivedKeeps(l: Link)
    requires Inv(l)
    ensures Inv(Next(l, Arrived))
  {
    hide Rising, Accounted;
    if l.flight != 0 {
      if l.path[0].Bytes? {
        OutputKeeps(l);
      } else {
        TakenInOrder(l);
        if !l.holed {
          AccountSame(l, Taken(l));
        }
        PushEventKeeps(Taken(l).(holed := l.holed || l.path[0].Gap?), l.path[0]);
      }
    }
  }

  lemma NoFrames(at: nat, end: nat)
    requires Rising([], at, end)
    ensures at <= end
  {
  }

  lemma PumpedKeeps(l: Link)
    requires Inv(l)
    ensures Inv(Next(l, Pumped))
  {
    hide Rising, Fold, Waiting, Last;
    if l.queue == [] {
      return;
    }
    var item, rest := l.queue[0], l.queue[1..];
    WaitingFirst(l.queue);
    if !l.holed && !l.seam {
      assert l.queue == [item] + rest;
      WalkFirst(item, rest, Reached(l));
      if !item.Size? {
        NoneThrown(item, rest, Reached(l));
        if item.from != Reached(l) {
          ReadStays(rest, Torn);
        }
        SlideOn(l.daemon, Reached(l), l.held, Data(l.daemon, item), l.capacity);
      } else {
        SlideOn(l.daemon, Reached(l), l.held, [], l.capacity);
      }
    }
  }

  /** A ring that is a piece of the stream stays one when what follows is written. */
  lemma SlideOn(d: seq<Byte>, r: nat, held: seq<Byte>, data: seq<Byte>, capacity: nat)
    requires |held| <= r && r + |data| <= |d| && held == d[r - |held|..r] && data == d[r..r + |data|]
    ensures var kept, end := Last(held + data, capacity), r + |data|;
            |kept| <= end && kept == d[end - |kept|..end]
  {
    assert held + data == d[r - |held|..r + |data|];
  }

  lemma ReplayRises(from: nat, end: nat)
    requires from <= end
    ensures Rising(Replay(from, end), from, end) && Walk(Replay(from, end), from) == Upto(end)
  {
    if from < end {
      assert [Bytes(from, end)] == [Bytes(from, end)] + [] && [Bytes(from, end)][..0] == [];
      WalkFirst(Bytes(from, end), [], from);
    }
  }

  lemma NothingWaits(at: int)
    ensures Waiting([]) == 0 && Walk([], at) == Upto(at)
  {
  }

  /** A re-attach keeps the copy, and where it has come to, exactly when the stream has reported no loss and
      the replay begins where it ended; otherwise the copy is given up. */
  lemma ReattachedKeeps(l: Link, from: nat)
    requires Inv(l)
    ensures Inv(Next(l, Reattached(from)))
    ensures l.queue == [] && from <= |l.daemon| ==>
              var n := Next(l, Reattached(from));
              && n.consumed == n.at == from == Reached(n) && !n.holed
              && (if !l.holed && from == l.consumed
                  then n.held == l.held && n.position == l.position && n.seam == l.seam
                  else n.held == [] && n.position == l.position + 1 && !n.seam)
              && Waiting(n.path) == |l.daemon| - from
  {
    hide Rising, Fold, Waiting;
    if l.queue == [] && from <= |l.daemon| {
      ReplayRises(from, |l.daemon|);
      NothingWaits(Reached(l));
      NothingWaits(from);
      ReplayWaits(from, |l.daemon|);
    }
  }

  lemma ReplayWaits(from: nat, end: nat)
    requires from <= end
    ensures Waiting(Replay(from, end)) == end - from
  {
    if from < end {
      assert [Bytes(from, end)][..0] == [];
    }
  }

  lemma SentKeeps(l: Link)
    requires Inv(l)
    ensures Inv(Next(l, Sent))
  {
    hide Rising, Fold, Waiting;
  }

  lemma ResizedKeeps(l: Link)
    requires Inv(l)
    ensures Inv(Next(l, Resized))
  {
    hide Rising, Accounted;
    PushKeeps(l, Size);
    if !l.holed {
      AccountSame(l, Next(l, Resized));
    }
  }

  lemma StepKeeps(l: Link, step: Step)
    requires Inv(l)
    ensures Inv(Next(l, step))
  {
    hide Inv, Next;
    match step
    case Produced(data) => ProducedKeeps(l, data);
    case Resized => ResizedKeeps(l);
    case Sent => SentKeeps(l);
    case Arrived => ArrivedKeeps(l);
    case Pumped => PumpedKeeps(l);
    case Reattached(from) => ReattachedKeeps(l, from);
  }

  lemma {:induction false} RunInv(l: Link, steps: seq<Step>)
    requires Inv(l) && l.flight <= |l.path|
    ensures Inv(Run(l, steps))
    decreases |steps|
  {
    hide Inv, Next;
    if steps != [] {
      var k := |steps| - 1;
      RunInv(l, steps[..k]);
      StepKeeps(Run(l, steps[..k]), steps[k]);
    }
  }

  lemma BeginInv(daemon: seq<Byte>, from: nat, capacity: nat)
    requires from <= |daemon|
    ensures Inv(Begin(daemon, from, capacity)) && Sound(Begin(daemon, from, capacity))
  {
    hide Rising, Fold, Waiting;
    ReplayRises(from, |daemon|);
    NothingWaits(from);
  }

  /** Over any full queues, drops, wraps and re-attaches: while the stream has reported no loss, its count
      is the place it has read to exactly when nothing was missing in front of what arrived, and the
      attachment's arithmetic is right exactly when nothing was thrown out of the event queue either; if
      neither ever happened, the ring is a contiguous piece of the daemon's output, each byte where that
      arithmetic says. */
  lemma Contiguous(daemon: seq<Byte>, from: nat, capacity: nat, steps: seq<Step>)
    requires from <= |daemon|
    ensures var l := Run(Begin(daemon, from, capacity), steps);
            !l.holed ==>
              && (l.consumed == l.at <==> l.skipped == 0)
              && (Reached(l) + Waiting(l.queue) == l.at <==> l.skipped + l.thrown == 0)
              && (!l.seam ==>
                    && l.skipped + l.thrown == 0 && |l.held| <= Reached(l) <= |l.daemon|
                    && forall o :: Reached(l) - |l.held| <= o < Reached(l) ==>
                         l.held[l.base.ring + o - l.base.daemon - (l.position - |l.held|)] == l.daemon[o])
  {
    hide Run, Fold, Waiting, Rising;
    var begin := Begin(daemon, from, capacity);
    BeginInv(daemon, from, capacity);
    RunInv(begin, steps);
    var l := Run(begin, steps);
    if !l.holed && !l.seam {
      var r := Reached(l);
      forall o | r - |l.held| <= o < r
        ensures l.held[l.base.ring + o - l.base.daemon - (l.position - |l.held|)] == l.daemon[o]
      {
        var i := o - (r - |l.held|);
        assert l.held[i] == l.daemon[r - |l.held|..r][i];
      }
    }
  }

  // ---- how bytes are lost without a word ----

  /** A stream that reports no loss has lost nothing, and will not unless it says so: what is on its way
      follows on to the daemon's present, or to an announcement. */
  predicate Sound(l: Link) {
    !l.holed ==> !l.seam && (Walk(l.path, l.at) == Announced || Walk(l.path, l.at) == Upto(|l.daemon|))
  }

  /** The first of these that is not a size is an announcement. */
  predicate Announces(q: seq<Item>) {
    q != [] && (q[0].Gap? || (q[0].Size? && Announces(q[1..])))
  }

  /** Pushing a control frame throws out of the daemon's queue output, or the announcement of a loss, that
      nothing before it and nothing next after it announces. */
  predicate Silences(l: Link, item: Item)
    requires l.flight <= |l.path|
  {
    && |l.path| == l.flight + SUBSCRIPTION_CAPACITY && !l.path[l.flight].Size?
    && Walk(l.path[..l.flight], l.at) != Announced && !Announces(l.path[l.flight + 1..] + [item])
  }

  /** A step that loses bytes without a word: a control frame at a full queue of the daemon's, or a size at
      a full event queue whose oldest event is output. */
  predicate Throws(l: Link, step: Step)
    requires l.flight <= |l.path|
  {
    && !l.holed
    && match step
       case Produced(data) =>
         && data != [] && !AdmitExpendable(|l.path| - l.flight, SUBSCRIPTION_CAPACITY, CONTROL_RESERVE)
         && Silences(l, Gap(|l.daemon|, |l.daemon| + |data|))
       case Resized => Silences(l, Size)
       case Arrived => 0 < l.flight && l.path[0].Size? && |l.queue| == EVENTS_CAPACITY && l.queue[0].Bytes?
       case _ => false
  }

  lemma {:induction false} Announcing(q: seq<Item>, at: int)
    requires Announces(q)
    ensures Walk(q, at) == Announced
    decreases |q|
  {
    hide Fold;
    assert q == [q[0]] + q[1..];
    WalkFirst(q[0], q[1..], at);
    if q[0].Gap? {
      ReadStays(q[1..], Announced);
    } else {
      Announcing(q[1..], at);
    }
  }

  /** Reading on from short of where the frames begin meets a tear, or nothing at all. */
  lemma {:induction false} Unannounced(q: seq<Item>, at: nat, low: nat, end: nat)
    requires !Announces(q) && at < low && Rising(q, low, end)
    ensures Walk(q, at) == Torn || (Walk(q, at) == Upto(at) && at < end)
    decreases |q|
  {
    hide Fold, Rising;
    if q == [] {
      NoFrames(low, end);
      NothingWaits(at);
    } else {
      assert q == [] + [q[0]] + q[1..] && q == [q[0]] + q[1..] && [] + q[1..] == q[1..];
      RisingAround([], q[0], q[1..], low, end);
      WalkFirst(q[0], q[1..], at);
      if q[0].Size? {
        Unannounced(q[1..], at, low, end);
      } else {
        NoFrames(low, q[0].from);
        ReadStays(q[1..], Torn);
      }
    }
  }

  /** Without one frame the way is sound as before exactly when its absence is announced, before it or next
      after it. */
  lemma Without(p: seq<Item>, gone: Item, q: seq<Item>, at: nat, mid: nat, end: nat, item: Item)
    requires Rising(p + [gone] + q, at, mid) && mid <= end
    requires if item.Size? then mid == end else item.Gap? && item.from == mid < item.to == end
    requires Walk(p + [gone] + q, at) == Announced || Walk(p + [gone] + q, at) == Upto(mid)
    ensures var r := Walk(p + q + [item], at);
            (r == Announced || r == Upto(end)) <==> gone.Size? || Walk(p, at) == Announced || Announces(q + [item])
  {
    hide Fold, Rising;
    var start, rest := Walk(p, at), q + [item];
    assert p + [gone] + q == p + ([gone] + q) && p + q + [item] == p + rest;
    FoldConcat(Read, Upto(at), p, [gone] + q);
    FoldConcat(Read, Upto(at), p, rest);
    if !start.Upto? {
      ReadStays([gone] + q, start);
      ReadStays(rest, start);
    } else {
      WalkFirst(gone, q, start.pos);
      FoldOne(Read, start, q, item);
      if gone.Size? {
        FoldOne(Read, Upto(at), p + [gone] + q, item);
      } else {
        RisingAround(p, gone, q, at, mid);
        RisingReads(p, at, gone.from);
        RisingOne(q, gone.to, mid, item);
        if Announces(rest) {
          Announcing(rest, start.pos);
        } else {
          Unannounced(rest, start.pos, gone.to, end);
        }
      }
    }
  }

  lemma PushLoses(l: Link, more: Link, item: Item)
    requires Inv(l) && Sound(l) && !l.holed && more == l.(daemon := more.daemon) && |l.daemon| <= |more.daemon|
    requires if item.Size? then more.daemon == l.daemon
             else item.Gap? && item.from == |l.daemon| < item.to == |more.daemon|
    ensures Sound(Push(more, item)) <==> !Silences(l, item)
  {
    hide Fold, Rising, Announces, Accounted;
    var p, q := l.path[..l.flight], l.path[l.flight..];
    if |q| < SUBSCRIPTION_CAPACITY {
      assert p + (q + [item]) == l.path + [item];
      FoldOne(Read, Upto(l.at), l.path, item);
    } else {
      assert p + [q[0]] + q[1..] == l.path;
      assert l.path[l.flight + 1..] == q[1..];
      Without(p, q[0], q[1..], l.at, |l.daemon|, |more.daemon|, item);
      assert p + (q[1..] + [item]) == p + q[1..] + [item];
    }
  }

  lemma ArrivalLoses(l: Link)
    requires Inv(l) && Sound(l) && !l.holed && 0 < l.flight
    ensures Sound(Next(l, Arrived)) <==> !Throws(l, Arrived)
  {
    hide Fold, Rising, Accounted, Waiting;
    var item, rest := l.path[0], l.path[1..];
    assert l.path == [item] + rest;
    WalkFirst(item, rest, l.at);
    if item.Bytes? && item.from != l.at {
      ReadStays(rest, Torn);
    }
  }

  /** On a stream that reports no loss and has lost nothing, these steps are the only ones that lose bytes
      without a word. */
  lemma LossIsAFullQueue(l: Link, step: Step)
    requires Inv(l) && Sound(l)
    ensures Sound(Next(l, step)) <==> !Throws(l, step)
  {
    hide Fold, Rising, Accounted, Waiting, Silences;
    if l.holed {
      HoledStays(l, step);
      return;
    }
    match step
    case Produced(data) =>
      if data != [] {
        var end := |l.daemon| + |data|;
        if AdmitExpendable(|l.path| - l.flight, SUBSCRIPTION_CAPACITY, CONTROL_RESERVE) {
          FoldOne(Read, Upto(l.at), l.path, Bytes(|l.daemon|, end));
        } else {
          PushLoses(l, l.(daemon := l.daemon + data), Gap(|l.daemon|, end));
        }
      }
    case Resized => PushLoses(l, l, Size);
    case Arrived =>
      if 0 < l.flight {
        ArrivalLoses(l);
      }
    case Reattached(from) =>
      if l.queue == [] && from <= |l.daemon| {
        ReplayRises(from, |l.daemon|);
      }
    case _ =>
  }

  lemma HoledStays(l: Link, step: Step)
    requires Inv(l) && l.holed
    ensures Sound(Next(l, step))
  {
    hide Fold, Rising, Accounted, Waiting;
    if step.Reattached? && l.queue == [] && step.from <= |l.daemon| {
      ReplayRises(step.from, |l.daemon|);
    }
  }

  predicate Calm(l: Link, steps: seq<Step>)
    requires l.flight <= |l.path|
    decreases |steps|
  {
    steps == [] || (Calm(l, steps[..|steps| - 1]) && !Throws(Run(l, steps[..|steps| - 1]), steps[|steps| - 1]))
  }

  lemma {:induction false} CalmIsSound(l: Link, steps: seq<Step>)
    requires Inv(l) && Sound(l) && l.flight <= |l.path| && Calm(l, steps)
    ensures Sound(Run(l, steps))
    decreases |steps|
  {
    hide Inv, Next, Throws, Sound;
    if steps != [] {
      var k := |steps| - 1;
      CalmIsSound(l, steps[..k]);
      RunInv(l, steps[..k]);
      LossIsAFullQueue(Run(l, steps[..k]), steps[k]);
    }
  }

  /** A run without them: while the stream reports no loss, what it counts is what it has read, the ring
      and the events join on, and the frames still to come follow on to the daemon's present or to an
      announcement. */
  lemma NothingIsLost(daemon: seq<Byte>, from: nat, capacity: nat, steps: seq<Step>)
    requires from <= |daemon| && Calm(Begin(daemon, from, capacity), steps)
    ensures var l := Run(Begin(daemon, from, capacity), steps);
            !l.holed ==>
              && l.consumed == l.at == Reached(l) + Waiting(l.queue) && Walk(l.queue, Reached(l)) == Upto(l.at)
              && (Walk(l.path, l.at) == Announced || Walk(l.path, l.at) == Upto(|l.daemon|))
              && |l.held| <= Reached(l) <= |l.daemon| && l.held == l.daemon[Reached(l) - |l.held|..Reached(l)]
  {
    hide Run, Calm, Next, Fold, Waiting, Rising;
    var begin := Begin(daemon, from, capacity);
    BeginInv(daemon, from, capacity);
    RunInv(begin, steps);
    CalmIsSound(begin, steps);
  }

  // ---- runs that lose bytes without a word ----

  function Times(n: nat, steps: seq<Step>): seq<Step> {
    if n == 0 then [] else Times(n - 1, steps) + steps
  }

  lemma {:induction false} RunConcat(l: Link, a: seq<Step>, b: seq<Step>)
    requires l.flight <= |l.path|
    ensures Run(l, a + b) == Run(Run(l, a), b)
    decreases |b|
  {
    hide Next;
    if b == [] {
      assert a + b == a;
    } else {
      assert (a + b)[..|a + b| - 1] == a + b[..|b| - 1];
      RunConcat(l, a, b[..|b| - 1]);
    }
  }

  lemma RunOne(l: Link, step: Step)
    requires l.flight <= |l.path|
    ensures Run(l, [step]) == Next(l, step)
  {
    hide Next;
    assert [step][..0] == [];
  }

  lemma RunTwo(l: Link, a: Step, b: Step)
    requires l.flight <= |l.path|
    ensures Next(l, a).flight <= |Next(l, a).path| && Run(l, [a, b]) == Next(Next(l, a), b)
  {
    hide Next;
    assert [a, b] == [a] + [b];
    RunConcat(l, [a], [b]);
    RunOne(l, a);
    RunOne(Run(l, [a]), b);
  }

  /** As many frames of one byte each, one after another. */
  function Pieces(n: nat): (q: seq<Item>)
    ensures |q| == n && forall i :: 0 <= i < n ==> q[i] == Bytes(i, i + 1)
  {
    seq(n, i requires 0 <= i < n => Bytes(i, i + 1))
  }

  function Copies(n: nat, b: Byte): seq<Byte> {
    seq(n, _ => b)
  }

  /** Before anything was read: `n` bytes were written, and `queued` frames wait. */
  function Unread(n: nat, b: Byte, capacity: nat, queued: seq<Item>): Link {
    Begin([], 0, capacity).(daemon := Copies(n, b), path := queued)
  }

  lemma {:induction false} Backlog(b: Byte, capacity: nat, n: nat)
    requires n <= SUBSCRIPTION_CAPACITY - CONTROL_RESERVE
    ensures Run(Begin([], 0, capacity), Times(n, [Produced([b])])) == Unread(n, b, capacity, Pieces(n))
  {
    hide Run;
    var begin := Begin([], 0, capacity);
    if n == 0 {
      RunNone(begin);
    } else {
      Backlog(b, capacity, n - 1);
      RunConcat(begin, Times(n - 1, [Produced([b])]), [Produced([b])]);
      RunOne(Unread(n - 1, b, capacity, Pieces(n - 1)), Produced([b]));
      assert Copies(n - 1, b) + [b] == Copies(n, b) && Pieces(n - 1) + [Bytes(n - 1, n)] == Pieces(n);
    }
  }

  lemma RunNone(l: Link)
    requires l.flight <= |l.path|
    ensures Run(l, []) == l
  {
  }

  lemma {:induction false} SizesPile(l: Link, n: nat)
    requires l.flight == 0 && |l.path| + n <= SUBSCRIPTION_CAPACITY
    ensures Run(l, Times(n, [Resized])) == l.(path := l.path + seq(n, _ => Size))
  {
    hide Run;
    if n == 0 {
      RunNone(l);
    } else {
      SizesPile(l, n - 1);
      RunConcat(l, Times(n - 1, [Resized]), [Resized]);
      var before := l.(path := l.path + seq(n - 1, _ => Size));
      RunOne(before, Resized);
      assert before.path[..0] + (before.path[0..] + [Size]) == l.path + seq(n, _ => Size);
    }
  }

  /** 248 frames are waiting at the daemon when nine sizes follow one another: the ninth throws out the
      oldest frame, and the stream that reads on has lost a byte and does not say so. */
  lemma EvictedLoss(b: Byte, capacity: nat)
    ensures var l := Run(Begin([], 0, capacity), Times(248, [Produced([b])]) + Times(9, [Resized]) + [Sent, Arrived]);
            !l.holed && l.skipped == 1 && l.seam && l.consumed != l.at
  {
    hide Run, Times;
    var begin, full := Begin([], 0, capacity), Unread(248, b, capacity, Pieces(248));
    Backlog(b, capacity, 248);
    SizesPile(full, 8);
    NineIsOneMore();
    RunConcat(full, Times(8, [Resized]), [Resized]);
    var piled := full.(path := Pieces(248) + seq(8, _ => Size));
    RunOne(piled, Resized);
    var evicted := Next(piled, Resized);
    assert evicted.path[0] == Bytes(1, 2);
    RunTwo(evicted, Sent, Arrived);
    RunConcat(begin, Times(248, [Produced([b])]), Times(9, [Resized]));
    RunConcat(begin, Times(248, [Produced([b])]) + Times(9, [Resized]), [Sent, Arrived]);
  }

  lemma NineIsOneMore()
    ensures Times(9, [Resized]) == Times(8, [Resized]) + [Resized]
  {
  }

  /** Everything written has been read, and waits for the pump. */
  function Handed(n: nat, b: Byte, capacity: nat): Link {
    Begin([], 0, capacity).(daemon := Copies(n, b), at := n, queue := Pieces(n), consumed := n)
  }

  lemma HandOne(n: nat, b: Byte, capacity: nat)
    requires n < EVENTS_CAPACITY
    ensures Run(Handed(n, b, capacity), [Produced([b]), Sent, Arrived]) == Handed(n + 1, b, capacity)
  {
    hide Run;
    var l := Handed(n, b, capacity);
    assert [Produced([b]), Sent, Arrived] == [Produced([b])] + [Sent, Arrived];
    RunConcat(l, [Produced([b])], [Sent, Arrived]);
    RunOne(l, Produced([b]));
    RunTwo(Next(l, Produced([b])), Sent, Arrived);
    assert Copies(n, b) + [b] == Copies(n + 1, b) && Pieces(n) + [Bytes(n, n + 1)] == Pieces(n + 1);
  }

  lemma {:induction false} AllHanded(b: Byte, capacity: nat, n: nat)
    requires n <= EVENTS_CAPACITY
    ensures Run(Begin([], 0, capacity), Times(n, [Produced([b]), Sent, Arrived])) == Handed(n, b, capacity)
  {
    hide Run;
    var begin, steps := Begin([], 0, capacity), [Produced([b]), Sent, Arrived];
    if n == 0 {
      RunNone(begin);
    } else {
      AllHanded(b, capacity, n - 1);
      RunConcat(begin, Times(n - 1, steps), steps);
      HandOne(n - 1, b, capacity);
    }
  }

  /** A pump that is 256 frames behind when the size changes loses a byte, and the stream does not say
      so: it is resumed, and the ring keeps the seam. */
  lemma SilentLoss(b: Byte, capacity: nat)
    ensures var l := Run(Begin([], 0, capacity), Times(256, [Produced([b]), Sent, Arrived]) + [Resized] + [Sent, Arrived]);
            !l.holed && l.consumed == l.at && l.thrown == 1 && l.seam && Reached(l) + Waiting(l.queue) != l.at
  {
    hide Run, Times, Waiting;
    var begin, steps := Begin([], 0, capacity), Times(256, [Produced([b]), Sent, Arrived]);
    AllHanded(b, capacity, 256);
    RunConcat(begin, steps, [Resized]);
    var l := Handed(256, b, capacity);
    RunOne(l, Resized);
    RunTwo(Next(l, Resized), Sent, Arrived);
    RunConcat(begin, steps + [Resized], [Sent, Arrived]);
    Contiguous([], 0, capacity, steps + [Resized] + [Sent, Arrived]);
  }
}
