/** Who sizes a session: the windows of its viewers, the one that owns it, and what the daemon has been
    told. The steps of concurrent callers are the methods, each under its lock. */
module Viewports {
  import opened RestorePoints

  type Id = string

  const NOBODY: Id := ""

  const NO_GRID := Grid(0, 0)

  /** The largest grid that fits every window that is showing the session. */
  ghost predicate Fits(sizes: map<Id, Grid>, g: Grid) {
    if forall id :: id in sizes ==> sizes[id].Zero() then g == NO_GRID
    else
      && !g.Zero()
      && (exists id :: id in sizes && !sizes[id].Zero() && sizes[id].cols == g.cols)
      && (exists id :: id in sizes && !sizes[id].Zero() && sizes[id].rows == g.rows)
      && forall id :: id in sizes && !sizes[id].Zero() ==> g.cols <= sizes[id].cols && g.rows <= sizes[id].rows
  }

  /** The size this server should have declared: the owner's window and nobody else's, or the largest
      grid that fits everyone. */
  ghost predicate Wanted(sizes: map<Id, Grid>, owner: Id, g: Grid) {
    if owner != NOBODY
    then g == if owner in sizes && !sizes[owner].Zero() then sizes[owner] else NO_GRID
    else Fits(sizes, g)
  }

  /** There is only one such size. */
  lemma WantedOnce(sizes: map<Id, Grid>, owner: Id, g: Grid, h: Grid)
    requires Wanted(sizes, owner, g) && Wanted(sizes, owner, h)
    ensures g == h
  {
    if owner == NOBODY && exists id :: id in sizes && !sizes[id].Zero() {
      var a :| a in sizes && !sizes[a].Zero() && sizes[a].cols == g.cols;
      var b :| b in sizes && !sizes[b].Zero() && sizes[b].rows == g.rows;
      var c :| c in sizes && !sizes[c].Zero() && sizes[c].cols == h.cols;
      var d :| d in sizes && !sizes[d].Zero() && sizes[d].rows == h.rows;
    }
  }

  /** A window that shows nothing constrains nobody. */
  lemma ObserverDoesNotCount(sizes: map<Id, Grid>, id: Id, g: Grid)
    requires id !in sizes && Fits(sizes, g)
    ensures Fits(sizes[id := NO_GRID], g)
  {
    var more := sizes[id := NO_GRID];
    if exists a :: a in sizes && !sizes[a].Zero() {
      var a :| a in sizes && !sizes[a].Zero() && sizes[a].cols == g.cols;
      var b :| b in sizes && !sizes[b].Zero() && sizes[b].rows == g.rows;
      assert more[a] == sizes[a] && more[b] == sizes[b];
    }
  }

  class Viewports {
    var sizes: map<Id, Grid>
    var activeViewer: Id
    var ownerEpoch: nat
    var declared: Grid
    var attached: bool

    ghost var told: Grid      // what the daemon has for this attachment
    ghost var pending: nat    // callers that have changed something and not yet synced
    ghost var missed: bool    // a change could not be sent
    ghost var noting: bool    // an attach has told the daemon a size and not yet noted it
    ghost var offered: Grid   // that size
    ghost var crossed: bool   // the last size sent in that time was another one, and none has been sent since
    ghost var holder: Id      // whoever made the newest claim

    ghost predicate Valid()
      reads this
    {
      && (noting ==> 0 < pending)
      && (pending == 0 && !missed ==> Wanted(sizes, activeViewer, declared))
      && (attached ==> (crossed <==> told != if noting then offered else declared))
      && (activeViewer == NOBODY || activeViewer == holder)
    }

    constructor ()
      ensures Valid() && sizes == map[] && activeViewer == NOBODY && ownerEpoch == 0 && !attached && declared == NO_GRID
      ensures pending == 0 && !missed && !noting && !crossed
    {
      sizes, activeViewer, ownerEpoch, declared, attached := map[], NOBODY, 0, NO_GRID, false;
      told, pending, missed, noting, offered, crossed, holder := NO_GRID, 0, false, false, NO_GRID, false, NOBODY;
    }

    method Viewport() returns (g: Grid)
      ensures Wanted(sizes, activeViewer, g)
    {
      if activeViewer != NOBODY {
        if activeViewer !in sizes || sizes[activeViewer].Zero() {
          return NO_GRID;
        }
        return sizes[activeViewer];
      }
      g := NO_GRID;
      var todo := sizes.Keys;
      ghost var done: map<Id, Grid> := map[];
      while todo != {}
        invariant todo <= sizes.Keys && done == map id | id in sizes && id !in todo :: sizes[id]
        invariant Fits(done, g)
        decreases |todo|
      {
        var id :| id in todo;
        todo := todo - {id};
        ghost var before := g;
        var size := sizes[id];
        if !size.Zero() {
          var cols := if g.cols == 0 || size.cols < g.cols then size.cols else g.cols;
          var rows := if g.rows == 0 || size.rows < g.rows then size.rows else g.rows;
          g := Grid(cols, rows);
        }
        FitsOneMore(done, before, id, size);
        done := done[id := size];
      }
      assert done == sizes;
    }

    /** A connection's registration; its id is new. */
    method Subscribe(id: Id)
      requires Valid() && id !in sizes && id != activeViewer && id != NOBODY
      modifies this`sizes
      ensures Valid() && sizes == old(sizes)[id := NO_GRID]
    {
      if activeViewer == NOBODY && pending == 0 && !missed {
        ObserverDoesNotCount(sizes, id, declared);
      }
      sizes := sizes[id := NO_GRID];
    }

    method Unsubscribe(id: Id)
      requires Valid()
      modifies this`sizes, this`pending
      ensures Valid() && sizes == old(sizes) - {id}
      ensures pending == old(pending) + if id in old(sizes) then 1 else 0
    {
      if id in sizes {
        sizes := sizes - {id};
        pending := pending + 1;
      } else {
        assert sizes - {id} == sizes;
      }
    }

    /** A claim takes the grid unless a newer connection has claimed it, or its viewer is gone. */
    method SetViewerOwner(id: Id, epoch: nat)
      requires Valid()
      modifies this`activeViewer, this`ownerEpoch, this`holder, this`pending
      ensures Valid() && old(ownerEpoch) <= ownerEpoch
      ensures var taken := old(ownerEpoch) <= epoch && (id == NOBODY || id in sizes);
              && activeViewer == (if taken then id else old(activeViewer))
              && ownerEpoch == (if taken then epoch else old(ownerEpoch))
              && holder == (if taken then id else old(holder))
              && pending == old(pending) + if taken then 1 else 0
    {
      if epoch < ownerEpoch {
        return;
      }
      if id != NOBODY && id !in sizes {
        return;
      }
      activeViewer, ownerEpoch, holder, pending := id, epoch, id, pending + 1;
    }

    /** Only the owner's own departure gives the grid up. */
    method ReleaseViewerOwner(id: Id)
      requires Valid()
      modifies this`activeViewer, this`pending
      ensures Valid()
      ensures activeViewer == if old(activeViewer) == id then NOBODY else old(activeViewer)
      ensures pending == old(pending) + if old(activeViewer) == id then 1 else 0
    {
      if activeViewer != id {
        return;
      }
      activeViewer, pending := NOBODY, pending + 1;
    }

    method SetViewerSize(id: Id, cols: nat, rows: nat)
      requires Valid()
      modifies this`sizes, this`pending
      ensures Valid()
      ensures id !in old(sizes) ==> sizes == old(sizes) && pending == old(pending)
      ensures id in old(sizes) ==>
                && sizes == old(sizes)[id := if cols == 0 || rows == 0 then NO_GRID else Grid(cols, rows)]
                && pending == old(pending) + 1
    {
      if id in sizes {
        sizes := sizes[id := if cols == 0 || rows == 0 then NO_GRID else Grid(cols, rows)];
        pending := pending + 1;
      }
    }

    /** A caller declares the size that is wanted now, if the daemon does not have it. */
    method SyncViewport(fails: bool) returns (pushed: bool, ok: bool)
      requires Valid() && (if noting then 1 else 0) < pending
      modifies this`declared, this`told, this`pending, this`missed, this`crossed
      ensures Valid() && pending == old(pending) - 1
      ensures pushed ==> ok && attached && told == declared
      ensures !pushed ==> declared == old(declared) && told == old(told)
      ensures pushed <==> attached && !fails && !Wanted(sizes, activeViewer, old(declared))
      ensures !fails ==> ok
      ensures crossed == if pushed then noting && declared != offered else old(crossed)
      ensures ok && attached ==> Wanted(sizes, activeViewer, declared) && !missed
    {
      var want := Viewport();
      pending := pending - 1;
      if Wanted(sizes, activeViewer, declared) {
        WantedOnce(sizes, activeViewer, want, declared);
      }
      if want == declared {
        missed := false;
        return false, true;
      }
      if !attached {
        missed := true;
        return false, true;
      }
      if fails {
        missed := true;
        return false, false;
      }
      declared, told, missed, crossed := want, want, false, noting && want != offered;
      return true, true;
    }

    /** An attach opens the stream, telling the daemon a viewport read before; it will note it, and
        then sync once more. */
    method OpenStream(viewport: Grid)
      requires Valid() && !noting
      modifies this`attached, this`told, this`pending, this`noting, this`offered, this`crossed
      ensures Valid() && attached && noting && told == offered == viewport && !crossed && pending == old(pending) + 1
    {
      attached, told, pending, noting, offered, crossed := true, viewport, pending + 1, true, viewport, false;
    }

    /** The attach notes what it told the daemon when it began. */
    method NoteDeclared(viewport: Grid)
      requires Valid() && noting && viewport == offered
      modifies this`declared, this`noting
      ensures Valid() && declared == viewport && !noting
    {
      declared, noting := viewport, false;
    }

    /** With no change waiting to be declared, none lost on the way and no attach in flight, the daemon
        has exactly the owner's window, or what fits everyone, if and only if the last size sent during
        the attach was the one the attach began with, or another has been sent since. */
    lemma Converged()
      requires Valid() && pending == 0 && !missed && attached
      ensures Wanted(sizes, activeViewer, told) <==> !crossed
      ensures !crossed ==> forall g :: Wanted(sizes, activeViewer, g) <==> g == told
    {
      hide Wanted;
      if Wanted(sizes, activeViewer, told) {
        WantedOnce(sizes, activeViewer, told, declared);
      }
      forall g | Wanted(sizes, activeViewer, g) ensures g == declared {
        WantedOnce(sizes, activeViewer, g, declared);
      }
    }
  }

  lemma FitsOneMore(done: map<Id, Grid>, g: Grid, id: Id, size: Grid)
    requires id !in done && Fits(done, g)
    ensures var cols := if g.cols == 0 || size.cols < g.cols then size.cols else g.cols;
            var rows := if g.rows == 0 || size.rows < g.rows then size.rows else g.rows;
            Fits(done[id := size], if size.Zero() then g else Grid(cols, rows))
  {
    var more := done[id := size];
    assert forall a :: a in done ==> more[a] == done[a];
    if exists a :: a in done && !done[a].Zero() {
      var a :| a in done && !done[a].Zero() && done[a].cols == g.cols;
      var b :| b in done && !done[b].Zero() && done[b].rows == g.rows;
      assert more[a] == done[a] && more[b] == done[b];
    }
    assert more[id] == size;
  }

  lemma OwnersWindow(sizes: map<Id, Grid>, owner: Id, g: Grid)
    requires owner != NOBODY && owner in sizes && !sizes[owner].Zero()
    ensures Wanted(sizes, owner, g) <==> g == sizes[owner]
  {
  }

  /** An attach in flight, told 80x24, while the window has become 100x30 and been synced. */
  method AttachInFlight(a: Id) returns (v: Viewports)
    requires a != NOBODY
    ensures fresh(v) && v.Valid() && v.sizes == map[a := Grid(100, 30)] && v.activeViewer == a
    ensures v.declared == v.told == Grid(100, 30) && v.offered == Grid(80, 24) && v.crossed
    ensures v.attached && v.noting && v.pending == 3 && !v.missed
  {
    hide Wanted, Viewports.Valid;
    v := new Viewports();
    v.Subscribe(a);
    assert v.sizes == map[a := NO_GRID];
    v.SetViewerOwner(a, 1);
    v.SetViewerSize(a, 80, 24);
    assert v.sizes == map[a := Grid(80, 24)];
    var before := v.Viewport();
    OwnersWindow(v.sizes, a, before);
    v.OpenStream(before);
    v.SetViewerSize(a, 100, 30);
    assert v.sizes == map[a := Grid(100, 30)];
    var p, o := v.SyncViewport(false);
    OwnersWindow(v.sizes, a, v.declared);
    assert p;
  }

  /** A window that is resized while an attach is in flight, and resized back before the attach notes
      what it declared, leaves the daemon with a size nobody has. */
  method AttachCrossed(a: Id) returns (v: Viewports)
    requires a != NOBODY
    ensures fresh(v) && v.Valid() && v.attached && v.pending == 0 && !v.noting && !v.missed
    ensures v.sizes == map[a := Grid(80, 24)] && v.activeViewer == a && v.declared == Grid(80, 24)
    ensures v.crossed && v.told == Grid(100, 30) && !Wanted(v.sizes, v.activeViewer, v.told)
  {
    hide Wanted, Viewports.Valid;
    v := AttachInFlight(a);
    v.NoteDeclared(Grid(80, 24));
    v.SetViewerSize(a, 80, 24);
    assert v.sizes == map[a := Grid(80, 24)];
    OwnersWindow(v.sizes, a, v.declared);
    for i := 0 to 4
      invariant v.Valid() && v.attached && !v.noting && v.crossed && v.told == Grid(100, 30) && v.declared == Grid(80, 24)
      invariant v.sizes == map[a := Grid(80, 24)] && v.activeViewer == a && v.pending == 4 - i && (i > 0 ==> !v.missed)
    {
      var pushed, _ := v.SyncViewport(false);
      assert !pushed;
    }
    OwnersWindow(v.sizes, a, v.told);
  }
}
