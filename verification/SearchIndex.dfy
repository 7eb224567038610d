/** The filename index behind file search: a breadth-first scan that reuses directories whose time stamp
    has not moved, and query results kept for one generation of it. */
module SearchIndex {
  import opened Common

  type Path = seq<string>   // from the root of the index, which is []

  datatype Entry = Entry(name: string, isDir: bool)

  /** A directory on disk; reading it may fail after its first `readable` names. */
  datatype Dir = Dir(mtime: nat, names: seq<Entry>, readable: nat)

  type Tree = map<Path, Dir>

  /** What the index remembers of a directory. */
  datatype Known = Known(mtime: nat, items: seq<Entry>)

  datatype Item = Item(rel: Path, isDir: bool)

  /** Directories, by what is listed in them. */
  type Listing = map<Path, seq<Entry>>

  const SKIP_DIRS := {".git", "node_modules", "dist", "build", "__pycache__", ".venv", "venv", "vendor", "target",
                     ".next", ".cache", ".idea"}

  predicate Skipped(e: Entry) {
    e.isDir && e.name in SKIP_DIRS
  }

  function Kept(names: seq<Entry>): seq<Entry>
    decreases |names|
  {
    if names == [] then []
    else Kept(names[..|names| - 1]) + if Skipped(names[|names| - 1]) then [] else [names[|names| - 1]]
  }

  function TrueListing(fs: Tree): Listing {
    map p | p in fs :: Kept(fs[p].names)
  }

  function Remembered(ds: map<Path, Known>): Listing {
    map p | p in ds :: ds[p].items
  }

  function Items(l: Listing, p: Path): seq<Entry> {
    if p in l then l[p] else []
  }

  // ---- what an index should hold ----

  /** The scan enters the root, and every directory listed in one it enters. */
  predicate Entered(l: Listing, p: Path)
    decreases |p|
  {
    p == [] || (Entered(l, Parent(p)) && Entry(p[|p| - 1], true) in Items(l, Parent(p)))
  }

  function Parent(p: Path): Path
    requires p != []
  {
    p[..|p| - 1]
  }

  predicate Holds(l: Listing, item: Item) {
    var p := item.rel;
    p != [] && Entered(l, Parent(p)) && Entry(p[|p| - 1], item.isDir) in Items(l, Parent(p))
  }

  predicate Distinct<T(==)>(s: seq<T>) {
    forall i, j :: 0 <= i < j < |s| ==> s[i] != s[j]
  }

  function Rels(items: seq<Item>): (r: seq<Path>)
    ensures |r| == |items| && forall i :: 0 <= i < |r| ==> r[i] == items[i].rel
  {
    seq(|items|, i requires 0 <= i < |items| => items[i].rel)
  }

  /** Each name under the root once, and nothing else. */
  ghost predicate Exact(l: Listing, items: seq<Item>) {
    Distinct(Rels(items)) && forall item :: item in items <==> Holds(l, item)
  }

  /** Names in one directory differ. */
  predicate Named(names: seq<Entry>) {
    forall i, j :: 0 <= i < j < |names| ==> names[i].name != names[j].name
  }

  ghost predicate Proper(l: Listing) {
    forall p :: p in l ==> Named(l[p])
  }

  // ---- the scan ----

  /** The items of directory `p`. */
  function Batch(p: Path, es: seq<Entry>): (r: seq<Item>)
    ensures |r| == |es| && forall i :: 0 <= i < |r| ==> r[i] == Item(p + [es[i].name], es[i].isDir)
  {
    seq(|es|, i requires 0 <= i < |es| => Item(p + [es[i].name], es[i].isDir))
  }

  function DirsOf(items: seq<Item>): seq<Path>
    decreases |items|
  {
    if items == [] then []
    else DirsOf(items[..|items| - 1]) + if items[|items| - 1].isDir then [items[|items| - 1].rel] else []
  }

  lemma {:induction false} DirsConcat(a: seq<Item>, b: seq<Item>)
    ensures DirsOf(a + b) == DirsOf(a) + DirsOf(b)
    decreases |b|
  {
    if b == [] {
      assert a + b == a;
    } else {
      var k := |b| - 1;
      var all := a + b;
      assert all[..|all| - 1] == a + b[..k] && all[|all| - 1] == b[k];
      DirsConcat(a, b[..k]);
    }
  }

  lemma {:induction false} DirsAre(items: seq<Item>)
    ensures forall p :: p in DirsOf(items) <==> Item(p, true) in items
    ensures Distinct(Rels(items)) ==> Distinct(DirsOf(items))
    decreases |items|
  {
    if items != [] {
      var k := |items| - 1;
      DirsAre(items[..k]);
      assert items == items[..k] + [items[k]];
      assert Rels(items)[..k] == Rels(items[..k]);
      if Distinct(Rels(items)) && items[k].isDir {
        assert forall i :: 0 <= i < k ==> Rels(items)[i] != Rels(items)[k];
        assert Item(items[k].rel, true) !in items[..k];
      }
    }
  }

  /** Everything found belongs, and was listed in one of `dirs`. */
  ghost predicate Sound(l: Listing, dirs: seq<Path>, items: seq<Item>) {
    forall item :: item in items ==> Holds(l, item) && Parent(item.rel) in dirs
  }

  ghost predicate Covers(items: seq<Item>, p: Path, es: seq<Entry>) {
    forall e :: e in es ==> Item(p + [e.name], e.isDir) in items
  }

  /** How far the scan has come: `queue` begins with the root and goes on with the directories found,
      and what was found is what the first `head` of them list. */
  ghost predicate Scanned(l: Listing, queue: seq<Path>, head: nat, items: seq<Item>) {
    && head <= |queue| && queue == [[]] + DirsOf(items)
    && Distinct(Rels(items))
    && Sound(l, queue[..head], items)
    && (forall k :: 0 <= k < head ==> queue[k] in l && Covers(items, queue[k], l[queue[k]]))
  }

  lemma QueueDistinct(l: Listing, queue: seq<Path>, head: nat, items: seq<Item>)
    requires Scanned(l, queue, head, items)
    ensures Distinct(queue)
  {
    hide Holds, DirsOf, Covers;
    DirsAre(items);
    var ds := DirsOf(items);
    forall j | 0 <= j < |ds| ensures ds[j] != [] {
      assert ds[j] in ds && Item(ds[j], true) in items;
      HoldsBelow(l, Item(ds[j], true));
    }
  }

  lemma HoldsBelow(l: Listing, item: Item)
    requires Holds(l, item)
    ensures item.rel != [] && Entered(l, Parent(item.rel)) && (item.isDir ==> Entered(l, item.rel))
  {
  }

  lemma QueueEntered(l: Listing, queue: seq<Path>, head: nat, items: seq<Item>, p: Path)
    requires Scanned(l, queue, head, items) && p in queue
    ensures Entered(l, p)
  {
    hide Holds, DirsOf, Covers, Entered, Distinct;
    DirsAre(items);
    if p == [] {
      RootEntered(l);
    } else {
      assert p in DirsOf(items);
      HoldsBelow(l, Item(p, true));
    }
  }

  lemma RootEntered(l: Listing)
    ensures Entered(l, [])
  {
  }

  lemma InBatch(l: Listing, p: Path, es: seq<Entry>, item: Item)
    requires item in Batch(p, es)
    ensures item.rel != [] && Parent(item.rel) == p && Entry(item.rel[|item.rel| - 1], item.isDir) in es
    ensures Entered(l, p) && Items(l, p) == es ==> Holds(l, item)
  {
    hide Entered;
    var i :| 0 <= i < |es| && Batch(p, es)[i] == item;
    assert item.rel[..|item.rel| - 1] == p;
    assert es[i] in es;
  }

  lemma BatchCovers(p: Path, es: seq<Entry>)
    ensures Covers(Batch(p, es), p, es)
  {
    forall e | e in es ensures Item(p + [e.name], e.isDir) in Batch(p, es) {
      var i :| 0 <= i < |es| && es[i] == e;
      assert Batch(p, es)[i] == Item(p + [e.name], e.isDir);
    }
  }

  lemma SoundMore(l: Listing, dirs: seq<Path>, items: seq<Item>, p: Path)
    requires Sound(l, dirs, items) && p in l && Entered(l, p)
    ensures Sound(l, dirs + [p], items + Batch(p, l[p]))
  {
    hide Holds, Entered;
    var more := Batch(p, l[p]);
    forall item | item in items + more ensures Holds(l, item) && item.rel != [] && Parent(item.rel) in dirs + [p] {
      if item in more {
        InBatch(l, p, l[p], item);
      } else {
        HoldsBelow(l, item);
      }
    }
  }

  lemma DistinctMore(l: Listing, dirs: seq<Path>, items: seq<Item>, p: Path)
    requires Distinct(Rels(items)) && Sound(l, dirs, items) && p !in dirs && p in l && Proper(l)
    ensures Distinct(Rels(items + Batch(p, l[p])))
  {
    hide Holds;
    var es := l[p];
    var more := Batch(p, es);
    var rels := Rels(items + more);
    forall i, j | 0 <= i < j < |rels| ensures rels[i] != rels[j] {
      if j < |items| {
        assert Rels(items)[i] != Rels(items)[j];
      } else {
        var last := more[j - |items|];
        assert last in more;
        InBatch(l, p, es, last);
        if i < |items| {
          assert items[i] in items;
          HoldsBelow(l, items[i]);
        } else {
          assert es[i - |items|].name != es[j - |items|].name;
          assert rels[i][|p|] != rels[j][|p|];
        }
      }
    }
  }

  /** One more directory of the queue is listed. */
  lemma ScanOne(l: Listing, queue: seq<Path>, head: nat, items: seq<Item>)
    requires Scanned(l, queue, head, items) && Proper(l) && head < |queue| && queue[head] in l
    ensures var more := Batch(queue[head], l[queue[head]]);
            Scanned(l, queue + DirsOf(more), head + 1, items + more)
  {
    hide Holds, Entered, DirsOf, Proper, Sound, Batch;
    var p := queue[head];
    var more := Batch(p, l[p]);
    var q := queue + DirsOf(more);
    QueueDistinct(l, queue, head, items);
    QueueEntered(l, queue, head, items, p);
    DirsConcat(items, more);
    assert q[..head + 1] == queue[..head] + [p];
    SoundMore(l, queue[..head], items, p);
    assert p !in queue[..head];
    DistinctMore(l, queue[..head], items, p);
    BatchCovers(p, l[p]);
  }

  /** A scan that has listed its whole queue has found everything. */
  lemma ScanAll(l: Listing, queue: seq<Path>, items: seq<Item>)
    requires Scanned(l, queue, |queue|, items)
    ensures Exact(l, items) && forall p :: Entered(l, p) <==> p in queue
  {
    hide Entered, DirsOf, Distinct, Covers;
    forall p ensures Entered(l, p) <==> p in queue {
      if p in queue {
        QueueEntered(l, queue, |queue|, items, p);
      }
      if Entered(l, p) {
        Reached(l, queue, items, p);
      }
    }
    forall item | Holds(l, item) ensures item in items {
      var parent := Parent(item.rel);
      Found(l, queue, items, parent, Entry(item.rel[|item.rel| - 1], item.isDir));
      assert parent + [item.rel[|item.rel| - 1]] == item.rel;
    }
  }

  lemma Found(l: Listing, queue: seq<Path>, items: seq<Item>, p: Path, e: Entry)
    requires Scanned(l, queue, |queue|, items) && p in queue && e in Items(l, p)
    ensures Item(p + [e.name], e.isDir) in items
  {
    hide DirsOf, Distinct, Sound;
    var k :| 0 <= k < |queue| && queue[k] == p;
  }

  lemma {:induction false} Reached(l: Listing, queue: seq<Path>, items: seq<Item>, p: Path)
    requires Scanned(l, queue, |queue|, items) && Entered(l, p)
    ensures p in queue
    decreases |p|
  {
    hide DirsOf, Distinct, Sound, Covers;
    if p == [] {
      assert queue[0] == [];
    } else {
      var parent := Parent(p);
      Reached(l, queue, items, parent);
      Found(l, queue, items, parent, Entry(p[|p| - 1], true));
      assert parent + [p[|p| - 1]] == p;
      DirsAre(items);
      assert p in DirsOf(items);
    }
  }

  /** Two listings that agree wherever the scan goes lead to the same index. */
  lemma {:induction false} SameEntered(l: Listing, m: Listing, p: Path)
    requires forall q :: Entered(l, q) ==> Items(l, q) == Items(m, q)
    ensures Entered(l, p) <==> Entered(m, p)
    decreases |p|
  {
    if p != [] {
      SameEntered(l, m, Parent(p));
    }
  }

  lemma SameIndex(l: Listing, m: Listing, items: seq<Item>)
    requires forall q :: Entered(l, q) ==> Items(l, q) == Items(m, q)
    ensures Exact(l, items) <==> Exact(m, items)
  {
    forall item: Item ensures Holds(l, item) <==> Holds(m, item) {
      if item.rel != [] {
        SameEntered(l, m, Parent(item.rel));
      }
    }
  }

  // ---- building ----

  const MAX_BYTES: nat := 0x800_0000

  function RelLength(p: Path): nat {
    if p == [] then 0 else |p[0]| + (if |p| == 1 then 0 else 1) + RelLength(p[1..])
  }

  function Cost(item: Item): nat {
    72 + 2 * RelLength(item.rel) + if item.rel == [] then 0 else 2 * |item.rel[|item.rel| - 1]|
  }

  /** What an index takes. */
  function Total(items: seq<Item>): nat
    decreases |items|
  {
    if items == [] then 0 else Total(items[..|items| - 1]) + Cost(items[|items| - 1])
  }

  lemma {:induction false} TotalConcat(a: seq<Item>, b: seq<Item>)
    ensures Total(a + b) == Total(a) + Total(b)
    decreases |b|
  {
    hide Cost;
    if b == [] {
      assert a + b == a;
    } else {
      var k := |b| - 1;
      assert (a + b)[..|a + b| - 1] == a + b[..k];
      TotalConcat(a, b[..k]);
    }
  }

  lemma TotalMore(a: seq<Item>, item: Item)
    ensures Total(a + [item]) == Total(a) + Cost(item)
  {
    assert (a + [item])[..|a|] == a;
  }

  lemma {:induction false} TotalWithin(a: seq<Item>, b: seq<Item>)
    requires Distinct(a) && forall item :: item in a ==> item in b
    ensures Total(a) <= Total(b)
    decreases |a|
  {
    hide Cost;
    if a != [] {
      var k := |a| - 1;
      var item := a[k];
      assert item in a && item in b;
      var j :| 0 <= j < |b| && b[j] == item;
      var rest := b[..j] + b[j + 1..];
      assert b == b[..j] + [item] + b[j + 1..];
      forall x | x in a[..k]
        ensures x in rest
      {
        var i :| 0 <= i < k && a[i] == x;
        assert a[i] in a && x in b && x != item;
        var n :| 0 <= n < |b| && b[n] == x;
        assert n != j && (if n < j then rest[n] else rest[n - 1]) == x;
      }
      TotalWithin(a[..k], rest);
      TotalConcat(b[..j] + [item], b[j + 1..]);
      TotalMore(b[..j], item);
      TotalConcat(b[..j], b[j + 1..]);
    }
  }

  /** The tree fits an index: what it should hold takes no more than 128 MiB. */
  ghost predicate Roomy(fs: Tree) {
    exists all: seq<Item> :: Exact(TrueListing(fs), all) && Total(all) <= 128 * 1024 * 1024
  }

  /** Every directory the scan comes to is there and can be read to its end. */
  ghost predicate Tidy(fs: Tree) {
    forall p :: Entered(TrueListing(fs), p) ==> p in fs && |fs[p].names| <= fs[p].readable
  }

  /** What is listed is listed as it is on disk. */
  ghost predicate Truly(fs: Tree, l: Listing) {
    forall p :: p in l ==> p in fs && l[p] == Kept(fs[p].names)
  }

  lemma {:induction false} TrulyEntered(fs: Tree, l: Listing, p: Path)
    requires Truly(fs, l) && Entered(l, p)
    ensures Entered(TrueListing(fs), p)
    decreases |p|
  {
    hide Kept;
    if p != [] {
      TrulyEntered(fs, l, Parent(p));
    }
  }

  lemma TrulyHeld(fs: Tree, l: Listing, item: Item)
    requires Truly(fs, l) && Holds(l, item)
    ensures Holds(TrueListing(fs), item)
  {
    hide Kept, Entered;
    TrulyEntered(fs, l, Parent(item.rel));
  }

  /** What has been found truly takes no more than what an exact index would. */
  lemma FoundFits(fs: Tree, l: Listing, queue: seq<Path>, head: nat, items: seq<Item>)
    requires Scanned(l, queue, head, items) && Truly(fs, l) && Roomy(fs)
    ensures Total(items) <= 128 * 1024 * 1024
  {
    hide Holds, DirsOf, Covers, Total, Truly;
    var all: seq<Item> :| Exact(TrueListing(fs), all) && Total(all) <= 128 * 1024 * 1024;
    forall item | item in items
      ensures item in all
    {
      TrulyHeld(fs, l, item);
    }
    forall i, j | 0 <= i < j < |items|
      ensures items[i] != items[j]
    {
      assert Rels(items)[i] != Rels(items)[j];
    }
    TotalWithin(items, all);
  }

  lemma NothingListed(p: Path, items: seq<Item>, queue: seq<Path>)
    ensures Batch(p, []) == [] && items + [] == items && queue + DirsOf([]) == queue
  {
  }

  lemma OneMoreName(p: Path, es: seq<Entry>, e: Entry, items: seq<Item>, queue: seq<Path>)
    ensures var one := Item(p + [e.name], e.isDir);
            && items + Batch(p, es) + [one] == items + Batch(p, es + [e])
            && queue + DirsOf(Batch(p, es)) + DirsOf([one]) == queue + DirsOf(Batch(p, es + [e]))
  {
    var one := Item(p + [e.name], e.isDir);
    assert Batch(p, es + [e]) == Batch(p, es) + [one];
    DirsConcat(Batch(p, es), [one]);
    assert items + Batch(p, es) + [one] == items + (Batch(p, es) + [one]);
    assert queue + DirsOf(Batch(p, es)) + DirsOf([one]) == queue + (DirsOf(Batch(p, es)) + DirsOf([one]));
  }

  lemma DirsOne(item: Item)
    ensures DirsOf([item]) == if item.isDir then [item.rel] else []
  {
    assert [item][..0] == [];
  }

  /** One directory more and the index outgrows its budget: the tree does not fit one. */
  lemma TooMuch(fs: Tree, l: Listing, queue: seq<Path>, head: nat, items: seq<Item>, es: seq<Entry>)
    requires Scanned(l, queue, head, items) && Proper(l) && head < |queue| && Named(es) && Listed(l, queue[..head])
    requires Truly(fs, l) && queue[head] in fs && es == Kept(fs[queue[head]].names)
    requires Total(items + Batch(queue[head], es)) > 128 * 1024 * 1024
    ensures !Roomy(fs)
  {
    hide Scanned, Proper, Named, Listed, Total, Roomy, DirsOf, Batch, Kept;
    ScanNext(l, queue, head, items, es);
    if Roomy(fs) {
      FoundFits(fs, l[queue[head] := es], queue + DirsOf(Batch(queue[head], es)), head + 1, items + Batch(queue[head], es));
    }
  }

  /** A directory the scan comes to that is missing, or not read to its end. */
  lemma Untidy(fs: Tree, l: Listing, queue: seq<Path>, head: nat, items: seq<Item>)
    requires Scanned(l, queue, head, items) && Truly(fs, l) && head < |queue|
    requires queue[head] in fs ==> fs[queue[head]].readable < |fs[queue[head]].names|
    ensures !Tidy(fs)
  {
    hide Scanned, Truly, Entered;
    assert queue[head] in queue;
    QueueEntered(l, queue, head, items, queue[head]);
    TrulyEntered(fs, l, queue[head]);
  }

  lemma LearnedTruly(fs: Tree, l: Listing, found: map<Path, Known>)
    requires Learned(fs, l, found)
    ensures Truly(fs, l)
  {
    hide Kept;
  }

  lemma ReadWhole(dir: Dir)
    ensures dir.readable >= |dir.names| ==> Readable(dir) == dir.names
  {
  }

  lemma TotalOfMore(items: seq<Item>, p: Path, some: seq<Entry>, all: seq<Entry>)
    requires some <= all
    ensures Total(items + Batch(p, some)) <= Total(items + Batch(p, all))
  {
    hide Total;
    var rest := Batch(p, all)[|some|..];
    assert Batch(p, all) == Batch(p, some) + rest;
    assert items + Batch(p, all) == items + Batch(p, some) + rest;
    TotalConcat(items + Batch(p, some), rest);
  }

  lemma {:induction false} KeptGrows(names: seq<Entry>, n: nat)
    requires n <= |names|
    ensures Kept(names[..n]) <= Kept(names)
    decreases |names| - n
  {
    if n == |names| {
      assert names[..n] == names;
    } else {
      assert names[..n + 1][..n] == names[..n];
      KeptGrows(names, n + 1);
    }
  }

  class Builder {
    var entries: seq<Item>
    var queue: seq<Path>
    var bytes: nat
    var failed: bool    // a directory could not be read, or the index outgrew its budget

    predicate Counted()
      reads this
    {
      bytes == Total(entries) <= 128 * 1024 * 1024
    }

    constructor ()
      ensures entries == [] && queue == [[]] && !failed && Counted()
    {
      entries, queue, bytes, failed := [], [[]], 0, false;
    }

    method Add(item: Item) returns (ok: bool)
      requires Counted()
      modifies this
      ensures ok <==> Total(old(entries) + [item]) <= 128 * 1024 * 1024
      ensures ok ==> Counted()
      ensures ok ==> entries == old(entries) + [item] && queue == old(queue) + DirsOf([item]) && failed == old(failed)
      ensures !ok ==> failed && entries == old(entries) && queue == old(queue)
    {
      hide Total, Cost, DirsOf;
      TotalMore(entries, item);
      bytes := bytes + Cost(item);
      if bytes > MAX_BYTES {
        failed := true;
        return false;
      }
      entries := entries + [item];
      DirsOne(item);
      if item.isDir {
        queue := queue + [item.rel];
      } else {
        assert queue + [] == queue;
      }
      return true;
    }

    /** An unchanged directory: its remembered names are added. */
    method Reuse(p: Path, items: seq<Entry>) returns (ok: bool)
      requires Counted()
      modifies this
      ensures ok ==> Counted()
      ensures !ok ==> Total(old(entries) + Batch(p, items)) > 128 * 1024 * 1024
      ensures ok ==> entries == old(entries) + Batch(p, items) && queue == old(queue) + DirsOf(Batch(p, items)) && failed == old(failed)
      ensures !ok ==> failed
    {
      hide DirsOf, Batch, Total;
      NothingListed(p, entries, queue);
      assert items[..0] == [];
      for i := 0 to |items|
        invariant Counted()
        invariant entries == old(entries) + Batch(p, items[..i]) && failed == old(failed)
        invariant queue == old(queue) + DirsOf(Batch(p, items[..i]))
      {
        ok := Add(Item(p + [items[i].name], items[i].isDir));
        assert items[..i + 1] == items[..i] + [items[i]];
        OneMoreName(p, items[..i], items[i], old(entries), old(queue));
        if !ok {
          TotalOfMore(old(entries), p, items[..i + 1], items);
          return;
        }
      }
      assert items[..|items|] == items;
      return true;
    }

    /** A directory is read, as far as it can be: every name but those of directories never entered is
        added. */
    method Read(p: Path, dir: Dir) returns (ok: bool, discovered: seq<Entry>)
      requires Counted()
      modifies this
      ensures !ok ==> failed && Total(old(entries) + Batch(p, Kept(Readable(dir)))) > 128 * 1024 * 1024
      ensures ok ==>
                && Counted() && discovered == Kept(Readable(dir)) && failed == (old(failed) || dir.readable < |dir.names|)
                && entries == old(entries) + Batch(p, discovered) && queue == old(queue) + DirsOf(Batch(p, discovered))
    {
      hide DirsOf, Batch, Skipped, Total;
      discovered := [];
      NothingListed(p, entries, queue);
      var names := Readable(dir);
      for i := 0 to |names|
        invariant discovered == Kept(names[..i]) && failed == old(failed) && Counted()
        invariant entries == old(entries) + Batch(p, discovered)
        invariant queue == old(queue) + DirsOf(Batch(p, discovered))
      {
        var e := names[i];
        assert names[..i + 1][..i] == names[..i];
        if Skipped(e) {
          assert discovered + [] == discovered;
          continue;
        }
        ok := Add(Item(p + [e.name], e.isDir));
        OneMoreName(p, discovered, e, old(entries), old(queue));
        if !ok {
          KeptGrows(names, i + 1);
          TotalOfMore(old(entries), p, discovered + [e], Kept(names));
          return;
        }
        discovered := discovered + [e];
      }
      assert names[..|names|] == names;
      if dir.readable < |dir.names| {
        failed := true;
      }
      return true, discovered;
    }
  }

  function Readable(dir: Dir): seq<Entry> {
    if |dir.names| <= dir.readable then dir.names else dir.names[..dir.readable]
  }

  lemma NoNames()
    ensures Named([])
  {
  }

  lemma ReadableNamed(dir: Dir)
    requires Named(dir.names)
    ensures Named(Readable(dir))
  {
  }

  lemma {:induction false} KeptNamed(names: seq<Entry>)
    requires Named(names)
    ensures Named(Kept(names)) && forall e :: e in Kept(names) ==> e in names
    decreases |names|
  {
    if names != [] {
      var k := |names| - 1;
      KeptNamed(names[..k]);
      forall e | e in Kept(names[..k]) ensures e.name != names[k].name {
        var i :| 0 <= i < k && names[i] == e;
      }
    }
  }

  lemma {:induction false} EnteredMore(l: Listing, p: Path, es: seq<Entry>, q: Path)
    requires p !in l && Entered(l, q)
    ensures Entered(l[p := es], q)
    decreases |q|
  {
    if q != [] {
      EnteredMore(l, p, es, Parent(q));
    }
  }

  /** Learning what one more directory lists takes nothing back. */
  lemma ScannedMore(l: Listing, queue: seq<Path>, head: nat, items: seq<Item>, p: Path, es: seq<Entry>)
    requires Scanned(l, queue, head, items) && p !in l
    ensures Scanned(l[p := es], queue, head, items)
  {
    hide Entered, DirsOf, Distinct;
    forall item | item in items ensures Holds(l[p := es], item) {
      EnteredMore(l, p, es, Parent(item.rel));
    }
  }

  ghost predicate Listed(l: Listing, dirs: seq<Path>) {
    forall p :: p in l <==> p in dirs
  }

  /** The scan moves on by one directory, whose names were `es`. */
  lemma ScanNext(l: Listing, queue: seq<Path>, head: nat, items: seq<Item>, es: seq<Entry>)
    requires Scanned(l, queue, head, items) && Proper(l) && head < |queue| && Named(es)
    requires Listed(l, queue[..head])
    ensures var m, more := l[queue[head] := es], Batch(queue[head], es);
            && Scanned(m, queue + DirsOf(more), head + 1, items + more) && Proper(m) && Distinct(queue)
            && Listed(m, (queue + DirsOf(more))[..head + 1])
  {
    hide Entered, DirsOf, Scanned, Batch;
    var p := queue[head];
    QueueDistinct(l, queue, head, items);
    assert p !in queue[..head];
    ScannedMore(l, queue, head, items, p, es);
    ScanOne(l[p := es], queue, head, items);
    assert (queue + DirsOf(Batch(p, es)))[..head + 1] == queue[..head] + [p];
  }

  datatype View = View(entries: seq<Item>, generation: nat, complete: bool, failed: bool)

  /** Equal time stamps mean equal names. */
  ghost predicate StampsTell(fs: Tree, known: map<Path, Known>) {
    forall p :: p in fs && p in known && known[p].mtime == fs[p].mtime ==> known[p].items == Kept(fs[p].names)
  }

  /** Directories of the tree the scan has yet to list. */
  function ToList(fs: Tree, queue: seq<Path>, head: nat): set<Path>
    requires head <= |queue|
  {
    set p | p in fs && p !in queue[..head]
  }

  lemma FewerToList(fs: Tree, queue: seq<Path>, more: seq<Path>, head: nat)
    requires Distinct(queue) && head < |queue|
    ensures |ToList(fs, queue + more, head + 1)| <= |ToList(fs, queue, head)|
    ensures queue[head] in fs ==> |ToList(fs, queue + more, head + 1)| < |ToList(fs, queue, head)|
  {
    var a, b := ToList(fs, queue, head), ToList(fs, queue + more, head + 1);
    assert (queue + more)[..head + 1] == queue[..head] + [queue[head]];
    assert queue[head] !in queue[..head];
    assert b == a - {queue[head]};
  }

  // ---- queries ----

  datatype Hit = Hit(name: string, rel: string, isDir: bool)

  datatype Query = Query(prefix: string, terms: seq<string>)

  function Joined(p: Path): string {
    if p == [] then "" else if |p| == 1 then p[0] else p[0] + "/" + Joined(p[1..])
  }

  predicate ContainsAt(s: string, t: string, i: nat) {
    i + |t| <= |s| && s[i..i + |t|] == t
  }

  predicate Contains(s: string, t: string) {
    exists i :: 0 <= i <= |s| && ContainsAt(s, t, i)
  }

  /** Several terms, or one with a slash, are looked for in the path; otherwise in the name. */
  predicate ByPath(q: Query)
    requires q.terms != []
  {
    |q.terms| > 1 || '/' in q.terms[0]
  }

  predicate Fits(lower: string -> string, q: Query, item: Item)
    requires q.terms != []
  {
    var name := if item.rel == [] then "" else item.rel[|item.rel| - 1];
    var candidate := if ByPath(q) then lower(q.prefix) + lower(Joined(item.rel)) else lower(name);
    forall i :: 0 <= i < |q.terms| ==> Contains(candidate, q.terms[i])
  }

  function HitOf(q: Query, item: Item): Hit {
    Hit(if item.rel == [] then "" else item.rel[|item.rel| - 1], q.prefix + Joined(item.rel), item.isDir)
  }

  /** Every entry that fits, in order. */
  function Search(lower: string -> string, items: seq<Item>, q: Query): seq<Hit>
    requires q.terms != []
    decreases |items|
  {
    if items == [] then []
    else
      var k := |items| - 1;
      Search(lower, items[..k], q) + if Fits(lower, q, items[k]) then [HitOf(q, items[k])] else []
  }

  ghost predicate Occurs(s: string, t: string) {
    exists a: string, b: string :: s == a + t + b
  }

  lemma ContainsOccurs(s: string, t: string)
    ensures Contains(s, t) <==> Occurs(s, t)
  {
    if Contains(s, t) {
      var i :| 0 <= i <= |s| && ContainsAt(s, t, i);
      assert s == s[..i] + t + s[i + |t|..];
    }
    if Occurs(s, t) {
      var a: string, b: string :| s == a + t + b;
      assert ContainsAt(s, t, |a|);
    }
  }

  /** An entry is wanted when every term occurs in it: in its lower-case path under the root's prefix for
      several terms or one with a slash, in its lower-case name otherwise. */
  ghost predicate Wanted(lower: string -> string, q: Query, item: Item)
    requires q.terms != []
  {
    var name := if item.rel == [] then "" else item.rel[|item.rel| - 1];
    forall i :: 0 <= i < |q.terms| ==>
      Occurs(if |q.terms| == 1 && '/' !in q.terms[i] then lower(name) else lower(q.prefix) + lower(Joined(item.rel)), q.terms[i])
  }

  lemma FitsWanted(lower: string -> string, q: Query, item: Item)
    requires q.terms != []
    ensures Fits(lower, q, item) <==> Wanted(lower, q, item)
  {
    hide Contains, Occurs;
    var name := if item.rel == [] then "" else item.rel[|item.rel| - 1];
    var candidate := if ByPath(q) then lower(q.prefix) + lower(Joined(item.rel)) else lower(name);
    forall i | 0 <= i < |q.terms|
      ensures Contains(candidate, q.terms[i]) <==> Occurs(candidate, q.terms[i])
      ensures candidate == if |q.terms| == 1 && '/' !in q.terms[i] then lower(name) else lower(q.prefix) + lower(Joined(item.rel))
    {
      ContainsOccurs(candidate, q.terms[i]);
    }
  }

  /** The hits are the wanted entries, each once and in the order of the index. */
  lemma {:induction false} SearchFinds(lower: string -> string, items: seq<Item>, q: Query) returns (at: seq<nat>)
    requires q.terms != []
    ensures var hits := Search(lower, items, q);
            && |at| == |hits| && (forall i :: 0 <= i < |at| ==> at[i] < |items|)
            && (forall i, j :: 0 <= i < j < |at| ==> at[i] < at[j])
            && (forall k :: 0 <= k < |items| ==> (k in at <==> Wanted(lower, q, items[k])))
            && (forall i :: 0 <= i < |hits| ==>
                  var item := items[at[i]];
                  hits[i] == Hit(if item.rel == [] then "" else item.rel[|item.rel| - 1], q.prefix + Joined(item.rel), item.isDir))
    decreases |items|
  {
    hide Fits, Wanted, Joined;
    at := [];
    if items != [] {
      var k := |items| - 1;
      at := SearchFinds(lower, items[..k], q);
      FitsWanted(lower, q, items[k]);
      if Fits(lower, q, items[k]) {
        at := at + [k];
      }
    }
  }

  const NUL: char := '\0'

  function Join(terms: seq<string>): string
    requires terms != []
  {
    if |terms| == 1 then terms[0] else terms[0] + [NUL] + Join(terms[1..])
  }

  function Key(q: Query): string
    requires q.terms != []
  {
    q.prefix + [NUL] + Join(q.terms)
  }

  predicate NulFree(q: Query) {
    NUL !in q.prefix && forall t :: t in q.terms ==> NUL !in t
  }

  lemma First(a: string, x: string)
    ensures (a + [NUL] + x)[0] == if a == [] then NUL else a[0]
    ensures a != [] ==> a[0] in a
  {
  }

  lemma {:induction false} SplitOnce(a: string, x: string, b: string, y: string)
    requires NUL !in a && NUL !in b && a + [NUL] + x == b + [NUL] + y
    ensures a == b && x == y
  {
    First(a, x);
    First(b, y);
    if a == [] {
      assert x == ([NUL] + x)[1..] && a + [NUL] + x == [NUL] + x;
      assert y == ([NUL] + y)[1..] && b + [NUL] + y == [NUL] + y;
    } else {
      assert (a + [NUL] + x)[1..] == a[1..] + [NUL] + x;
      assert (b + [NUL] + y)[1..] == b[1..] + [NUL] + y;
      SplitOnce(a[1..], x, b[1..], y);
      assert a == [a[0]] + a[1..] && b == [b[0]] + b[1..];
    }
  }

  lemma NulInJoin(s: seq<string>)
    requires s != [] && forall w :: w in s ==> NUL !in w
    ensures NUL in Join(s) <==> |s| > 1
  {
    assert s[0] in s;
    if |s| > 1 {
      assert Join(s)[|s[0]|] == NUL;
    }
  }

  lemma {:induction false} JoinTells(s: seq<string>, t: seq<string>)
    requires s != [] && t != [] && Join(s) == Join(t)
    requires (forall w :: w in s ==> NUL !in w) && (forall w :: w in t ==> NUL !in w)
    ensures s == t
  {
    NulInJoin(s);
    NulInJoin(t);
    if |s| == 1 {
    } else {
      assert s[0] in s && t[0] in t;
      SplitOnce(s[0], Join(s[1..]), t[0], Join(t[1..]));
      JoinTells(s[1..], t[1..]);
      assert s == [s[0]] + s[1..] && t == [t[0]] + t[1..];
    }
  }

  /** Queries without NUL have keys of their own. */
  lemma KeyTells(q: Query, r: Query)
    requires q.terms != [] && r.terms != [] && NulFree(q) && NulFree(r) && Key(q) == Key(r)
    ensures q == r
  {
    SplitOnce(q.prefix, Join(q.terms), r.prefix, Join(r.terms));
    JoinTells(q.terms, r.terms);
  }

  // ---- what a key is, for every query ----

  /** A string cut at its NULs. */
  function Cut(s: string): (r: seq<string>)
    ensures r != []
    decreases |s|
  {
    if s == [] then [[]]
    else
      if s[0] == NUL then [[]] + Cut(s[1..]) else Glue(s[0], Cut(s[1..]))
  }

  /** A character put before the first word. */
  function Glue(c: char, words: seq<string>): (r: seq<string>)
    requires words != []
    ensures r != []
  {
    [[c] + words[0]] + words[1..]
  }

  lemma GlueApart(c: char, x: seq<string>, y: seq<string>)
    requires x != []
    ensures Glue(c, x + y) == Glue(c, x) + y
    ensures [[]] + (x + y) == [[]] + x + y
  {
    assert (x + y)[1..] == x[1..] + y;
  }

  function Words(ts: seq<string>): seq<string>
    decreases |ts|
  {
    if ts == [] then [] else Cut(ts[0]) + Words(ts[1..])
  }

  function Parts(q: Query): (r: seq<string>)
    ensures r != []
  {
    [q.prefix] + q.terms
  }

  lemma KeyIsJoin(q: Query)
    requires q.terms != []
    ensures Key(q) == Join(Parts(q))
  {
    assert Parts(q)[1..] == q.terms;
  }

  lemma {:induction false} CutApart(a: string, b: string)
    ensures Cut(a + [NUL] + b) == Cut(a) + Cut(b)
    decreases |a|
  {
    hide Glue;
    var s := a + [NUL] + b;
    if a == [] {
      assert s[1..] == b;
    } else {
      CutApart(a[1..], b);
      assert s[0] == a[0] && s[1..] == a[1..] + [NUL] + b;
      GlueApart(a[0], Cut(a[1..]), Cut(b));
    }
  }

  lemma {:induction false} CutJoin(ts: seq<string>)
    requires ts != []
    ensures Cut(Join(ts)) == Words(ts)
    decreases |ts|
  {
    if |ts| == 1 {
      assert Words(ts[1..]) == [];
      assert Cut(ts[0]) + [] == Cut(ts[0]);
    } else {
      CutJoin(ts[1..]);
      CutApart(ts[0], Join(ts[1..]));
    }
  }

  lemma {:induction false} JoinCut(s: string)
    ensures Join(Cut(s)) == s
    decreases |s|
  {
    if s != [] {
      var rest := Cut(s[1..]);
      JoinCut(s[1..]);
      if s[0] == NUL {
        var all := [[]] + rest;
        assert all[1..] == rest && all[0] == [];
        assert Join(all) == [] + [NUL] + s[1..];
      } else {
        var all := [[s[0]] + rest[0]] + rest[1..];
        assert all[1..] == rest[1..] && all[0] == [s[0]] + rest[0];
        assert Join(all) == [s[0]] + Join(rest);
      }
    }
  }

  /** Two queries share a key exactly when prefix and terms, cut at their NULs, are the same words. */
  lemma KeysSame(q: Query, r: Query)
    requires q.terms != [] && r.terms != []
    ensures Key(q) == Key(r) <==> Words(Parts(q)) == Words(Parts(r))
  {
    KeyIsJoin(q);
    KeyIsJoin(r);
    CutJoin(Parts(q));
    CutJoin(Parts(r));
    JoinCut(Join(Parts(q)));
    JoinCut(Join(Parts(r)));
  }

  lemma {:induction false} CutWhole(s: string)
    ensures if NUL in s then |Cut(s)| > 1 else Cut(s) == [s]
    decreases |s|
  {
    if s != [] {
      assert s == [s[0]] + s[1..];
      CutWhole(s[1..]);
    }
  }

  lemma {:induction false} WordsAtLeast(ts: seq<string>)
    ensures |Words(ts)| >= |ts|
    ensures |Words(ts)| == |ts| ==> forall t :: t in ts ==> NUL !in t
    decreases |ts|
  {
    if ts != [] {
      CutWhole(ts[0]);
      WordsAtLeast(ts[1..]);
      assert ts == [ts[0]] + ts[1..];
    }
  }

  /** A query of one term without NUL shares its key with no other query at all. */
  lemma OneTermAlone(q: Query, r: Query)
    requires NulFree(q) && |q.terms| == 1 && r.terms != [] && Words(Parts(q)) == Words(Parts(r))
    ensures q == r
  {
    hide Cut, Key;
    var p := Parts(q);
    CutWhole(q.prefix);
    CutWhole(q.terms[0]);
    assert p[1..] == q.terms && q.terms[1..] == [] && Words([]) == [];
    assert Words(p) == [q.prefix] + ([q.terms[0]] + []);
    WordsAtLeast(Parts(r));
    assert forall t :: t in r.terms ==> t in Parts(r);
    assert r.prefix in Parts(r);
    KeysSame(q, r);
    KeyTells(q, r);
  }

  lemma SameKey(q: Query, r: Query)
    requires q.terms != [] && r.terms != [] && Key(q) == Key(r)
    ensures Words(Parts(r)) == Words(Parts(q))
    ensures NulFree(q) && (|q.terms| == 1 || NulFree(r)) ==> r == q
  {
    hide Key, Words, Parts, NulFree;
    KeysSame(q, r);
    if NulFree(q) && |q.terms| == 1 {
      OneTermAlone(q, r);
    } else if NulFree(q) && NulFree(r) {
      KeyTells(q, r);
    }
  }

  /** One with a NUL may share its key with another. */
  lemma KeysCollide()
    ensures var q, r := Query("", [['a', NUL, 'b']]), Query("", ["a", "b"]);
            Key(q) == Key(r) && q != r && !NulFree(q) && NulFree(r)
  {
    var q, r := Query("", [['a', NUL, 'b']]), Query("", ["a", "b"]);
    assert r.terms[1..] == ["b"];
    assert Join(r.terms) == "a" + [NUL] + "b" == ['a', NUL, 'b'];
    assert q.terms[0] in q.terms;
  }

  lemma NothingScanned()
    ensures Scanned(map[], [[]], 0, []) && Proper(map[]) && Listed(map[], [])
  {
  }

  /** The directories listed so far are listed as they are on disk, and so remembered. */
  ghost predicate Learned(fs: Tree, l: Listing, found: map<Path, Known>) {
    && (forall p :: p in l ==> p in fs && l[p] == Kept(fs[p].names) && p in found && found[p].items == l[p])
    && forall p :: p in found ==> p in l
  }

  ghost predicate Unchanged(l: Listing, previous: map<Path, Known>) {
    forall p :: p in l ==> p in previous && previous[p].items == l[p]
  }

  lemma NothingLearned(fs: Tree, previous: map<Path, Known>)
    ensures Learned(fs, map[], map[]) && Unchanged(map[], previous)
  {
  }

  lemma LearnsOne(fs: Tree, l: Listing, found: map<Path, Known>, p: Path)
    requires Learned(fs, l, found) && p in fs
    ensures var es := Kept(fs[p].names); Learned(fs, l[p := es], found[p := Known(fs[p].mtime, es)])
  {
    hide Kept;
  }

  lemma UnchangedOne(l: Listing, previous: map<Path, Known>, p: Path)
    requires Unchanged(l, previous) && p in previous
    ensures Unchanged(l[p := previous[p].items], previous)
  {
  }

  lemma StillKept(fs: Tree, previous: map<Path, Known>, p: Path)
    requires StampsTell(fs, previous) && p in fs && p in previous && previous[p].mtime == fs[p].mtime
    ensures previous[p].items == Kept(fs[p].names)
  {
    hide Kept;
  }

  lemma Finished(fs: Tree, l: Listing, queue: seq<Path>, items: seq<Item>, found: map<Path, Known>,
                 previous: map<Path, Known>)
    requires Scanned(l, queue, |queue|, items) && Listed(l, queue[..|queue|]) && Learned(fs, l, found)
    ensures Exact(TrueListing(fs), items) && Exact(Remembered(found), items)
    ensures Unchanged(l, previous) ==>
              forall q :: Entered(TrueListing(fs), q) ==> Items(TrueListing(fs), q) == Items(Remembered(previous), q)
  {
    hide Entered, Scanned, Exact, Kept;
    ScanAll(l, queue, items);
    assert queue[..|queue|] == queue;
    SameIndex(l, TrueListing(fs), items);
    SameIndex(l, Remembered(found), items);
    if Unchanged(l, previous) {
      forall q | Entered(TrueListing(fs), q) ensures Items(TrueListing(fs), q) == Items(Remembered(previous), q) {
        SameEntered(l, TrueListing(fs), q);
      }
    }
  }

  datatype Results = Results(generation: nat, hits: seq<Hit>)

  const MAX_HITS: nat := 10000
  const MAX_QUERIES: nat := 16

  class FileSearchIndex {
    const lower: string -> string
    var view: View
    var directories: Option<map<Path, Known>>
    var matchesByQuery: map<string, Results>

    ghost var published: map<nat, View>   // every view there has been, by generation
    ghost var asked: map<string, Query>   // the query each kept result was worked out for

    ghost predicate Valid()
      reads this
    {
      && (view.complete ==>
            && directories.Some? && Exact(Remembered(directories.value), view.entries)
            && Total(view.entries) <= 128 * 1024 * 1024)
      && (view.generation == 0 ==> !view.complete)
      && view.generation in published && published[view.generation] == view
      && (forall g :: g in published ==> g <= view.generation)
      && asked.Keys == matchesByQuery.Keys && |matchesByQuery| <= 16
      && (forall key :: key in matchesByQuery ==> Answers(key))
    }

    ghost predicate Answers(key: string)
      requires key in matchesByQuery && key in asked
      reads this
    {
      var q, r := asked[key], matchesByQuery[key];
      && q.terms != [] && Key(q) == key
      && r.generation in published && r.hits == Search(lower, published[r.generation].entries, q)
    }

    constructor (lower: string -> string)
      ensures Valid() && view == View([], 0, false, false) && directories == None && this.lower == lower && matchesByQuery == map[]
    {
      this.lower := lower;
      view, directories, matchesByQuery := View([], 0, false, false), None, map[];
      published, asked := map[0 := View([], 0, false, false)], map[];
    }

    /** A view takes over, with no results kept from the one before. */
    method Publish(entries: seq<Item>, complete: bool, failed: bool, found: map<Path, Known>)
      requires Valid() && (complete ==> Exact(Remembered(found), entries) && Total(entries) <= 128 * 1024 * 1024)
      modifies this`view, this`directories, this`matchesByQuery, this`asked, this`published
      ensures Valid() && view == View(entries, old(view.generation) + 1, complete, failed)
      ensures directories == (if complete then Some(found) else old(directories)) && matchesByQuery == map[]
      ensures published == old(published)[view.generation := view]
    {
      matchesByQuery, asked := map[], map[];
      view := View(entries, view.generation + 1, complete, failed);
      published := published[view.generation := view];
      if complete {
        directories := Some(found);
      }
    }

    /** A refresh. If nothing went wrong the view then holds every name under the root once; if something
        did, a view that was there before keeps its names. */
    method Build(fs: Tree, reconcile: bool, slow: set<Path>) returns (failed: bool)
      requires Valid() && (forall p :: p in fs ==> Named(fs[p].names))
      requires directories.Some? ==> StampsTell(fs, directories.value)
      modifies this`view, this`directories, this`matchesByQuery, this`asked, this`published
      ensures Valid()
      ensures !failed ==> view.complete && Exact(TrueListing(fs), view.entries) && Total(view.entries) <= 128 * 1024 * 1024
      ensures Roomy(fs) && Tidy(fs) ==> !failed
      ensures failed ==> !view.complete && directories == old(directories)
      ensures failed && old(view.generation) != 0 ==> view.entries == old(view.entries)
    {
      hide Exact, Entered, Kept, Total, Roomy, Tidy;
      var initial := view;
      var full := !initial.complete || directories.None? || reconcile;
      var previous := if directories.Some? then directories.value else map[];
      var b, found, changed := Scan(fs, full, previous, slow);
      failed := b.failed;
      if changed || failed {
        var entries := if failed && initial.generation != 0 then initial.entries else b.entries;
        Publish(entries, !failed, failed, found);
      } else {
        SameIndex(TrueListing(fs), Remembered(previous), view.entries);
      }
    }

    /** Breadth first through the tree, reusing what `previous` knows of directories that have not
        changed unless the scan is a full one; the first scan of all shows what it has so far. */
    method Scan(fs: Tree, full: bool, previous: map<Path, Known>, slow: set<Path>)
      returns (b: Builder, found: map<Path, Known>, changed: bool)
      requires Valid() && (forall p :: p in fs ==> Named(fs[p].names)) && StampsTell(fs, previous)
      requires view.generation == 0 ==> full
      modifies this`view, this`directories, this`matchesByQuery, this`asked, this`published
      ensures Valid() && fresh(b) && directories == old(directories) && (full ==> changed)
      ensures old(view.generation) != 0 ==> view == old(view)
      ensures !b.failed ==> Exact(TrueListing(fs), b.entries) && Exact(Remembered(found), b.entries) && b.Counted()
      ensures Roomy(fs) && Tidy(fs) ==> !b.failed
      ensures !b.failed && !changed ==>
                forall q :: Entered(TrueListing(fs), q) ==> Items(TrueListing(fs), q) == Items(Remembered(previous), q)
    {
      hide Exact, Entered, Scanned, Batch, DirsOf, Kept, Distinct, Learned, Unchanged, Listed, StampsTell, Named, ToList;
      hide FileSearchIndex.Valid, Roomy, Tidy, Truly, Total, Readable;
      b := new Builder();
      found := map[];
      changed := full;
      var head := 0;
      var first := view.generation == 0;
      ghost var l: Listing := map[];
      NothingScanned();
      NothingLearned(fs, previous);
      while head < |b.queue|
        invariant Valid() && fresh(b) && directories == old(directories) && (full ==> changed)
        invariant !first ==> view == old(view)
        invariant head <= |b.queue| && Scanned(l, b.queue, head, b.entries) && Proper(l) && Listed(l, b.queue[..head])
        invariant !b.failed ==> Learned(fs, l, found)
        invariant b.Counted() && (Roomy(fs) && Tidy(fs) ==> !b.failed)
        invariant !changed ==> !full && Unchanged(l, previous)
        decreases |ToList(fs, b.queue, head)|, |b.queue| - head
      {
        var p := b.queue[head];
        ghost var queue, entries, was := b.queue, b.entries, b.failed;
        if !b.failed {
          LearnedTruly(fs, l, found);
        }
        if p !in fs {
          if !b.failed {
            Untidy(fs, l, queue, head, entries);
          }
          NoNames();
          ScanNext(l, queue, head, entries, []);
          NothingListed(p, entries, queue);
          FewerToList(fs, queue, [], head);
          b.failed, changed, head := true, true, head + 1;
          l := l[p := []];
          continue;
        }
        var dir := fs[p];
        var discovered: seq<Entry>;
        var added;
        if !full && p in previous && previous[p].mtime == dir.mtime {
          KeptNamed(dir.names);
          StillKept(fs, previous, p);
          discovered := previous[p].items;
          if !changed {
            UnchangedOne(l, previous, p);
          }
          added := b.Reuse(p, discovered);
          if !added {
            if !was {
              TooMuch(fs, l, queue, head, entries, discovered);
            }
            break;
          }
        } else {
          changed := true;
          ReadableNamed(dir);
          KeptNamed(Readable(dir));
          ReadWhole(dir);
          if !b.failed && dir.readable < |dir.names| {
            Untidy(fs, l, queue, head, entries);
          }
          added, discovered := b.Read(p, dir);
          if !added {
            if !was && dir.readable >= |dir.names| {
              TooMuch(fs, l, queue, head, entries, Kept(dir.names));
            }
            break;
          }
          if p in slow && first {
            Publish(b.entries, false, b.failed, map[]);
          }
        }
        ScanNext(l, queue, head, entries, discovered);
        FewerToList(fs, queue, DirsOf(Batch(p, discovered)), head);
        if !b.failed {
          LearnsOne(fs, l, found, p);
        }
        found, head := found[p := Known(dir.mtime, discovered)], head + 1;
        l := l[p := discovered];
      }
      if !b.failed {
        Finished(fs, l, b.queue, b.entries, found, previous);
      }
    }

    /** The query whose result answers `q` on the view of a generation: the one a kept result was worked
        out for, if one is kept under the same key. */
    ghost function Answered(q: Query, generation: nat): (from: Query)
      requires q.terms != [] && matchesByQuery.Keys <= asked.Keys
      reads this
    {
      var key := Key(q);
      if key in matchesByQuery && matchesByQuery[key].generation == generation then asked[key] else q
    }

    /** The hits are those of a look at every entry of the view, kept or not, exactly when the query they
        were worked out for has the same hits there; that query has the same words. It is always so for one
        term without NUL, whatever was asked before. */
    method Matches(v: View, q: Query) returns (hits: seq<Hit>)
      requires Valid() && q.terms != [] && v.generation in published && published[v.generation] == v
      modifies this`matchesByQuery, this`asked
      ensures Valid()
      ensures var from := old(Answered(q, v.generation));
              && from.terms != [] && Words(Parts(from)) == Words(Parts(q)) && hits == Search(lower, v.entries, from)
              && (hits == Search(lower, v.entries, q) <==> Search(lower, v.entries, from) == Search(lower, v.entries, q))
              && (NulFree(q) && (|q.terms| == 1 || NulFree(from)) ==> hits == Search(lower, v.entries, q))
      ensures |hits| > 10000 || view.generation != v.generation ==> matchesByQuery == old(matchesByQuery)
      ensures |hits| <= 10000 && view.generation == v.generation ==>
                && Key(q) in matchesByQuery && matchesByQuery[Key(q)] == Results(v.generation, hits)
                && asked[Key(q)] == old(Answered(q, v.generation))
    {
      hide Key, Words, Parts, Search, NulFree;
      var key := Key(q);
      if key in matchesByQuery && matchesByQuery[key].generation == v.generation {
        assert Answers(key);
        SameKey(q, asked[key]);
        return matchesByQuery[key].hits;
      }
      hits := Look(v.entries, q);
      if |hits| <= MAX_HITS && view.generation == v.generation {
        Remember(q, hits);
      }
    }

    /** A result of the present view is kept; when enough are, those before it are forgotten. */
    method Remember(q: Query, hits: seq<Hit>)
      requires Valid() && q.terms != [] && hits == Search(lower, view.entries, q)
      modifies this`matchesByQuery, this`asked
      ensures Valid()
      ensures Key(q) in matchesByQuery && matchesByQuery[Key(q)] == Results(view.generation, hits) && asked[Key(q)] == q
    {
      hide Key, Words, Parts, Search, NulFree, Exact, Total;
      var key := Key(q);
      if |matchesByQuery| >= MAX_QUERIES {
        matchesByQuery, asked := map[], map[];
      }
      matchesByQuery, asked := matchesByQuery[key := Results(view.generation, hits)], asked[key := q];
      forall k | k in matchesByQuery ensures Answers(k) {
        if k != key {
          assert old(Answers(k));
        }
      }
    }

    /** Every entry is looked at. */
    method Look(entries: seq<Item>, q: Query) returns (hits: seq<Hit>)
      requires q.terms != []
      ensures hits == Search(lower, entries, q)
    {
      hits := [];
      for n := 0 to |entries|
        invariant hits == Search(lower, entries[..n], q)
      {
        assert entries[..n + 1][..n] == entries[..n];
        if Fits(lower, q, entries[n]) {
          hits := hits + [HitOf(q, entries[n])];
        }
      }
      assert entries[..|entries|] == entries;
    }
  }

  /** Of any two queries of the same words, the one asked second is answered with the hits of the first. */
  method AskedSecond(lower: string -> string, entries: seq<Item>, one: Query, two: Query)
    returns (index: FileSearchIndex, hits: seq<Hit>)
    requires one.terms != [] && two.terms != [] && Words(Parts(one)) == Words(Parts(two))
    requires |Search(lower, entries, one)| <= MAX_HITS
    ensures fresh(index) && index.Valid() && index.lower == lower && index.view.entries == entries
    ensures hits == Search(lower, entries, one)
  {
    hide Search, Key, Words, Parts;
    index := new FileSearchIndex(lower);
    index.Publish(entries, false, false, map[]);
    KeysSame(one, two);
    hits := index.Matches(index.view, one);
    assert index.Answered(one, index.view.generation) == one;
    hits := index.Matches(index.view, two);
  }

  /** One term with a NUL in it, then two terms. */
  method WrongHits() returns (index: FileSearchIndex, hits: seq<Hit>)
    ensures fresh(index) && index.Valid() && index.view.entries == [Item(["ab"], false)]
    ensures hits == [] && Search(index.lower, index.view.entries, Query("", ["a", "b"])) != []
  {
    hide Search, Key, Words, Parts;
    var entries, lower := [Item(["ab"], false)], s => s;
    var joined, both := Query("", [['a', NUL, 'b']]), Query("", ["a", "b"]);
    KeysCollide();
    KeysSame(joined, both);
    OnlyTheSecond(lower, entries);
    index, hits := AskedSecond(lower, entries, joined, both);
  }

  lemma OnlyTheSecond(lower: string -> string, items: seq<Item>)
    requires items == [Item(["ab"], false)] && forall s :: lower(s) == s
    ensures Search(lower, items, Query("", [['a', NUL, 'b']])) == [] != Search(lower, items, Query("", ["a", "b"]))
  {
    var one, two := Query("", [['a', NUL, 'b']]), Query("", ["a", "b"]);
    assert items[..0] == [];
    assert two.terms[0] == "a" && two.terms[1] == "b";
    assert ContainsAt("ab", "a", 0) && ContainsAt("ab", "b", 1);
    assert lower(two.prefix) + lower(Joined(items[0].rel)) == "ab";
    assert Fits(lower, two, items[0]);
    assert !Contains("ab", one.terms[0]);
    assert !Fits(lower, one, items[0]);
  }
}
