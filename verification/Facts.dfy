/** Model-request facts, folded into a report batch by batch as transcripts grow. */
module Facts {
  import opened Common

  type Id = string

  /** Nanoseconds; 0 is the zero time. */
  type Time = nat

  datatype Coverage = Unknown | Missing | Partial | Complete

  datatype Texts = Texts(model: string, effort: string, tier: string, billing: string, auth: string, geo: string,
                         speed: string)

  datatype Tokens = Tokens(input: int, cached: int, write5m: int, write1h: int, writeUnknown: int, output: int,
                           reasoning: int, raw: int)

  datatype Covers = Covers(identity: Coverage, model: Coverage, tokens: Coverage, effort: Coverage, tier: Coverage,
                           billing: Coverage, timing: Coverage, cacheTtl: Coverage)

  /** `fixed` stands for the fields that are compared but never merged. */
  datatype Fact = Fact(id: Id, texts: Texts, tokens: Tokens, at: Time, ended: Option<Time>, started: Option<Time>,
                       firstObserved: Option<Time>, firstToken: Option<Time>, covers: Covers,
                       diagnostics: seq<string>, invalidated: bool, sourceOffset: nat, fixed: string)

  function Either(a: string, b: string): string {
    if a == "" then b else a
  }

  function MergeTexts(a: Texts, b: Texts): Texts {
    Texts(Either(a.model, b.model), Either(a.effort, b.effort), Either(a.tier, b.tier), Either(a.billing, b.billing),
          Either(a.auth, b.auth), Either(a.geo, b.geo), Either(a.speed, b.speed))
  }

  function Max(a: int, b: int): int {
    if a > b then a else b
  }

  function MergeTokens(a: Tokens, b: Tokens): Tokens {
    Tokens(Max(a.input, b.input), Max(a.cached, b.cached), Max(a.write5m, b.write5m), Max(a.write1h, b.write1h),
           Max(a.writeUnknown, b.writeUnknown), Max(a.output, b.output), Max(a.reasoning, b.reasoning), Max(a.raw, b.raw))
  }

  function Rank(c: Coverage): nat {
    match c
    case Complete => 3
    case Partial => 2
    case Missing => 1
    case Unknown => 0
  }

  function Stronger(a: Coverage, b: Coverage): Coverage {
    if Rank(b) > Rank(a) then b else a
  }

  function MergeCovers(a: Covers, b: Covers): Covers {
    Covers(Stronger(a.identity, b.identity), Stronger(a.model, b.model), Stronger(a.tokens, b.tokens),
           Stronger(a.effort, b.effort), Stronger(a.tier, b.tier), Stronger(a.billing, b.billing),
           Stronger(a.timing, b.timing), Stronger(a.cacheTtl, b.cacheTtl))
  }

  function Earliest(a: Option<Time>, b: Option<Time>): Option<Time> {
    if b.Some? && (a.None? || b.value < a.value) then b else a
  }

  function Latest(a: Option<Time>, b: Option<Time>): Option<Time> {
    if b.Some? && (a.None? || a.value < b.value) then b else a
  }

  function AppendUnique(s: seq<string>, more: seq<string>): seq<string>
    decreases |more|
  {
    if more == [] then s
    else AppendUnique(if more[0] in s then s else s + [more[0]], more[1..])
  }

  function MergeFact(prior: Fact, next: Fact): Fact {
    var out := prior.(
      texts := MergeTexts(prior.texts, next.texts),
      tokens := MergeTokens(prior.tokens, next.tokens),
      at := if prior.at == 0 || (next.at != 0 && next.at < prior.at) then next.at else prior.at,
      ended := Latest(prior.ended, next.ended),
      started := Earliest(prior.started, next.started),
      firstObserved := Earliest(prior.firstObserved, next.firstObserved),
      firstToken := Earliest(prior.firstToken, next.firstToken),
      covers := MergeCovers(prior.covers, next.covers),
      diagnostics := AppendUnique(prior.diagnostics, next.diagnostics));
    if prior.invalidated || next.invalidated
    then out.(invalidated := true, started := None, firstToken := None, covers := out.covers.(timing := Missing))
    else out
  }

  function Duration(f: Fact): Option<int> {
    if f.started.None? || f.ended.None? then None else Some(f.ended.value - f.started.value)
  }

  /** Everything but when it was seen. */
  function Timeless(f: Fact): Fact {
    f.(at := 0, started := None, firstObserved := None, firstToken := None, ended := None, sourceOffset := 0)
  }

  predicate SameFact(a: Fact, b: Fact) {
    Duration(a) == Duration(b) && Timeless(a) == Timeless(b)
  }

  predicate Deepwork(id: Id) {
    "deepwork:" <= id
  }

  datatype Result<T> = Ok(value: T) | Conflict(id: Id)

  /** One more fact: new, merged with what is known of its request, or in conflict with it. */
  function Absorb(m: map<Id, Fact>, f: Fact): Result<map<Id, Fact>> {
    if f.id !in m then Ok(m[f.id := f])
    else if !Deepwork(f.id) then Ok(m[f.id := MergeFact(m[f.id], f)])
    else if SameFact(m[f.id], f) then Ok(m)
    else Conflict(f.id)
  }

  function AbsorbAll(m: map<Id, Fact>, fs: seq<Fact>): Result<map<Id, Fact>>
    decreases |fs|
  {
    if fs == [] then Ok(m)
    else
      var r := AbsorbAll(m, fs[..|fs| - 1]);
      if r.Ok? then Absorb(r.value, fs[|fs| - 1]) else r
  }

  function Index(fs: seq<Fact>): map<Id, Fact>
    decreases |fs|
  {
    if fs == [] then map[] else Index(fs[..|fs| - 1])[fs[|fs| - 1].id := fs[|fs| - 1]]
  }

  predicate Keyed(m: map<Id, Fact>) {
    forall id :: id in m ==> m[id].id == id
  }

  // ---- the order of a report ----

  predicate IdLess(a: Id, b: Id)
    decreases |a|
  {
    if b == [] then false
    else if a == [] then true
    else a[0] < b[0] || (a[0] == b[0] && IdLess(a[1..], b[1..]))
  }

  lemma {:induction false} IdOrder(a: Id, b: Id, c: Id)
    ensures a == b || IdLess(a, b) || IdLess(b, a)
    ensures !(IdLess(a, b) && IdLess(b, a)) && !IdLess(a, a)
    ensures IdLess(a, b) && IdLess(b, c) ==> IdLess(a, c)
    decreases |a| + |b| + |c|
  {
    if a != [] && b != [] {
      IdOrder(a[1..], b[1..], if c == [] then [] else c[1..]);
      if a[0] == b[0] && a[1..] == b[1..] {
        assert a == [a[0]] + a[1..] && b == [b[0]] + b[1..];
      }
    }
    NotLessThanItself(a);
  }

  lemma {:induction false} NotLessThanItself(a: Id)
    ensures !IdLess(a, a)
  {
    if a != [] {
      NotLessThanItself(a[1..]);
    }
  }

  predicate Before(a: Fact, b: Fact) {
    a.at < b.at || (a.at == b.at && IdLess(a.id, b.id))
  }

  lemma BeforeOrder(a: Fact, b: Fact, c: Fact)
    ensures a.id == b.id || Before(a, b) || Before(b, a)
    ensures !(Before(a, b) && Before(b, a)) && !Before(a, a)
    ensures Before(a, b) && Before(b, c) ==> Before(a, c)
  {
    IdOrder(a.id, b.id, c.id);
    IdOrder(a.id, a.id, a.id);
  }

  predicate Sorted(s: seq<Fact>) {
    forall i, j :: 0 <= i < j < |s| ==> Before(s[i], s[j])
  }

  /** The facts of a map in the order of the report. */
  ghost predicate Lists(s: seq<Fact>, m: map<Id, Fact>) {
    && Sorted(s) && Keyed(m)
    && (forall f :: f in s ==> f.id in m && m[f.id] == f)
    && (forall id :: id in m ==> m[id] in s)
  }

  function Place(s: seq<Fact>, f: Fact): seq<Fact> {
    if s == [] then [f]
    else if Before(f, s[0]) then [f] + s
    else [s[0]] + Place(s[1..], f)
  }

  lemma {:induction false} Placed(s: seq<Fact>, f: Fact)
    ensures forall g :: g in Place(s, f) <==> g in s || g == f
    ensures Sorted(s) && (forall g :: g in s ==> g.id != f.id) ==> Sorted(Place(s, f))
  {
    if s == [] {
    } else if Before(f, s[0]) {
      if Sorted(s) {
        forall j | 0 <= j < |s| ensures Before(f, s[j]) {
          BeforeOrder(f, s[0], s[j]);
        }
      }
    } else {
      Placed(s[1..], f);
      assert s == [s[0]] + s[1..];
      if Sorted(s) && (forall g :: g in s ==> g.id != f.id) {
        BeforeOrder(s[0], f, f);
        var r := Place(s[1..], f);
        forall k | 0 <= k < |r| ensures Before(s[0], r[k]) {
          assert r[k] in r;
        }
      }
    }
  }

  /** There is one list of a map: the report does not depend on the order the map is walked in. */
  lemma {:induction false} ListedOnce(s: seq<Fact>, t: seq<Fact>, m: map<Id, Fact>)
    requires Lists(s, m) && Lists(t, m)
    ensures s == t
    decreases |s|
  {
    Inhabited(t, m);
    if s == [] {
    } else {
      assert s[0] in s && m[s[0].id] in t;
      assert t[0] in t && m[t[0].id] in s;
      SameHead(s, t);
      var rest := m - {s[0].id};
      TailLists(s, m);
      TailLists(t, m);
      ListedOnce(s[1..], t[1..], rest);
      assert s == [s[0]] + s[1..] && t == [t[0]] + t[1..];
    }
  }

  lemma Inhabited(t: seq<Fact>, m: map<Id, Fact>)
    requires Lists(t, m)
    ensures t != [] ==> t[0].id in m && m[t[0].id] == t[0]
  {
    assert t != [] ==> t[0] in t;
  }

  lemma SameHead(s: seq<Fact>, t: seq<Fact>)
    requires s != [] && t != [] && Sorted(s) && Sorted(t) && s[0] in t && t[0] in s
    ensures s[0] == t[0]
  {
    if s[0] != t[0] {
      BeforeOrder(s[0], t[0], s[0]);
    }
  }

  lemma TailLists(s: seq<Fact>, m: map<Id, Fact>)
    requires Lists(s, m) && s != []
    ensures Lists(s[1..], m - {s[0].id})
  {
    assert s == [s[0]] + s[1..];
    forall f | f in s[1..] ensures f.id != s[0].id {
      var k :| 0 < k < |s| && s[k] == f;
      BeforeOrder(s[0], s[k], s[0]);
      assert m[f.id] == f && m[s[0].id] == s[0] && s[0] in s && f in s;
    }
  }

  /** Folds a batch into a report, or says which request it contradicts. */
  method MergeRequestFacts(base: seq<Fact>, appended: seq<Fact>) returns (merged: Result<seq<Fact>>)
    ensures merged.Conflict? <==> AbsorbAll(Index(base), appended).Conflict?
    ensures merged.Conflict? ==> merged.id == AbsorbAll(Index(base), appended).id
    ensures merged.Ok? ==> Lists(merged.value, AbsorbAll(Index(base), appended).value)
  {
    var byId: map<Id, Fact> := map[];
    for i := 0 to |base|
      invariant byId == Index(base[..i]) && Keyed(byId)
    {
      assert base[..i + 1][..i] == base[..i];
      byId := byId[base[i].id := base[i]];
    }
    assert base[..|base|] == base;
    for i := 0 to |appended|
      invariant AbsorbAll(Index(base), appended[..i]) == Ok(byId) && Keyed(byId)
    {
      assert appended[..i + 1][..i] == appended[..i];
      var fact := appended[i];
      var r := AbsorbAll(Index(base), appended[..i + 1]);
      assert r == Absorb(byId, fact);
      if fact.id in byId {
        var prior := byId[fact.id];
        if Deepwork(fact.id) {
          if !SameFact(prior, fact) {
            FirstConflict(Index(base), appended, i + 1);
            return Conflict(fact.id);
          }
          continue;
        }
        byId := byId[fact.id := MergeFact(prior, fact)];
      } else {
        byId := byId[fact.id := fact];
      }
    }
    assert appended[..|appended|] == appended;
    var facts := [];
    var ids := byId.Keys;
    while ids != {}
      invariant ids <= byId.Keys && Sorted(facts)
      invariant forall f :: f in facts <==> f.id in byId && f.id !in ids && byId[f.id] == f
      decreases |ids|
    {
      var id :| id in ids;
      ids := ids - {id};
      Placed(facts, byId[id]);
      facts := Place(facts, byId[id]);
    }
    return Ok(facts);
  }

  lemma {:induction false} FirstConflict(m: map<Id, Fact>, fs: seq<Fact>, n: nat)
    requires n <= |fs| && AbsorbAll(m, fs[..n]).Conflict?
    ensures AbsorbAll(m, fs) == AbsorbAll(m, fs[..n])
    decreases |fs| - n
  {
    if n == |fs| {
      assert fs[..n] == fs;
    } else {
      assert fs[..n + 1][..n] == fs[..n];
      FirstConflict(m, fs, n + 1);
    }
  }

  // ---- incremental is one-shot ----

  lemma {:induction false} AbsorbMore(m: map<Id, Fact>, x: seq<Fact>, y: seq<Fact>)
    ensures AbsorbAll(m, x + y) ==
            if AbsorbAll(m, x).Ok? then AbsorbAll(AbsorbAll(m, x).value, y) else AbsorbAll(m, x)
    decreases |y|
  {
    if y == [] {
      assert x + y == x;
    } else {
      var k := |y| - 1;
      var all := x + y;
      assert all[..|all| - 1] == x + y[..k] && all[|all| - 1] == y[k];
      AbsorbMore(m, x, y[..k]);
    }
  }

  /** A list of distinct requests indexes to the map it lists. */
  lemma {:induction false} IndexOf(s: seq<Fact>, id: Id)
    requires Sorted(s)
    ensures id in Index(s) <==> exists f :: f in s && f.id == id
    ensures Keyed(Index(s)) && (id in Index(s) ==> Index(s)[id] in s)
    decreases |s|
  {
    if s != [] {
      var k := |s| - 1;
      assert s == s[..k] + [s[k]];
      IndexOf(s[..k], id);
      if id == s[k].id {
        assert s[k] in s && s[k].id == id;
      } else if id in Index(s) {
        var f :| f in s[..k] && f.id == id;
        assert f in s;
      }
    }
  }

  lemma IndexLists(s: seq<Fact>, m: map<Id, Fact>)
    requires Lists(s, m)
    ensures Index(s) == m
  {
    forall id ensures id in Index(s) <==> id in m
      ensures id in m ==> Index(s)[id] == m[id]
    {
      IndexOf(s, id);
      if id in m {
        assert m[id] in s && m[id].id == id;
      }
    }
  }

  lemma {:induction false} AbsorbKeyed(m: map<Id, Fact>, fs: seq<Fact>)
    requires Keyed(m)
    ensures AbsorbAll(m, fs).Ok? ==> Keyed(AbsorbAll(m, fs).value)
    decreases |fs|
  {
    if fs != [] {
      AbsorbKeyed(m, fs[..|fs| - 1]);
    }
  }

  lemma {:induction false} IndexKeyed(s: seq<Fact>)
    ensures Keyed(Index(s))
    decreases |s|
  {
    if s != [] {
      IndexKeyed(s[..|s| - 1]);
    }
  }

  /** Folding in two batches one after the other gives the report, or the conflict, of folding them in
      together: `first` is the report after `x`, `second` after `y` on top of it, `once` after both. */
  lemma Incremental(base: seq<Fact>, x: seq<Fact>, y: seq<Fact>, first: seq<Fact>)
    requires AbsorbAll(Index(base), x).Ok? && Lists(first, AbsorbAll(Index(base), x).value)
    ensures AbsorbAll(Index(first), y) == AbsorbAll(Index(base), x + y)
    ensures AbsorbAll(Index(first), y).Ok? ==>
              forall second, once ::
                (Lists(second, AbsorbAll(Index(first), y).value) && Lists(once, AbsorbAll(Index(base), x + y).value)) ==>
                second == once
  {
    IndexKeyed(base);
    AbsorbKeyed(Index(base), x);
    IndexLists(first, AbsorbAll(Index(base), x).value);
    AbsorbMore(Index(base), x, y);
    if AbsorbAll(Index(first), y).Ok? {
      var m := AbsorbAll(Index(first), y).value;
      forall second, once | Lists(second, m) && Lists(once, m) ensures second == once {
        ListedOnce(second, once, m);
      }
    }
  }

  /** A batch in conflict stays in conflict whatever follows it. */
  lemma ConflictStays(base: seq<Fact>, x: seq<Fact>, y: seq<Fact>)
    requires AbsorbAll(Index(base), x).Conflict?
    ensures AbsorbAll(Index(base), x + y) == AbsorbAll(Index(base), x)
  {
    AbsorbMore(Index(base), x, y);
  }

  // ---- what a batch can do to a known request ----

  predicate NoLess(a: Tokens, b: Tokens) {
    && a.input <= b.input && a.cached <= b.cached && a.write5m <= b.write5m && a.write1h <= b.write1h
    && a.writeUnknown <= b.writeUnknown && a.output <= b.output && a.reasoning <= b.reasoning && a.raw <= b.raw
  }

  predicate NoWeaker(a: Covers, b: Covers) {
    && Rank(a.identity) <= Rank(b.identity) && Rank(a.model) <= Rank(b.model) && Rank(a.tokens) <= Rank(b.tokens)
    && Rank(a.effort) <= Rank(b.effort) && Rank(a.tier) <= Rank(b.tier) && Rank(a.billing) <= Rank(b.billing)
    && Rank(a.cacheTtl) <= Rank(b.cacheTtl)
  }

  /** A request whose timing was revoked shows none. */
  predicate Buried(f: Fact) {
    f.invalidated ==> f.started == None && f.firstToken == None && f.covers.timing == Missing
  }

  /** Whatever is folded in, a known request stays known, its counts never fall, its coverage never
      weakens but for timing, a revocation of its timing stays, and Deepwork's own facts never change. */
  lemma {:induction false} OnlyGrows(m: map<Id, Fact>, fs: seq<Fact>, id: Id)
    requires AbsorbAll(m, fs).Ok? && id in m
    ensures var n := AbsorbAll(m, fs).value;
            && id in n
            && NoLess(m[id].tokens, n[id].tokens) && NoWeaker(m[id].covers, n[id].covers)
            && (m[id].invalidated ==> n[id].invalidated)
            && (Deepwork(id) ==> n[id] == m[id])
            && (Buried(m[id]) ==> Buried(n[id]))
    decreases |fs|
  {
    if fs != [] {
      hide Absorb, NoLess, NoWeaker, Buried;
      var k := |fs| - 1;
      var n := AbsorbAll(m, fs[..k]).value;
      OnlyGrows(m, fs[..k], id);
      GrowsByOne(n, fs[k], id);
      NoLessChain(m[id], n[id], AbsorbAll(m, fs).value[id]);
    } else {
      Unchanged(m[id]);
    }
  }

  lemma Unchanged(f: Fact)
    ensures NoLess(f.tokens, f.tokens) && NoWeaker(f.covers, f.covers)
  {
  }

  lemma NoLessChain(a: Fact, b: Fact, c: Fact)
    requires NoLess(a.tokens, b.tokens) && NoLess(b.tokens, c.tokens)
    requires NoWeaker(a.covers, b.covers) && NoWeaker(b.covers, c.covers)
    ensures NoLess(a.tokens, c.tokens) && NoWeaker(a.covers, c.covers)
  {
  }

  lemma GrowsByOne(m: map<Id, Fact>, f: Fact, id: Id)
    requires Absorb(m, f).Ok? && id in m
    ensures var n := Absorb(m, f).value;
            && id in n
            && NoLess(m[id].tokens, n[id].tokens) && NoWeaker(m[id].covers, n[id].covers)
            && (m[id].invalidated ==> n[id].invalidated)
            && (Deepwork(id) ==> n[id] == m[id])
            && (Buried(m[id]) ==> Buried(n[id]))
  {
    hide Deepwork, MergeTexts, AppendUnique;
  }

  /** Timing is really gone once a fact that revokes it has been merged into a request, or one has
      been merged into a request that was revoked; a revoked fact that is the first of its request
      keeps the times it came with. */
  lemma RevokedTiming(m: map<Id, Fact>, f: Fact)
    requires Absorb(m, f).Ok? && !Deepwork(f.id)
    requires f.invalidated || (f.id in m && m[f.id].invalidated)
    ensures var g := Absorb(m, f).value[f.id];
            g.invalidated && (Buried(g) <==> f.id in m || (f.started == None && f.firstToken == None && f.covers.timing == Missing))
  {
  }

  // ---- what any number of rows of one request come to ----

  /** The rows of one request, in order. */
  function Rows(fs: seq<Fact>, id: Id): seq<Fact>
    decreases |fs|
  {
    if fs == [] then []
    else Rows(fs[..|fs| - 1], id) + if fs[|fs| - 1].id == id then [fs[|fs| - 1]] else []
  }

  function MergeAll(rows: seq<Fact>): Fact
    requires rows != []
    decreases |rows|
  {
    if |rows| == 1 then rows[0] else MergeFact(MergeAll(rows[..|rows| - 1]), rows[|rows| - 1])
  }

  /** A fold of facts holds, of each request, its rows merged. */
  lemma {:induction false} FoldedIsMerged(fs: seq<Fact>, id: Id)
    requires !Deepwork(id) && AbsorbAll(map[], fs).Ok?
    ensures var m := AbsorbAll(map[], fs).value;
            (id in m <==> Rows(fs, id) != []) && (id in m ==> m[id] == MergeAll(Rows(fs, id)))
    decreases |fs|
  {
    hide MergeFact, Deepwork, SameFact;
    if fs != [] {
      FoldedIsMerged(fs[..|fs| - 1], id);
      var rows, f := Rows(fs[..|fs| - 1], id), fs[|fs| - 1];
      MergeMore(rows, f);
      assert Rows(fs, id) == if f.id == id then rows + [f] else rows;
    }
  }

  lemma MergeMore(rows: seq<Fact>, f: Fact)
    ensures MergeAll(rows + [f]) == if rows == [] then f else MergeFact(MergeAll(rows), f)
  {
    hide MergeFact;
    assert (rows + [f])[..|rows|] == rows;
  }

  ghost predicate Most(xs: seq<int>, v: int) {
    v in xs && forall x :: x in xs ==> x <= v
  }

  ghost predicate LastTime(xs: seq<Option<Time>>, v: Option<Time>) {
    v in xs && forall x :: x in xs && x.Some? ==> v.Some? && x.value <= v.value
  }

  ghost predicate FirstTime(xs: seq<Option<Time>>, v: Option<Time>) {
    v in xs && forall x :: x in xs && x.Some? ==> v.Some? && v.value <= x.value
  }

  ghost predicate FirstSaid(xs: seq<string>, v: string) {
    exists k :: 0 <= k < |xs| && xs[k] == v && (forall j :: 0 <= j < k ==> xs[j] == "") && (v == "" ==> k == |xs| - 1)
  }

  predicate AtLeast(a: Coverage, b: Coverage) {
    match b
    case Unknown => true
    case Missing => a != Unknown
    case Partial => a == Partial || a == Complete
    case Complete => a == Complete
  }

  lemma AtLeastOrder(a: Coverage, b: Coverage, c: Coverage)
    ensures AtLeast(a, a) && (AtLeast(a, b) || AtLeast(b, a)) && (AtLeast(a, b) && AtLeast(b, c) ==> AtLeast(a, c))
  {
  }

  lemma StrongerTells(a: Coverage, b: Coverage)
    ensures Stronger(a, b) == if AtLeast(a, b) then a else b
  {
  }

  ghost predicate Strongest(xs: seq<Coverage>, v: Coverage) {
    v in xs && forall x :: x in xs ==> AtLeast(v, x)
  }

  function Column<T>(rows: seq<Fact>, f: Fact -> T): seq<T> {
    seq(|rows|, i requires 0 <= i < |rows| => f(rows[i]))
  }

  lemma ColumnMore<T>(rows: seq<Fact>, f: Fact -> T)
    requires rows != []
    ensures Column(rows, f) == Column(rows[..|rows| - 1], f) + [f(rows[|rows| - 1])]
  {
  }

  lemma {:induction false} MostOf(rows: seq<Fact>, f: Fact -> int)
    requires rows != []
    requires forall a: Fact, b: Fact :: f(MergeFact(a, b)) == if f(a) < f(b) then f(b) else f(a)
    ensures Most(Column(rows, f), f(MergeAll(rows)))
    decreases |rows|
  {
    hide MergeFact;
    if |rows| == 1 {
      assert Column(rows, f) == [f(rows[0])];
    } else {
      MostOf(rows[..|rows| - 1], f);
      ColumnMore(rows, f);
    }
  }

  lemma {:induction false} LastTimeOf(rows: seq<Fact>, f: Fact -> Option<Time>)
    requires rows != []
    requires forall a: Fact, b: Fact :: f(MergeFact(a, b)) ==
               if f(b).Some? && (f(a).Some? ==> f(a).value < f(b).value) then f(b) else f(a)
    ensures LastTime(Column(rows, f), f(MergeAll(rows)))
    decreases |rows|
  {
    hide MergeFact;
    if |rows| == 1 {
      assert Column(rows, f) == [f(rows[0])];
    } else {
      LastTimeOf(rows[..|rows| - 1], f);
      ColumnMore(rows, f);
    }
  }

  predicate Revoked(rows: seq<Fact>) {
    exists i :: 0 <= i < |rows| && rows[i].invalidated
  }

  lemma {:induction false} RevokedOnce(rows: seq<Fact>)
    requires rows != []
    ensures MergeAll(rows).invalidated <==> Revoked(rows)
    ensures Revoked(rows) && |rows| > 1 ==>
              MergeAll(rows).started == MergeAll(rows).firstToken == None && MergeAll(rows).covers.timing == Missing
    decreases |rows|
  {
    hide MergeTexts, MergeTokens, MergeCovers, AppendUnique, Earliest, Latest;
    if |rows| > 1 {
      var k := |rows| - 1;
      RevokedOnce(rows[..k]);
      assert forall i :: 0 <= i < k ==> rows[..k][i] == rows[i];
    }
  }

  lemma Unrevoked(rows: seq<Fact>)
    requires |rows| > 1 && !Revoked(rows)
    ensures !Revoked(rows[..|rows| - 1])
  {
    var k := |rows| - 1;
    assert forall i :: 0 <= i < k ==> rows[..k][i] == rows[i];
  }

  lemma {:induction false} FirstTimeOf(rows: seq<Fact>, f: Fact -> Option<Time>)
    requires rows != [] && !Revoked(rows)
    requires forall a: Fact, b: Fact :: !a.invalidated && !b.invalidated ==>
               f(MergeFact(a, b)) == if f(b).Some? && (f(a).Some? ==> f(b).value < f(a).value) then f(b) else f(a)
    ensures FirstTime(Column(rows, f), f(MergeAll(rows)))
    decreases |rows|
  {
    hide MergeFact;
    if |rows| == 1 {
      assert Column(rows, f) == [f(rows[0])];
    } else {
      Unrevoked(rows);
      FirstTimeOf(rows[..|rows| - 1], f);
      RevokedOnce(rows[..|rows| - 1]);
      ColumnMore(rows, f);
    }
  }

  lemma {:induction false} FirstSeenOf(rows: seq<Fact>, f: Fact -> Option<Time>)
    requires rows != []
    requires forall a: Fact, b: Fact :: f(MergeFact(a, b)) ==
               if f(b).Some? && (f(a).Some? ==> f(b).value < f(a).value) then f(b) else f(a)
    ensures FirstTime(Column(rows, f), f(MergeAll(rows)))
    decreases |rows|
  {
    hide MergeFact;
    if |rows| == 1 {
      assert Column(rows, f) == [f(rows[0])];
    } else {
      FirstSeenOf(rows[..|rows| - 1], f);
      ColumnMore(rows, f);
    }
  }

  lemma {:induction false} FirstSaidOf(rows: seq<Fact>, f: Fact -> string)
    requires rows != []
    requires forall a: Fact, b: Fact :: f(MergeFact(a, b)) == if f(a) == "" then f(b) else f(a)
    ensures FirstSaid(Column(rows, f), f(MergeAll(rows)))
    decreases |rows|
  {
    hide MergeFact;
    var xs, v := Column(rows, f), f(MergeAll(rows));
    if |rows| == 1 {
      assert xs == [f(rows[0])];
      assert xs[0] == v;
    } else {
      var n := |rows| - 1;
      FirstSaidOf(rows[..n], f);
      ColumnMore(rows, f);
      var ys, u := Column(rows[..n], f), f(MergeAll(rows[..n]));
      var k :| 0 <= k < |ys| && ys[k] == u && (forall j :: 0 <= j < k ==> ys[j] == "") && (u == "" ==> k == |ys| - 1);
      if u == "" {
        assert xs[n] == v && forall j :: 0 <= j < n ==> xs[j] == ys[j] == "";
      } else {
        assert xs[k] == v && forall j :: 0 <= j < k ==> xs[j] == ys[j];
      }
    }
  }

  lemma {:induction false} StrongestOf(rows: seq<Fact>, f: Fact -> Coverage, timing: bool)
    requires rows != [] && (timing ==> !Revoked(rows))
    requires forall a: Fact, b: Fact :: (timing ==> !a.invalidated && !b.invalidated) ==>
               f(MergeFact(a, b)) == Stronger(f(a), f(b))
    ensures Strongest(Column(rows, f), f(MergeAll(rows)))
    decreases |rows|
  {
    hide MergeFact, AtLeast, Stronger, Revoked;
    var xs, v := Column(rows, f), f(MergeAll(rows));
    if |rows| == 1 {
      assert xs == [v];
      AtLeastOrder(v, v, v);
    } else {
      var k := |rows| - 1;
      if timing {
        Unrevoked(rows);
        LastUnrevoked(rows);
      }
      StrongestOf(rows[..k], f, timing);
      RevokedOnce(rows[..k]);
      ColumnMore(rows, f);
      OneMore(Column(rows[..k], f), f(MergeAll(rows[..k])), f(rows[k]));
    }
  }

  lemma LastUnrevoked(rows: seq<Fact>)
    requires rows != [] && !Revoked(rows)
    ensures !rows[|rows| - 1].invalidated
  {
  }

  lemma OneMore(xs: seq<Coverage>, v: Coverage, x: Coverage)
    requires Strongest(xs, v)
    ensures Strongest(xs + [x], Stronger(v, x))
  {
    hide AtLeast, Stronger;
    StrongerTells(v, x);
    AtLeastOrder(v, x, x);
    AtLeastOrder(x, x, x);
    forall y | y in xs
      ensures AtLeast(Stronger(v, x), y)
    {
      AtLeastOrder(x, v, y);
    }
  }

  /** Token counts are the most any row has said. */
  lemma TokensTogether(rows: seq<Fact>)
    requires rows != []
    ensures var t := MergeAll(rows).tokens;
            && Most(Column(rows, (r: Fact) => r.tokens.input), t.input)
            && Most(Column(rows, (r: Fact) => r.tokens.cached), t.cached)
            && Most(Column(rows, (r: Fact) => r.tokens.write5m), t.write5m)
            && Most(Column(rows, (r: Fact) => r.tokens.write1h), t.write1h)
            && Most(Column(rows, (r: Fact) => r.tokens.writeUnknown), t.writeUnknown)
            && Most(Column(rows, (r: Fact) => r.tokens.output), t.output)
            && Most(Column(rows, (r: Fact) => r.tokens.reasoning), t.reasoning)
            && Most(Column(rows, (r: Fact) => r.tokens.raw), t.raw)
  {
    hide Most, Column, MergeAll, MergeTexts, MergeCovers, AppendUnique, Earliest, Latest;
    MostOf(rows, (r: Fact) => r.tokens.input);
    MostOf(rows, (r: Fact) => r.tokens.cached);
    MostOf(rows, (r: Fact) => r.tokens.write5m);
    MostOf(rows, (r: Fact) => r.tokens.write1h);
    MostOf(rows, (r: Fact) => r.tokens.writeUnknown);
    MostOf(rows, (r: Fact) => r.tokens.output);
    MostOf(rows, (r: Fact) => r.tokens.reasoning);
    MostOf(rows, (r: Fact) => r.tokens.raw);
  }

  /** It ended when the last row says, and was first seen when the earliest does; unless a row has revoked its
      timing it started, and gave its first token, when the earliest says, and if one of several has, never. */
  lemma TimesTogether(rows: seq<Fact>)
    requires rows != []
    ensures var m := MergeAll(rows);
            && LastTime(Column(rows, (r: Fact) => r.ended), m.ended)
            && FirstTime(Column(rows, (r: Fact) => r.firstObserved), m.firstObserved)
            && FirstTime(Column(rows, (r: Fact) => if r.at == 0 then None else Some(r.at)), if m.at == 0 then None else Some(m.at))
            && (!Revoked(rows) ==>
                  && FirstTime(Column(rows, (r: Fact) => r.started), m.started)
                  && FirstTime(Column(rows, (r: Fact) => r.firstToken), m.firstToken))
            && (Revoked(rows) && |rows| > 1 ==> m.started == m.firstToken == None)
  {
    hide LastTime, FirstTime, Column, MergeAll, MergeTexts, MergeCovers, AppendUnique, MergeTokens, Revoked;
    LastTimeOf(rows, (r: Fact) => r.ended);
    FirstSeenOf(rows, (r: Fact) => r.firstObserved);
    FirstSeenOf(rows, (r: Fact) => if r.at == 0 then None else Some(r.at));
    RevokedOnce(rows);
    if !Revoked(rows) {
      FirstTimeOf(rows, (r: Fact) => r.started);
      FirstTimeOf(rows, (r: Fact) => r.firstToken);
    }
  }

  /** Every text is the first one that was said. */
  lemma TextsTogether(rows: seq<Fact>)
    requires rows != []
    ensures var t := MergeAll(rows).texts;
            && FirstSaid(Column(rows, (r: Fact) => r.texts.model), t.model)
            && FirstSaid(Column(rows, (r: Fact) => r.texts.effort), t.effort)
            && FirstSaid(Column(rows, (r: Fact) => r.texts.tier), t.tier)
            && FirstSaid(Column(rows, (r: Fact) => r.texts.billing), t.billing)
            && FirstSaid(Column(rows, (r: Fact) => r.texts.auth), t.auth)
            && FirstSaid(Column(rows, (r: Fact) => r.texts.geo), t.geo)
            && FirstSaid(Column(rows, (r: Fact) => r.texts.speed), t.speed)
  {
    hide FirstSaid, Column, MergeAll, MergeTokens, MergeCovers, AppendUnique, Earliest, Latest;
    FirstSaidOf(rows, (r: Fact) => r.texts.model);
    FirstSaidOf(rows, (r: Fact) => r.texts.effort);
    FirstSaidOf(rows, (r: Fact) => r.texts.tier);
    FirstSaidOf(rows, (r: Fact) => r.texts.billing);
    FirstSaidOf(rows, (r: Fact) => r.texts.auth);
    FirstSaidOf(rows, (r: Fact) => r.texts.geo);
    FirstSaidOf(rows, (r: Fact) => r.texts.speed);
  }

  /** Every coverage is the strongest of any row, that of revoked timing excepted. */
  lemma CoversTogether(rows: seq<Fact>)
    requires rows != []
    ensures var c := MergeAll(rows).covers;
            && Strongest(Column(rows, (r: Fact) => r.covers.identity), c.identity)
            && Strongest(Column(rows, (r: Fact) => r.covers.model), c.model)
            && Strongest(Column(rows, (r: Fact) => r.covers.tokens), c.tokens)
            && Strongest(Column(rows, (r: Fact) => r.covers.effort), c.effort)
            && Strongest(Column(rows, (r: Fact) => r.covers.tier), c.tier)
            && Strongest(Column(rows, (r: Fact) => r.covers.billing), c.billing)
            && Strongest(Column(rows, (r: Fact) => r.covers.cacheTtl), c.cacheTtl)
            && (!Revoked(rows) ==> Strongest(Column(rows, (r: Fact) => r.covers.timing), c.timing))
            && (Revoked(rows) && |rows| > 1 ==> c.timing == Missing)
  {
    hide Strongest, Stronger, Column, MergeAll, MergeTokens, MergeTexts, AppendUnique, Earliest, Latest, Revoked;
    StrongestOf(rows, (r: Fact) => r.covers.identity, false);
    StrongestOf(rows, (r: Fact) => r.covers.model, false);
    StrongestOf(rows, (r: Fact) => r.covers.tokens, false);
    StrongestOf(rows, (r: Fact) => r.covers.effort, false);
    StrongestOf(rows, (r: Fact) => r.covers.tier, false);
    StrongestOf(rows, (r: Fact) => r.covers.billing, false);
    StrongestOf(rows, (r: Fact) => r.covers.cacheTtl, false);
    RevokedOnce(rows);
    if !Revoked(rows) {
      StrongestOf(rows, (r: Fact) => r.covers.timing, true);
    }
  }

  /** Diagnostics are those of every row, each once where no row repeats one, in the order they were first
      given. */
  lemma {:induction false} DiagnosticsTogether(rows: seq<Fact>)
    requires rows != []
    ensures var ds := MergeAll(rows).diagnostics;
            && rows[0].diagnostics <= ds
            && (forall d :: d in ds <==> exists i :: 0 <= i < |rows| && d in rows[i].diagnostics)
            && (NoTwice(rows[0].diagnostics) ==> NoTwice(ds))
    decreases |rows|
  {
    hide AppendUnique, MergeTokens, MergeTexts, MergeCovers, Earliest, Latest, NoTwice;
    if |rows| > 1 {
      var k := |rows| - 1;
      DiagnosticsTogether(rows[..k]);
      Appended(MergeAll(rows[..k]).diagnostics, rows[k].diagnostics);
      assert forall i :: 0 <= i < k ==> rows[..k][i] == rows[i];
      assert forall d :: d in MergeAll(rows).diagnostics <==>
               d in rows[k].diagnostics || exists i :: 0 <= i < k && d in rows[i].diagnostics;
    }
  }

  predicate NoTwice(s: seq<string>) {
    forall i, j :: 0 <= i < j < |s| ==> s[i] != s[j]
  }

  lemma {:induction false} Appended(s: seq<string>, more: seq<string>)
    ensures var r := AppendUnique(s, more);
            && s <= r && (NoTwice(s) ==> NoTwice(r))
            && forall d :: d in r <==> d in s || d in more
    decreases |more|
  {
    if more != [] {
      Appended(if more[0] in s then s else s + [more[0]], more[1..]);
    }
  }

  /** The same report of a request, however its times have shifted: as long, and alike in all that is not a
      time. */
  ghost predicate Agree(a: Fact, b: Fact) {
    && (a.started.Some? && a.ended.Some? <==> b.started.Some? && b.ended.Some?)
    && (a.started.Some? && a.ended.Some? && b.started.Some? && b.ended.Some? ==>
          a.ended.value - a.started.value == b.ended.value - b.started.value)
    && a.id == b.id && a.texts == b.texts && a.tokens == b.tokens && a.covers == b.covers
    && a.diagnostics == b.diagnostics && a.invalidated == b.invalidated && a.fixed == b.fixed
  }

  /** A fact of Deepwork's own is never merged: reported again it stays as it was, and one that does not agree
      is a conflict. */
  lemma OwnFacts(m: map<Id, Fact>, f: Fact)
    requires f.id in m && "deepwork:" <= f.id
    ensures Absorb(m, f) == if Agree(m[f.id], f) then Ok(m) else Conflict(f.id)
  {
  }
}
