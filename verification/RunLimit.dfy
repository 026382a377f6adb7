/**
 * The key limit on runs of the protocol. The 45 puts of `CapacityLimit` are a run of it, with every tree in pages of its
 * own, and where that run ends a commit would meet a node that does not fit.
 */
module RunLimit {
  import opened Bytes
  import opened SortedList
  import opened BTree
  import opened BTreePut
  import opened Pages
  import opened PagerFile
  import opened TreePut
  import opened Protocol
  import opened Txn
  import opened PageFit
  import opened Capacity
  import CapacityLimit
  import Race

  // ----- placing a small tree on pages `n` onwards -----

  ghost predicate InlineLeaf(t: Tree) {
    t.Leaf? && |t.keys| == |t.vals| && forall i :: 0 <= i < |t.vals| ==> |t.vals[i]| <= INLINE_VALUE_LIMIT
  }

  /** Nothing, a leaf, or a node over leaves, without overflow chains. */
  ghost predicate Flat(r: Root) {
    match r
    case Empty => true
    case Rooted(Leaf(keys, vals), h) => h == 0 && InlineLeaf(r.tree)
    case Rooted(Node(keys, children), h) => h == 1 && forall i :: 0 <= i < |children| ==> InlineLeaf(children[i])
  }

  ghost function PlantLeaf(t: Tree, n: PageId): Located
    requires InlineLeaf(t)
  {
    AtLeaf(n, t.keys, seq(|t.vals|, i requires 0 <= i < |t.vals| => Val(t.vals[i], [])))
  }

  ghost function PlantAll(f: seq<Tree>, n: PageId): (g: seq<Located>)
    requires forall i :: 0 <= i < |f| ==> InlineLeaf(f[i])
    ensures |g| == |f|
  {
    seq(|f|, i requires 0 <= i < |f| => PlantLeaf(f[i], n + i))
  }

  ghost function Plant(r: Root, n: PageId): LocatedRoot
    requires Flat(r)
  {
    match r
    case Empty => NoTree
    case Rooted(t, h) => Planted(if t.Leaf? then PlantLeaf(t, n) else AtNode(n, t.keys, PlantAll(t.children, n + 1)), h)
  }

  function Count(r: Root): nat {
    match r
    case Empty => 0
    case Rooted(Leaf(_, _), _) => 1
    case Rooted(Node(_, children), _) => 1 + |children|
  }

  function Range(a: nat, b: nat): seq<PageId>
    requires a <= b
  {
    seq(b - a, i requires 0 <= i < b - a => a + i)
  }

  lemma RangeMembers(a: nat, b: nat)
    requires a <= b
    ensures forall p: PageId :: p in Range(a, b) <==> a <= p < b
  {
    forall p: PageId | a <= p < b ensures p in Range(a, b) {
      assert Range(a, b)[p - a] == p;
    }
  }

  lemma RangeLast(a: nat, b: nat)
    requires a < b
    ensures Range(a, b) == Range(a, b - 1) + [b - 1]
  {
  }

  lemma {:induction false} RangeIsSpan(a: nat, b: nat)
    requires a <= b
    ensures multiset(Range(a, b)) == Span(a, b)
    decreases b
  {
    if a < b {
      hide Range;
      RangeLast(a, b);
      RangeIsSpan(a, b - 1);
    }
  }

  ghost function NodeOn(r: Root, n: PageId, p: PageId): TreeNode
    requires Flat(r) && n <= p < n + Count(r)
  {
    NodeOf(if p == n then Plant(r, n).d else Plant(r, n).d.children[p - n - 1])
  }

  /** The overlay that holds just this tree. */
  ghost function Images(r: Root, n: PageId): Overlay
    requires Flat(r)
  {
    map p: PageId | p in Range(n, n + Count(r)) :: NodeOn(r, n, p)
  }

  lemma LeafPlanted(t: Tree, n: PageId)
    requires InlineLeaf(t)
    ensures Erase(PlantLeaf(t, n)) == t && Ids(PlantLeaf(t, n)) == multiset{n}
  {
    var vals := PlantLeaf(t, n).vals;
    assert ValBytes(vals) == t.vals;
    NoChains(vals);
  }

  lemma {:induction false} NoChains(vals: seq<Val>)
    requires forall i :: 0 <= i < |vals| ==> vals[i].chain == []
    ensures ValIds(vals) == multiset{}
  {
    if vals != [] {
      NoChains(vals[1..]);
    }
  }

  lemma AllErased(f: seq<Tree>, n: PageId)
    requires forall i :: 0 <= i < |f| ==> InlineLeaf(f[i])
    ensures EraseAll(PlantAll(f, n)) == f
  {
    hide InlineLeaf, Erase, PlantLeaf;
    forall i | 0 <= i < |f| ensures EraseAll(PlantAll(f, n))[i] == f[i] {
      LeafPlanted(f[i], n + i);
    }
  }

  lemma PlantTail(f: seq<Tree>, n: PageId)
    requires f != [] && forall i :: 0 <= i < |f| ==> InlineLeaf(f[i])
    ensures PlantAll(f, n) != [] && PlantAll(f, n)[0] == PlantLeaf(f[0], n) && PlantAll(f, n)[1..] == PlantAll(f[1..], n + 1)
  {
    hide InlineLeaf, PlantLeaf;
  }

  lemma {:induction false} AllCounted(f: seq<Tree>, n: PageId)
    requires forall i :: 0 <= i < |f| ==> InlineLeaf(f[i])
    ensures ForestIds(PlantAll(f, n)) == Span(n, n + |f|)
  {
    hide *;
    ForestIdsUnfold(PlantAll(f, n));
    if f == [] {
      NoSpan(n);
    } else {
      PlantTail(f, n);
      AllCounted(f[1..], n + 1);
      LeafPlanted(f[0], n);
      NoSpan(n);
      SpanSplit(n, n + 1, n + |f|);
    }
  }

  lemma NoSpan(n: nat)
    ensures Span(n, n) == multiset{} && Span(n, n + 1) == multiset{n}
  {
  }

  /** The placed tree is the tree, in pages `n` onwards, once each. */
  lemma IsPlanted(r: Root, n: PageId)
    requires Flat(r)
    ensures Plant(r, n).Abstract() == r && Plant(r, n).Owned() == Span(n, n + Count(r))
  {
    hide PlantLeaf, PlantAll;
    if r.Rooted? {
      if r.tree.Leaf? {
        LeafPlanted(r.tree, n);
        hide Ids, Erase;
      } else {
        AllErased(r.tree.children, n + 1);
        AllCounted(r.tree.children, n + 1);
        SpanSplit(n, n + 1, n + Count(r));
        hide InlineLeaf, ForestIds, EraseAll;
      }
    }
  }

  lemma PlantedHere(r: Root, n: PageId, w: Work, base: iset<PageId>)
    requires Flat(r) && w.overlay == Images(r, n)
    ensures Plant(r, n).Here(w, base)
  {
    hide Range;
    RangeMembers(n, n + Count(r));
    if r.Rooted? {
      assert n in w.overlay;
      if r.tree.Node? {
        var g := Plant(r, n).d.children;
        forall i | 0 <= i < |g| ensures At(g[i], w, base) {
          assert n + 1 + i in w.overlay;
        }
      }
    }
  }

  // ----- one operation -----

  /** A writer on the new store whose tree, `r`, is in pages `n` onwards, with all pages before that in the scratch pool. */
  ghost predicate Growing(x: Work, r: Root, n: PageId) {
    && 2 <= n && Flat(r) && x == Work(map[], {}, Images(r, n), n + Count(r), [], [], Range(2, n))
  }

  lemma GrowingPools(x: Work, r: Root, n: PageId)
    requires Growing(x, r, n)
    ensures Pools(x) == Span(2, n) && x.disk == map[] && x.unsynced == {} && x.free == [] && x.next == n + Count(r) && 2 <= n
    ensures forall p: PageId :: p in x.scratch ==> 2 <= p < n
    ensures forall p: PageId :: p in x.overlay <==> n <= p < x.next
  {
    hide Range, NodeOn, Count;
    RangeIsSpan(2, n);
    RangeMembers(2, n);
    RangeMembers(n, n + Count(r));
    assert FreeIds(x.free) == [];
  }

  lemma IsFlat(x: Work, r: Root, n: PageId)
    requires Growing(x, r, n)
    ensures Flat(r)
  {
  }

  lemma FreshMoves(x: Work, n: PageId, x': Work, ours: iset<PageId>)
    requires 2 <= n <= x.next <= x'.next && x.disk == x'.disk == map[] && x.unsynced == x'.unsynced == {} && x.free == x'.free == []
    requires Pools(x) == Span(2, n) && Pools(x') == Span(2, x.next)
    requires forall p: PageId :: p in x.overlay <==> n <= p < x.next
    requires forall p: PageId :: p in x'.overlay <==> x.next <= p < x'.next
    requires forall p: PageId :: p in x'.scratch ==> 2 <= p
    requires forall p: PageId :: p >= 2 ==> p in ours
    ensures Moved(x, Span(n, x.next), x', Span(x.next, x'.next), ours, U64_MAX)
  {
    hide Pools, Span;
    SpanSplit(2, n, x.next);
    forall p: PageId | p < x.next && p !in Span(n, x.next) && p !in Pools(x) ensures SameAt(x, x', p) {
    }
  }

  lemma GrowingMoves(x: Work, r: Root, n: PageId, x': Work, r': Root, ours: iset<PageId>)
    requires Growing(x, r, n) && Growing(x', r', n + Count(r))
    requires forall p: PageId :: p >= 2 ==> p in ours
    ensures Moved(x, Plant(r, n).Owned(), x', Plant(r', n + Count(r)).Owned(), ours, U64_MAX)
  {
    hide *;
    IsFlat(x, r, n);
    IsFlat(x', r', n + Count(r));
    IsPlanted(r, n);
    IsPlanted(r', n + Count(r));
    GrowingPools(x, r, n);
    GrowingPools(x', r', n + Count(r));
    FreshMoves(x, n, x', ours);
  }

  /** A run up to a writer that has put the tree `r` into an empty store. */
  ghost predicate HasPut(run: seq<Sys>, r: Root, n: PageId) {
    && IsRun(run) && Flat(r)
    && var s := Last(run);
       && s.now == Race.V0() && s.file.pages == map[] && s.file.unsynced == {} && s.writer.Some?
       && var w := s.writer.value;
          w == Writer(w.work, Plant(r, n), U64_MAX, Writing) && Growing(w.work, r, n)
  }

  lemma OneOp(run: seq<Sys>, r: Root, n: PageId, k: Key, v: Bytes, least: nat, most: nat) returns (run': seq<Sys>)
    requires HasPut(run, r, n) && RunWithin(run, least, most) && RootValid(r) && RootShape(r) && least <= |k| <= most
    requires Flat(BTreePut.Put(r, k, v)) && RootValid(BTreePut.Put(r, k, v))
    ensures HasPut(run', BTreePut.Put(r, k, v), n + Count(r)) && RunWithin(run', least, most)
  {
    hide *;
    var m, r' := n + Count(r), BTreePut.Put(r, k, v);
    HasPutParts(run, r, n);
    var s := Last(run);
    var x := Work(map[], {}, Images(r', m), m + Count(r'), [], [], Range(2, m));
    IsGrowing(x, r', m);
    PlantedHere(r', m, x, BaseOf(s.now));
    EverythingIsOurs();
    GrowingMoves(s.writer.value.work, r, n, x, r', OursOf(s.now, U64_MAX));
    PlantedOp(r, n, k, v, m, least, most);
    var s' := ChangedSys(s, x, Plant(r', m));
    ChangedParts(s, s', x, r', m);
    ChangeIsNext(s, s', x, Plant(r', m));
    ExtendRun(run, s');
    run' := run + [s'];
    StepIsOp(s, s', least, most);
    ExtendWithin(run, s', least, most);
    NowHasPut(run', r', m);
  }

  lemma HasPutParts(run: seq<Sys>, r: Root, n: PageId)
    requires HasPut(run, r, n)
    ensures |run| > 0 && IsRun(run) && Flat(r) && 2 <= n
    ensures var s := Last(run);
      && s.now == Race.V0() && s.file.pages == map[] && s.file.unsynced == {} && s.writer.Some?
      && s.writer.value == Writer(s.writer.value.work, Plant(r, n), U64_MAX, Writing) && Growing(s.writer.value.work, r, n)
  {
    hide IsRun, Plant;
    assert |run| > 0 by { RunNotEmpty(run); }
  }

  lemma NowHasPut(run: seq<Sys>, r: Root, n: PageId)
    requires |run| > 0 && IsRun(run) && Flat(r)
    requires var s := Last(run);
      && s.now == Race.V0() && s.file.pages == map[] && s.file.unsynced == {} && s.writer.Some?
      && s.writer.value == Writer(s.writer.value.work, Plant(r, n), U64_MAX, Writing) && Growing(s.writer.value.work, r, n)
    ensures HasPut(run, r, n)
  {
    hide IsRun, Plant, Growing, Race.V0;
  }

  lemma IsGrowing(x: Work, r: Root, n: PageId)
    requires 2 <= n && Flat(r) && x == Work(map[], {}, Images(r, n), n + Count(r), [], [], Range(2, n))
    ensures Growing(x, r, n) && x.disk == map[] && x.unsynced == {} && x.overlay == Images(r, n)
  {
  }

  lemma PlantedOp(r: Root, n: PageId, k: Key, v: Bytes, m: PageId, least: nat, most: nat)
    requires Flat(r) && RootValid(r) && RootShape(r) && least <= |k| <= most
    requires Flat(BTreePut.Put(r, k, v)) && RootValid(BTreePut.Put(r, k, v))
    ensures OpWithin(Plant(r, n), Plant(BTreePut.Put(r, k, v), m), least, most) && Plant(BTreePut.Put(r, k, v), m).Sound()
    ensures Plant(r, n).Trimmed() ==> Plant(BTreePut.Put(r, k, v), m).Trimmed()
  {
    hide BTreePut.Put, Plant, Valid, Erase;
    IsPlanted(r, n);
    IsPlanted(BTreePut.Put(r, k, v), m);
    PutTrims(Plant(r, n), k, v);
  }

  lemma ChangedParts(s: Sys, s': Sys, x: Work, r: Root, n: PageId)
    requires s.writer.Some? && Flat(r) && s' == ChangedSys(s, x, Plant(r, n)) && s.writer.value.stage.Writing? && x.disk == map[] && x.unsynced == {}
    ensures s'.now == s.now && s'.file.pages == map[] && s'.file.unsynced == {} && s'.writer.Some?
    ensures s'.writer.value == Writer(x, Plant(r, n), s.writer.value.mark, Writing)
  {
    hide Plant;
  }

  lemma StepIsOp(s: Sys, s': Sys, least: nat, most: nat)
    requires s.writer.Some? && s'.writer.Some? && OpWithin(s.writer.value.tree, s'.writer.value.tree, least, most)
    ensures StepWithin(s, s', least, most)
  {
    hide Change, OpWithin;
  }

  lemma EverythingIsOurs()
    ensures forall p: PageId :: p >= 2 ==> p in OursOf(Race.V0(), U64_MAX)
  {
  }

  lemma ExtendWithin(run: seq<Sys>, s: Sys, least: nat, most: nat)
    requires |run| > 0 && RunWithin(run, least, most) && StepWithin(Last(run), s, least, most)
    ensures RunWithin(run + [s], least, most)
  {
    hide StepWithin;
    var run' := run + [s];
    forall i | 0 <= i < |run'| - 1 ensures StepWithin(run'[i], run'[i + 1], least, most) {
      if i == |run| - 1 {
        assert run'[i] == Last(run);
      }
    }
  }

  lemma HasBegun(least: nat, most: nat) returns (run: seq<Sys>)
    ensures HasPut(run, Empty, 2) && RunWithin(run, least, most)
  {
    hide IsRun, Next, Change, Growing, BeginWrite;
    var run0 := Race.Started();
    RunNotEmpty(run0);
    var s := Last(run0);
    var x := Work(map[], {}, map[], 2, [], [], []);
    StartsGrowing(x);
    var s' := s.(writer := Some(Writer(x, NoTree, U64_MAX, Writing)), clones := Overtake(s.clones, 0, U64_MAX));
    BeginWriteIsNext(s, s');
    ExtendRun(run0, s');
    if Change(s, s') { WritingChange(s, s'); }
    ExtendWithin(run0, s', least, most);
    run := run0 + [s'];
    NowHasPut(run, Empty, 2);
  }

  lemma StartsGrowing(x: Work)
    requires x == Work(map[], {}, map[], 2, [], [], [])
    ensures Growing(x, Empty, 2)
  {
    RangeMembers(2, 2);
    assert Range(2, 2) == [];
  }

  // ----- the run that overflows -----

  lemma PartInline(ks: Keyspace, a: nat, b: nat)
    requires a <= b <= CapacityLimit.RECORDS
    ensures InlineLeaf(CapacityLimit.Part(ks, a, b))
  {
    var vals := CapacityLimit.ValsFrom(ks, a, b);
    forall i | 0 <= i < |vals| ensures |vals[i]| <= INLINE_VALUE_LIMIT {
      assert vals[i] == CapacityLimit.V(ks, a + i);
    }
  }

  lemma FlatNode(seps: seq<Key>, leaves: seq<Tree>)
    requires forall t :: t in leaves ==> InlineLeaf(t)
    ensures Flat(Rooted(Node(seps, leaves), 1))
  {
  }

  lemma FlatLeaf(t: Tree)
    requires InlineLeaf(t)
    ensures Flat(Rooted(t, 0))
  {
  }

  lemma RunIsFlat(ks: Keyspace, m: nat)
    requires m <= CapacityLimit.RECORDS
    ensures Flat(Run(CapacityLimit.Puts(ks, m)))
  {
    hide *;
    CapacityLimit.RecordsIs();
    PartInline(ks, 0, 21);
    if m == 0 {
      NoRun(ks);
    } else if m <= 42 {
      CapacityLimit.Filling(ks, m);
      PartInline(ks, 0, m);
      FlatLeaf(CapacityLimit.Part(ks, 0, m));
    } else if m == 43 {
      CapacityLimit.FirstSplit(ks);
      PartInline(ks, 21, 43);
      FlatNode([CapacityLimit.K(ks, 21)], [CapacityLimit.Part(ks, 0, 21), CapacityLimit.Part(ks, 21, 43)]);
    } else if m == 44 {
      CapacityLimit.SecondSplit(ks);
      PartInline(ks, 21, 32);
      PartInline(ks, 32, 44);
      FlatNode(Run(CapacityLimit.Puts(ks, 44)).tree.keys, Run(CapacityLimit.Puts(ks, 44)).tree.children);
    } else {
      CapacityLimit.ThirdSplit(ks);
      PartInline(ks, 21, 32);
      PartInline(ks, 32, 38);
      PartInline(ks, 38, 45);
      FlatNode(Run(CapacityLimit.Puts(ks, 45)).tree.keys, Run(CapacityLimit.Puts(ks, 45)).tree.children);
    }
  }

  lemma NoRun(ks: Keyspace)
    ensures Run(CapacityLimit.Puts(ks, 0)) == Empty && Flat(Empty)
  {
  }

  lemma {:induction false} Realised(ks: Keyspace, m: nat) returns (run: seq<Sys>, n: PageId)
    requires m <= CapacityLimit.RECORDS
    ensures HasPut(run, Run(CapacityLimit.Puts(ks, m)), n) && RunWithin(run, ks.Least(), ks.Most() + 1)
  {
    hide *;
    if m == 0 {
      run := HasBegun(ks.Least(), ks.Most() + 1);
      n := 2;
      NoRun(ks);
    } else {
      var run0, n0 := Realised(ks, m - 1);
      RunIsFlat(ks, m);
      RunDenotesMap(CapacityLimit.Puts(ks, m - 1));
      RunDenotesMap(CapacityLimit.Puts(ks, m));
      CapacityLimit.PutsStep(ks, m);
      CapacityLimit.KeyLength(ks, m - 1);
      var r := Run(CapacityLimit.Puts(ks, m - 1));
      run := OneOp(run0, r, n0, CapacityLimit.K(ks, m - 1), CapacityLimit.V(ks, m - 1), ks.Least(), ks.Most() + 1);
      n := n0 + Count(r);
    }
  }

  lemma RunStagesOversized(ks: Keyspace) returns (run: seq<Sys>)
    ensures IsRun(run) && RunWithin(run, ks.Least(), ks.Most() + 1) && |run| > 0
    ensures Writes(Last(run)) && !AllFit(Last(run).writer.value.work.overlay)
  {
    hide IsRun, RunWithin, AllFit, RootFits, Run, CapacityLimit.Puts, Plant, Growing;
    var n;
    run, n := Realised(ks, CapacityLimit.RECORDS);
    CapacityLimit.RunOverflows(ks);
    IsPlanted(Run(CapacityLimit.Puts(ks, CapacityLimit.RECORDS)), n);
    RunNotEmpty(run);
    StagedFitIff(run, |run| - 1);
  }

  predicate Writes(s: Sys) {
    s.writer.Some? && s.writer.value.stage.Writing?
  }

  lemma WiderRun(run: seq<Sys>, least: nat, most: nat, more: nat)
    requires RunWithin(run, least, most) && most <= more
    ensures RunWithin(run, least, more)
  {
    hide Change;
    forall i | 0 <= i < |run| - 1 ensures StepWithin(run[i], run[i + 1], least, more) {
      assert StepWithin(run[i], run[i + 1], least, most);
      if Change(run[i], run[i + 1]) {
        WritingChange(run[i], run[i + 1]);
        WiderOp(run[i].writer.value.tree, run[i + 1].writer.value.tree, least, most, more);
      }
    }
  }

  lemma WiderOp(t: LocatedRoot, t': LocatedRoot, least: nat, most: nat, more: nat)
    requires OpWithin(t, t', least, most) && most <= more
    ensures OpWithin(t, t', least, more)
  {
  }

  /**
   * In every run of the protocol whose puts have keys of at most `limit` bytes, at every moment, all pages a commit would
   * flush pass the assertion of `encode_page`, if and only if `limit` is 75, or 113 where keys carry a file prefix.
   */
  lemma StagedFitIsExact(ks: Keyspace, limit: nat)
    ensures (forall run: seq<Sys>, i: nat :: IsRun(run) && RunWithin(run, ks.Least(), limit) && i < |run| && Writes(run[i]) ==>
               AllFit(run[i].writer.value.work.overlay)) <==> limit <= ks.Most()
  {
    hide IsRun, RunWithin, AllFit;
    if limit <= ks.Most() {
      forall run: seq<Sys>, i: nat | IsRun(run) && RunWithin(run, ks.Least(), limit) && i < |run| && Writes(run[i])
        ensures AllFit(run[i].writer.value.work.overlay)
      {
        WiderRun(run, ks.Least(), limit, ks.Most());
        StagedPagesFit(run, i, ks);
      }
    } else {
      var run := RunStagesOversized(ks);
      WiderRun(run, ks.Least(), ks.Most() + 1, limit);
      var i := |run| - 1;
      assert Writes(run[i]) && !AllFit(run[i].writer.value.work.overlay);
    }
  }
}
