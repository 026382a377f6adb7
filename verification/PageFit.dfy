/** From the size of nodes to the pages a commit writes: when `encode_page` panics, and that it does not for short keys. */
module PageFit {
  import opened Bytes
  import opened BTree
  import opened BTreePut
  import BTreeDelete
  import opened Pages
  import opened PagerFile
  import opened TreePut
  import opened TreeDelete
  import opened TreeRead
  import opened FreeList
  import opened Protocol
  import opened Capacity

  ghost predicate RoomyTree(t: LocatedRoot, ks: Keyspace) {
    t.Sound() && RootRoomy(t.Abstract(), ks)
  }

  /** Every tree ever committed, and the writer's, keeps its nodes within the byte bound. */
  ghost predicate AllRoomy(s: Sys, ks: Keyspace) {
    && RoomyTree(s.now.tree, ks) && (forall t :: 0 <= t < |s.hist| ==> RoomyTree(s.hist[t], ks))
    && (s.writer.Some? ==> RoomyTree(s.writer.value.tree, ks))
  }

  ghost predicate TreeFits(t: LocatedRoot) {
    t.Sound() && RootFits(t.Abstract())
  }

  /** Every tree ever committed has only nodes that fit, and so has the one a commit is about to publish. */
  ghost predicate AllCommittedFit(s: Sys) {
    && TreeFits(s.now.tree) && (forall t :: 0 <= t < |s.hist| ==> TreeFits(s.hist[t]))
    && (Committing(s) ==> TreeFits(s.writer.value.tree))
  }

  /** In a tree whose nodes fit, the page image of every node fits. */
  lemma {:induction false} NodesFit(d: Located, w: Work, base: iset<PageId>, h: nat, p: PageId)
    requires At(d, w, base) && Shape(Erase(d), h) && Fits(Erase(d), h) && p in NodeIds(d)
    ensures NodeAt(w, p).Some? && EncodedLen(NodeAt(w, p).value) <= PAGE_SIZE
    decreases d
  {
    if p == d.id {
      SizeAgrees(d, w, base, h);
    } else {
      var i :| 0 <= i < |d.children| && p in NodeIds(d.children[i]);
      assert EraseAll(d.children)[i] == Erase(d.children[i]);
      NodesFit(d.children[i], w, base, h - 1, p);
    }
  }

  lemma ChildAt(d: Located, w: Work, base: iset<PageId>, h: nat, i: nat)
    requires At(d, w, base) && Shape(Erase(d), h) && d.AtNode? && i < |d.children|
    ensures h > 0 && At(d.children[i], w, base) && EraseAll(d.children)[i] == Erase(d.children[i]) && Shape(Erase(d.children[i]), h - 1)
    ensures NodeIds(d.children[i]) <= NodeIds(d)
  {
    assert EraseAll(d.children)[i] == Erase(d.children[i]);
  }

  /** And if every node's page image fits, the tree fits. */
  lemma {:induction false} FitsByNodes(d: Located, w: Work, base: iset<PageId>, h: nat)
    requires At(d, w, base) && Shape(Erase(d), h)
    requires forall p: PageId :: p in NodeIds(d) && NodeAt(w, p).Some? ==> EncodedLen(NodeAt(w, p).value) <= PAGE_SIZE
    ensures Fits(Erase(d), h)
    decreases d
  {
    hide EncodedLen, Size, At, Shape, NodeIds, Fits;
    SizeAgrees(d, w, base, h);
    TopFits(d, w, base, h);
    if d.AtNode? {
      forall i | 0 <= i < |d.children| ensures Fits(EraseAll(d.children)[i], h - 1) {
        ChildAt(d, w, base, h, i);
        FitsByNodes(d.children[i], w, base, h - 1);
      }
      NodeFits(d, h);
    }
  }

  lemma TopFits(d: Located, w: Work, base: iset<PageId>, h: nat)
    requires At(d, w, base) && Shape(Erase(d), h)
    ensures d.id in NodeIds(d) && NodeAt(w, d.id) == Some(NodeOf(d)) && (d.AtNode? ==> h > 0 && (forall i :: 0 <= i < |d.children| ==> Shape(EraseAll(d.children)[i], h - 1)))
    ensures d.AtLeaf? ==> (Fits(Erase(d), h) <==> Size(Erase(d)) <= PAGE_SIZE)
  {
    hide Size, EncodedLen;
  }

  lemma NodeFits(d: Located, h: nat)
    requires Shape(Erase(d), h) && d.AtNode? && h > 0 && Size(Erase(d)) <= PAGE_SIZE
    requires forall i :: 0 <= i < |d.children| ==> Shape(EraseAll(d.children)[i], h - 1) && Fits(EraseAll(d.children)[i], h - 1)
    ensures Fits(Erase(d), h)
  {
    hide Size;
  }

  /** A committed tree that fits, and staged nodes that fit, make the writer's tree fit. */
  lemma StagedFits(s: Sys)
    requires Inv(s) && s.writer.Some? && s.writer.value.stage.Writing?
    requires TreeFits(s.now.tree) && AllFit(s.writer.value.work.overlay)
    ensures TreeFits(s.writer.value.tree)
  {
    hide Inv, At, Shape, Fits, EncodedLen, Balanced, Owns, Pools;
    var w := s.writer.value;
    WorkOfInv(s);
    CommittedOnDisk(s);
    if w.tree.Planted? {
      forall p: PageId | p in NodeIds(w.tree.d) && NodeAt(w.work, p).Some? ensures EncodedLen(NodeAt(w.work, p).value) <= PAGE_SIZE {
        NodesStagedOrBase(w.tree.d, w.work, BaseOf(s.now), p);
        if p !in w.work.overlay {
          assert p in s.now.tree.Nodes();
          NodesFit(s.now.tree.d, View(s.file.pages, map[]), Everywhere(), s.now.tree.height, p);
        }
      }
      FitsByNodes(w.tree.d, w.work, BaseOf(s.now), w.tree.height);
    }
  }

  lemma CommittedOnDisk(s: Sys)
    requires Inv(s)
    ensures OnDisk(s.now.tree, s.file.pages)
  {
  }

  /** A tree that fits stages only nodes that fit. */
  lemma FitsStaged(run: seq<Sys>, i: nat)
    requires IsRun(run) && i < |run| && run[i].writer.Some? && run[i].writer.value.stage.Writing?
    requires TreeFits(run[i].writer.value.tree)
    ensures AllFit(run[i].writer.value.work.overlay)
  {
    hide Inv, IsRun, Balanced, Owns, At, Shape, Fits, EncodedLen, Clear, Pools;
    RunInv(run, i);
    WorkOfInv(run[i]);
    var w := run[i].writer.value;
    forall p: PageId | p in w.work.overlay ensures EncodedLen(w.work.overlay[p]) <= PAGE_SIZE {
      CopyOnWriteExact(run, i, p);
      NodesFit(w.tree.d, w.work, BaseOf(run[i].now), w.tree.height, p);
    }
  }

  /** No step but a flush of nodes that fit makes a tree committed. */
  lemma StepFits(s: Sys, s': Sys)
    requires Inv(s) && Next(s, s') && AllCommittedFit(s)
    ensures AllCommittedFit(s')
  {
    hide Inv, Next, TreeFits, Change, WriteData;
    PendingTree(s);
    if Change(s, s') {
      ChangeKeeps(s, s');
      WritingChange(s, s');
    } else {
      StepTrees(s, s');
      if WriteData(s, s') {
        WriteDataTrees(s, s');
        StagedFits(s);
      }
    }
  }

  /** In every run, every committed tree has only nodes that fit. */
  lemma {:induction false} CommittedFits(run: seq<Sys>, i: nat)
    requires IsRun(run) && i < |run|
    ensures AllCommittedFit(run[i])
    decreases i
  {
    hide Init, Next, Inv, AllCommittedFit;
    if i == 0 {
      StartsFit(run[0]);
    } else {
      CommittedFits(run, i - 1);
      RunInv(run, i - 1);
      StepFits(run[i - 1], run[i]);
    }
  }

  lemma StartsFit(s: Sys)
    requires Init(s)
    ensures AllCommittedFit(s)
  {
  }

  /** The root of every tree ever committed, and of the writer's, has a key. */
  ghost predicate AllTrimmed(s: Sys) {
    && s.now.tree.Trimmed() && (forall t :: 0 <= t < |s.hist| ==> s.hist[t].Trimmed())
    && (s.writer.Some? ==> s.writer.value.tree.Trimmed())
  }

  lemma ChangeTrims(s: Sys, s': Sys)
    requires Change(s, s') && s.writer.value.tree.Trimmed()
    ensures s'.writer.Some? && s'.writer.value.tree.Trimmed()
  {
  }

  lemma StepTrims(s: Sys, s': Sys)
    requires Inv(s) && Next(s, s') && AllTrimmed(s)
    ensures AllTrimmed(s')
  {
    hide Inv, Next, Change, LocatedRoot.Trimmed;
    PendingTree(s);
    if Change(s, s') {
      ChangeKeeps(s, s');
      WritingChange(s, s');
      ChangeTrims(s, s');
    } else {
      StepTrees(s, s');
    }
  }

  /** In every run: no store ever has an empty leaf or a node with a single child at its root, however much was deleted. */
  lemma {:induction false} RunStaysTrimmed(run: seq<Sys>, i: nat)
    requires IsRun(run) && i < |run|
    ensures AllTrimmed(run[i])
    decreases i
  {
    hide Init, Next, Inv, AllTrimmed;
    if i == 0 {
      StartsTrimmed(run[0]);
    } else {
      RunStaysTrimmed(run, i - 1);
      RunInv(run, i - 1);
      StepTrims(run[i - 1], run[i]);
    }
  }

  lemma StartsTrimmed(s: Sys)
    requires Init(s)
    ensures AllTrimmed(s)
  {
  }

  /** At every moment of a run, the pages a commit would flush all fit if and only if every node of the writer's tree does. */
  lemma StagedFitIff(run: seq<Sys>, i: nat)
    requires IsRun(run) && i < |run| && run[i].writer.Some? && run[i].writer.value.stage.Writing?
    ensures AllFit(run[i].writer.value.work.overlay) <==> TreeFits(run[i].writer.value.tree)
  {
    hide IsRun, Inv, AllFit, TreeFits;
    CommittedFits(run, i);
    RunInv(run, i);
    if AllFit(run[i].writer.value.work.overlay) {
      StagedFits(run[i]);
    }
    if TreeFits(run[i].writer.value.tree) {
      FitsStaged(run, i);
    }
  }

  // ----- runs whose puts keep to a range of key lengths -----

  /** What a put with a key of such a length, a delete, or a step that leaves the tree alone makes of it. */
  ghost predicate OpWithin(t: LocatedRoot, t': LocatedRoot, least: nat, most: nat) {
    t.Sound() && t'.Sound() &&
    ( || t'.Abstract() == t.Abstract()
      || (exists key: Key, value :: least <= |key| <= most && t'.Abstract() == BTreePut.Put(t.Abstract(), key, value))
      || (exists key :: t'.Abstract() == BTreeDelete.Delete(t.Abstract(), key).0))
  }

  ghost predicate StepWithin(s: Sys, s': Sys, least: nat, most: nat) {
    Change(s, s') ==> OpWithin(s.writer.value.tree, s'.writer.value.tree, least, most)
  }

  ghost predicate RunWithin(run: seq<Sys>, least: nat, most: nat) {
    forall i :: 0 <= i < |run| - 1 ==> StepWithin(run[i], run[i + 1], least, most)
  }

  lemma OpRoomy(t: LocatedRoot, t': LocatedRoot, ks: Keyspace)
    requires RoomyTree(t, ks) && OpWithin(t, t', ks.Least(), ks.Most())
    ensures RoomyTree(t', ks)
  {
    hide RootRoomy;
    if t'.Abstract() != t.Abstract() {
      if key: Key, value :| ks.Least() <= |key| <= ks.Most() && t'.Abstract() == BTreePut.Put(t.Abstract(), key, value) {
        PutRoomy(t.Abstract(), key, value, ks);
      } else {
        var key :| t'.Abstract() == BTreeDelete.Delete(t.Abstract(), key).0;
        DeleteRoomy(t.Abstract(), key, ks);
      }
    }
  }

  lemma StepRoomy(s: Sys, s': Sys, ks: Keyspace)
    requires Inv(s) && Next(s, s') && StepWithin(s, s', ks.Least(), ks.Most()) && AllRoomy(s, ks)
    ensures AllRoomy(s', ks)
  {
    hide Inv, Next, RoomyTree, Change, OpWithin;
    PendingTree(s);
    if !Change(s, s') {
      StepTrees(s, s');
    } else {
      ChangeKeeps(s, s');
      WritingChange(s, s');
      OpRoomy(s.writer.value.tree, s'.writer.value.tree, ks);
    }
  }

  lemma WritingChange(s: Sys, s': Sys)
    requires Change(s, s')
    ensures s.writer.Some? && s'.writer.Some? && !Committing(s) && !Committing(s')
  {
  }

  predicate Committing(s: Sys) {
    s.writer.Some? && !s.writer.value.stage.Writing?
  }

  /** No step but a tree operation makes a tree: the others only pass on the committed one and the writer's. */
  lemma StepTrees(s: Sys, s': Sys)
    requires Next(s, s') && !Change(s, s')
    requires Committing(s) ==> s.writer.value.stage.next.tree == s.writer.value.tree
    ensures s'.now.tree == s.now.tree || (Committing(s) && s'.now.tree == s.writer.value.tree)
    ensures s'.hist == s.hist || (Committing(s) && s'.hist == s.hist + [s.writer.value.tree])
    ensures Committing(s') && !WriteData(s, s') ==> Committing(s) && s'.writer.value.tree == s.writer.value.tree
    ensures s'.writer.Some? ==> s'.writer.value.tree == s.now.tree || (s.writer.Some? && s'.writer.value.tree == s.writer.value.tree)
  {
    hide Change, BeginWrite, WriteData, Crash;
    if BeginWrite(s, s') { BeginTrees(s, s'); }
    if WriteData(s, s') { WriteDataTrees(s, s'); }
    if Crash(s, s') { CrashTrees(s, s'); }
  }

  lemma BeginTrees(s: Sys, s': Sys)
    requires BeginWrite(s, s')
    ensures s'.now == s.now && s'.hist == s.hist && s'.writer.Some? && s'.writer.value.tree == s.now.tree && !Committing(s')
  {
    hide Overtake, Watermark;
  }

  lemma WriteDataTrees(s: Sys, s': Sys)
    requires WriteData(s, s')
    ensures s'.now == s.now && s'.hist == s.hist && s.writer.Some? && s'.writer.Some? && s'.writer.value.tree == s.writer.value.tree
    ensures !Committing(s) && AllFit(s.writer.value.work.overlay)
  {
    hide Linked, Loaded, Tagged, OursOf, DiskAt, Span;
  }

  lemma CrashTrees(s: Sys, s': Sys)
    requires Crash(s, s')
    ensures s'.writer == None
    ensures (s'.now == s.now && s'.hist == s.hist)
         || (s.writer.Some? && !s.writer.value.stage.Writing? && s'.now == s.writer.value.stage.next && s'.hist == s.hist + [s'.now.tree])
  {
    hide CrashFile, Recover;
  }

  lemma PendingTree(s: Sys)
    requires Inv(s)
    ensures Committing(s) ==> s.writer.value.stage.next.tree == s.writer.value.tree
  {
  }

  lemma {:induction false} ShortRunRoomy(run: seq<Sys>, i: nat, ks: Keyspace)
    requires IsRun(run) && RunWithin(run, ks.Least(), ks.Most()) && i < |run|
    ensures AllRoomy(run[i], ks)
    decreases i
  {
    hide Init, Next, Inv, AllRoomy, StepWithin;
    if i == 0 {
      StartsRoomy(run[0], ks);
    } else {
      ShortRunRoomy(run, i - 1, ks);
      RunInv(run, i - 1);
      StepRoomy(run[i - 1], run[i], ks);
    }
  }

  lemma StartsRoomy(s: Sys, ks: Keyspace)
    requires Init(s)
    ensures AllRoomy(s, ks)
  {
  }

  lemma RoomyTreeFits(t: LocatedRoot, ks: Keyspace)
    requires RoomyTree(t, ks)
    ensures TreeFits(t)
  {
    RoomyRootFits(t.Abstract(), ks);
  }

  /** A writer whose tree is within the bound stages only nodes that fit. */
  lemma RoomyStagesFit(run: seq<Sys>, i: nat, ks: Keyspace)
    requires IsRun(run) && i < |run| && run[i].writer.Some? && run[i].writer.value.stage.Writing?
    requires RoomyTree(run[i].writer.value.tree, ks)
    ensures AllFit(run[i].writer.value.work.overlay)
  {
    RoomyTreeFits(run[i].writer.value.tree, ks);
    FitsStaged(run, i);
  }

  /** In every run whose puts have short enough keys, no page a commit flushes trips the assertion of `encode_page`. */
  lemma StagedPagesFit(run: seq<Sys>, i: nat, ks: Keyspace)
    requires IsRun(run) && RunWithin(run, ks.Least(), ks.Most()) && i < |run| && run[i].writer.Some? && run[i].writer.value.stage.Writing?
    ensures AllFit(run[i].writer.value.work.overlay)
  {
    ShortRunRoomy(run, i, ks);
    RoomyStagesFit(run, i, ks);
  }
}
