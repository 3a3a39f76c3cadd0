/** The refinement proof, operation by operation. */
module Steps {
  import opened Paths
  import opened Storage
  import opened FileSystem
  import opened World
  import opened Refinement

  /* ---------- shared by the operations that write a row ---------- */

  predicate CanHoldRow(files: map<Path, Row>, p: Path) {
    && p != []
    && (p in files ==> !files[p].IsDir())
    && forall q | q in files && AtOrBelow(q, p) && q != p :: files[q].IsDir()
  }

  lemma CanHoldRows(w: World, p: Path)
    ensures CanHold(View(w), p) <==> CanHoldRow(w.files, p)
  {
    hide AtOrBelow;
    assert forall q | q in w.files :: View(w).nodes[q].Directory? <==> w.files[q].IsDir();
  }

  lemma WriteRowTree(files: map<Path, Row>, p: Path, row: Row)
    requires Tree(files) && CanHoldRow(files, p)
    ensures Tree(WriteRow(files, p, row))
  {
    var r := WriteRow(files, p, row);
    forall q | q in r ensures q != [] && (|q| == 1 || (Parent(q) in r && r[Parent(q)].IsDir())) {
      if q == p || q !in files {
        assert AtOrBelow(q, p);
        AtOrBelowAbove(q, p);
      }
    }
  }

  /** The directory that holds q is p's directory or lies above it. */
  lemma AtOrBelowAbove(q: Path, p: Path)
    requires q != [] && AtOrBelow(q, p)
    ensures AtOrBelow(Parent(q), Parent(p)) && Parent(q) != p && AtOrBelow(Parent(q), p)
  {
  }

  lemma DirectoryIntact(w: World, q: Path)
    requires q in w.files && w.files[q] == DIRECTORY
    ensures RowIntact(w, q)
  {
  }

  /** Good again after one row was written: everything else was kept. */
  lemma GoodWritten(w: World, w': World, p: Path, row: Row)
    requires w'.files == WriteRow(w.files, p, row) && p != [] && RowIntact(w', p)
    requires Tree(w'.files) && Isolated(w')
    requires forall q | q in w.files && q != p :: Kept(w, q, w', q)
    requires forall q | q in w'.live :: WriterIntact(w', q)
    ensures Good(w')
  {
    hide Tree, Isolated, RowIntact, WriterIntact, RowNode, Resumable, AtOrBelow;
    forall q | q in w'.files ensures RowIntact(w', q) {
      if q != p {
        if q in w.files { assert Kept(w, q, w', q); } else { DirectoryIntact(w', q); }
      }
    }
  }

  lemma FreshRows(w: World, location: Location)
    requires Fresh(w, location)
    ensures SegmentRows(w.segments, location) == []
  {
    assert NumbersAt(w.segments, location) == {};
  }

  /* ---------- Put ---------- */

  lemma PutAgree(w: World, p: Path, bytes: Bytes, location: Location, other: Location)
    requires |bytes| > MAX_INLINE_SIZE ==> location != other
    requires LocationAt(w, p) != "" ==> LocationAt(w, p) != other
    ensures Agree(w, PutFile(w, p, bytes, location), other)
  {
  }

  lemma PutRow(w: World, p: Path, bytes: Bytes, location: Location, q: Path)
    requires Good(w) && q in w.files && q != p && p !in w.live
    requires |bytes| > MAX_INLINE_SIZE ==> Fresh(w, location)
    ensures Kept(w, q, PutFile(w, p, bytes, location), q)
  {
    hide RowIntact, WriterIntact, Tree, Agree;
    GoodRow(w, q);
    if LocationAt(w, q) != "" {
      PutAgree(w, p, bytes, location, LocationAt(w, q));
    }
    RowFrame(w, q, PutFile(w, p, bytes, location), q);
  }

  lemma PutWriter(w: World, p: Path, bytes: Bytes, location: Location, q: Path)
    requires Good(w) && q in w.live && p !in w.live
    requires |bytes| > MAX_INLINE_SIZE ==> Fresh(w, location)
    ensures WriterKept(w, PutFile(w, p, bytes, location), q)
  {
    hide RowIntact, WriterIntact, Tree, Agree;
    GoodWriter(w, q);
    PutAgree(w, p, bytes, location, w.live[q].location);
    WriterFrame(w, PutFile(w, p, bytes, location), q);
  }

  lemma PutNewRow(w: World, p: Path, bytes: Bytes, location: Location)
    requires p !in w.live
    requires |bytes| > MAX_INLINE_SIZE ==> Fresh(w, location)
    ensures var w' := PutFile(w, p, bytes, location);
      && p in w'.files && RowIntact(w', p) && RowNode(w', w'.files[p]) == File(bytes)
      && w'.files == WriteRow(w.files, p, w'.files[p]) && w'.live == w.live
      && (w'.files[p].location != "" <==> |bytes| > MAX_INLINE_SIZE)
      && (w'.files[p].location != "" ==> w'.files[p].location == location && Resumable(w', location) == [])
  {
    assert p !in SelfAndAbove(Parent'(p));
    if |bytes| > MAX_INLINE_SIZE {
      FreshRows(w, location);
    }
  }

  lemma NewRowIsolated(w: World, w': World, p: Path, row: Row)
    requires OthersKept(w.files, w'.files, p) && w'.live == w.live
    requires p !in w.live && p in w'.files && w'.files[p] == row
    requires row.location == "" || Fresh(w, row.location)
    ensures Isolated(w) ==> Isolated(w')
  {
  }

  lemma PutIsolated(w: World, p: Path, bytes: Bytes, location: Location)
    requires Isolated(w) && p !in w.live
    requires |bytes| > MAX_INLINE_SIZE ==> Fresh(w, location)
    ensures Isolated(PutFile(w, p, bytes, location))
  {
    var w' := PutFile(w, p, bytes, location);
    var row := if |bytes| > MAX_INLINE_SIZE then Row(|bytes|, [], location) else Row(|bytes|, bytes, "");
    hide Isolated, Fresh, PutFile, OthersKept, WriteRow;
    PutFrame(w, p, bytes, location);
    WriteRowKept(w.files, p, row);
    NewRowIsolated(w, w', p, row);
  }

  /** What Put does to everything but the objects. */
  lemma PutFrame(w: World, q: Path, bytes: Bytes, l: Location)
    ensures var w' := PutFile(w, q, bytes, l);
      var row := if |bytes| > MAX_INLINE_SIZE then Row(|bytes|, [], l) else Row(|bytes|, bytes, "");
      w'.files == WriteRow(w.files, q, row) && w'.segments == w.segments && w'.live == w.live
  {
    hide WriteRow;
  }

  lemma WriteRowKept(files: map<Path, Row>, p: Path, row: Row)
    ensures var r := WriteRow(files, p, row); p in r && r[p] == row && OthersKept(files, r, p)
  {
    NotAboveItself(p);
    forall q | q in SelfAndAbove(Parent'(p)) ensures AtOrBelow(q, p) {}
    hide AtOrBelow;
  }

  lemma PutKeeps(w: World, p: Path, bytes: Bytes, location: Location)
    requires Good(w) && p !in w.live
    requires |bytes| > MAX_INLINE_SIZE ==> Fresh(w, location)
    ensures var w' := PutFile(w, p, bytes, location);
      && (forall q | q in w.files && q != p :: Kept(w, q, w', q))
      && (forall q | q in w'.live :: WriterKept(w, w', q))
  {
    hide Good, Kept, WriterKept, Fresh;
    var w' := PutFile(w, p, bytes, location);
    forall q | q in w.files && q != p ensures Kept(w, q, w', q) { PutRow(w, p, bytes, location, q); }
    forall q | q in w'.live ensures WriterKept(w, w', q) { PutWriter(w, p, bytes, location, q); }
  }

  lemma PutGood(w: World, p: Path, bytes: Bytes, location: Location)
    requires Good(w) && CanHoldRow(w.files, p) && p !in w.live
    requires |bytes| > MAX_INLINE_SIZE ==> Fresh(w, location)
    ensures Good(PutFile(w, p, bytes, location))
  {
    var w' := PutFile(w, p, bytes, location);
    WriteRowTree(w.files, p, w'.files[p]);
    PutIsolated(w, p, bytes, location);
    PutNewRow(w, p, bytes, location);
    PutKeeps(w, p, bytes, location);
    hide Good, Tree, Isolated, RowIntact, WriterIntact, Kept, Fresh;
    GoodWritten(w, w', p, w'.files[p]);
  }

  lemma PutView(w: World, p: Path, bytes: Bytes, location: Location)
    requires Good(w) && p != [] && p !in w.live
    requires |bytes| > MAX_INLINE_SIZE ==> Fresh(w, location)
    ensures View(PutFile(w, p, bytes, location)) == Apply(View(w), Put(p, bytes))
  {
    var w' := PutFile(w, p, bytes, location);
    PutNewRow(w, p, bytes, location);
    PutKeeps(w, p, bytes, location);
    hide *;
    ViewWritten(w, w', p, w'.files[p]);
    PendingSame(w, w');
  }

  lemma PutRefines(w: World, p: Path, bytes: Bytes, location: Location)
    requires Good(w) && Legal(View(w), Put(p, bytes))
    requires |bytes| > MAX_INLINE_SIZE ==> Fresh(w, location)
    ensures Good(PutFile(w, p, bytes, location))
    ensures View(PutFile(w, p, bytes, location)) == Apply(View(w), Put(p, bytes))
  {
    hide Good, Fresh, Nodes, Resume, Pending, CanHold;
    CanHoldRows(w, p);
    PutGood(w, p, bytes, location);
    PutView(w, p, bytes, location);
  }

  /* ---------- Delete ---------- */

  lemma DeletePathIsPruned(w: World, p: Path)
    requires Tree(w.files) && p != []
    ensures DeletePath(w, p).(live := w.live - {p}) == Pruned(w, p)
    ensures p !in w.live ==> DeletePath(w, p) == Pruned(w, p)
  {
    if p in w.files { TreeDeleted(w, p); }
    hide Tree, DeletePath;
    if p !in w.files { PrunedAbsent(w, p); }
    assert p !in w.live ==> w.live - {p} == w.live;
  }

  lemma PrunedAbsent(w: World, p: Path)
    requires Tree(w.files) && p != [] && p !in w.files
    ensures DeletePath(w, p) == w && Pruned(w, p) == w.(live := w.live - {p})
  {
    hide Tree;
    NothingToPrune(w, p);
  }

  lemma DeletePathLives(w: World, q: Path)
    ensures DeletePath(w, q).live == w.live
    ensures forall r | r in DeletePath(w, q).files :: r in w.files && DeletePath(w, q).files[r] == w.files[r]
  {
  }

  /** Whether or not there is something at target, the call has the effect of pruning it. */
  lemma DeletePathView(w: World, target: Path)
    requires Good(w) && target != [] && target !in w.live
    requires forall q | q in w.live && q != target :: target in w.files ==> !AtOrBelow(target, q)
    ensures var w1 := DeletePath(w, target);
      && w1 == Pruned(w, target) && Good(w1)
      && View(w1) == Fs(RemoveTree(View(w).nodes, target), View(w).pending, RemoveTree(View(w).resume, target))
  {
    DeletePathIsPruned(w, target);
    GoodIsTree(w);
    hide Good, Tree, Pruned, View, DeletePath, AtOrBelow;
    NoWriterPending(w, target);
    if target in w.files {
      PrunedGood(w, target);
      PrunedView(w, target);
    } else {
      NothingToPrune(w, target);
    }
  }

  lemma GoodIsTree(w: World)
    requires Good(w)
    ensures Tree(w.files)
  {
  }

  lemma NoWriterPending(w: World, target: Path)
    requires target !in w.live
    ensures View(w).pending - {target} == View(w).pending && w.live - {target} == w.live
  {
    hide Nodes, Resume;
  }

  lemma DeleteRefines(w: World, p: Path)
    requires Good(w) && Legal(View(w), Delete(p))
    ensures Good(DeletePath(w, p))
    ensures View(DeletePath(w, p)) == Apply(View(w), Delete(p))
  {
    assert p in w.files ==> p !in w.live && forall q | q in w.live && q != p :: !AtOrBelow(p, q) by {
      assert forall q | q in w.live :: q in View(w).pending;
    }
    assert Tree(w.files);
    hide Good, Tree, View, Legal, DeletePath;
    if p in w.files {
      DeletePathView(w, p);
    } else {
      NothingToPrune(w, p);
    }
  }

  /* ---------- Move ---------- */

  function WithoutRow(w: World, p: Path): World {
    w.(files := w.files - {p})
  }

  function Renamed(w: World, p: Path, target: Path): World
    requires p in w.files
  {
    w.(files := WriteRow(w.files - {p}, target, w.files[p]))
  }

  lemma WithoutFileTree(files: map<Path, Row>, p: Path)
    requires Tree(files) && p in files && !files[p].IsDir()
    ensures Tree(files - {p})
  {
  }

  lemma RenameIsolated(w1: World, w2: World, p: Path, target: Path)
    requires Isolated(w1) && p in w1.files && p !in w1.live && target !in w1.files && target !in w1.live
    requires w2 == w1.(files := w2.files)
    requires target in w2.files && w2.files[target] == w1.files[p]
    requires OthersKept(w1.files - {p}, w2.files, target)
    ensures Isolated(w2)
  {
    assert forall q | q in w2.files && q != target ::
      w2.files[q].location == "" || (q in w1.files && q != p && w1.files[q] == w2.files[q]);
  }

  lemma RenamedIsolated(w: World, p: Path, target: Path)
    requires Isolated(w) && p in w.files && target !in w.files && target !in w.live && p !in w.live
    ensures Isolated(Renamed(w, p, target))
  {
    assert target !in SelfAndAbove(Parent'(target));
    hide Isolated, AtOrBelow;
    RenameIsolated(w, Renamed(w, p, target), p, target);
  }

  lemma RenamedKeeps(w: World, p: Path, target: Path)
    requires Good(w) && p in w.files && target !in w.files && target !in w.live
    ensures var w' := Renamed(w, p, target);
      && Kept(w, p, w', target)
      && (forall q | q in w.files && q != p :: Kept(w, q, w', q))
      && (forall q | q in w'.live :: WriterKept(w, w', q))
  {
    var w' := Renamed(w, p, target);
    assert target !in SelfAndAbove(Parent'(target));
    GoodRow(w, p);
    assert Agree(w, w', LocationAt(w, p));
    RowFrame(w, p, w', target);
    hide Tree, Isolated, RowIntact, Kept, WriterKept, Agree, AtOrBelow;
    forall q | q in w.files && q != p ensures Kept(w, q, w', q) {
      GoodRow(w, q);
      assert Agree(w, w', LocationAt(w, q)) by { SameAgree(w, w', LocationAt(w, q)); }
      RowFrame(w, q, w', q);
    }
    forall q | q in w'.live ensures WriterKept(w, w', q) {
      GoodWriter(w, q);
      SameAgree(w, w', w.live[q].location);
      WriterFrame(w, w', q);
    }
  }

  lemma SameAgree(w: World, w': World, location: Location)
    requires w'.objects == w.objects && w'.segments == w.segments
    ensures Agree(w, w', location)
  {
  }

  lemma RenamedGood(w: World, p: Path, target: Path)
    requires Good(w) && p in w.files && !w.files[p].IsDir() && p !in w.live && target !in w.live
    requires target !in w.files && CanHoldRow(w.files - {p}, target)
    ensures Good(Renamed(w, p, target))
  {
    var w' := Renamed(w, p, target);
    WithoutFileTree(w.files, p);
    WriteRowTree(w.files - {p}, target, w.files[p]);
    RenamedIsolated(w, p, target);
    RenamedKeeps(w, p, target);
    hide Good, Tree, Isolated, RowIntact, WriterIntact, Kept, RowNode;
    RenamedKept(w, p, target);
    GoodWritten(WithoutRow(w, p), w', target, w.files[p]);
  }

  /** Taking the row away changes nothing for the others. */
  lemma RenamedKept(w: World, p: Path, target: Path)
    requires p in w.files && target !in w.files
    requires Kept(w, p, Renamed(w, p, target), target)
    requires forall q | q in w.files && q != p :: Kept(w, q, Renamed(w, p, target), q)
    ensures RowIntact(Renamed(w, p, target), target)
    ensures forall q | q in WithoutRow(w, p).files && q != target :: Kept(WithoutRow(w, p), q, Renamed(w, p, target), q)
  {
    hide RowIntact, Resumable, AtOrBelow, SegmentRows, Joined;
    var w' := Renamed(w, p, target);
    forall q | q in WithoutRow(w, p).files && q != target ensures Kept(WithoutRow(w, p), q, w', q) {
      assert Kept(w, q, w', q);
      ResumableSame(w, WithoutRow(w, p), LocationAt(w, q));
    }
  }

  lemma ResumableSame(w: World, w': World, location: Location)
    requires w'.objects == w.objects && w'.segments == w.segments
    ensures Resumable(w', location) == Resumable(w, location)
  {
  }

  lemma WithoutRowView(w: World, p: Path)
    requires p in w.files
    ensures Nodes(WithoutRow(w, p)) == Nodes(w) - {p}
    ensures Resume(WithoutRow(w, p)) == Resume(w) - {p}
  {
    hide Joined, SegmentRows;
  }

  lemma RenamedView(w: World, p: Path, target: Path)
    requires Good(w) && p in w.files && target !in w.files && target !in w.live && target != []
    ensures var w' := Renamed(w, p, target);
      && Nodes(w') == AddDirs((Nodes(w) - {p})[target := Nodes(w)[p]], Parent(target), Directory)
      && Pending(w') == Pending(w)
      && (p in Resume(w) ==> Resume(w') == (Resume(w) - {p})[target := Resume(w)[p]])
      && (p !in Resume(w) ==> Resume(w') == Resume(w) - {p} - {target})
  {
    hide Nodes, Resume, Pending, Good, Kept, WriterKept, RowNode, Resumable, RowIntact, AddDirs;
    var w' := Renamed(w, p, target);
    RenamedKeeps(w, p, target);
    RenamedKept(w, p, target);
    RenamedRow(w, p, target);
    WithoutRowView(w, p);
    ViewWritten(WithoutRow(w, p), w', target, w.files[p]);
    PendingSame(w, w');
  }

  lemma RenamedRow(w: World, p: Path, target: Path)
    requires p in w.files && target !in w.files && Kept(w, p, Renamed(w, p, target), target)
    ensures var w' := Renamed(w, p, target);
      && w'.files == WriteRow(WithoutRow(w, p).files, target, w.files[p]) && w'.live == w.live
      && RowNode(w', w.files[p]) == Nodes(w)[p]
      && (p in Resume(w) ==> Resumable(w', w.files[p].location) == Resume(w)[p])
  {
    hide RowIntact, Joined, SegmentRows;
  }

  /** What a legal Move says about the rows once the target is out of the way. */
  lemma MoveTarget(w: World, p: Path, target: Path)
    requires Good(w) && p in w.files && Legal(View(w), Move(p, target))
    ensures target != [] && target !in w.live && p !in w.live && !w.files[p].IsDir()
    ensures forall q | q in w.live && q != target :: target in w.files ==> !AtOrBelow(target, q)
    ensures var w1 := Pruned(w, target);
      && p in w1.files && w1.files[p] == w.files[p] && p !in w1.live
      && target !in w1.files && target !in w1.live && CanHoldRow(w1.files - {p}, target)
  {
    hide Good, RowIntact, WriterIntact, Isolated, Tree, ObjectBytes, Pending, Resume;
    var fs := View(w);
    assert forall q | q in w.files :: fs.nodes[q].Directory? <==> w.files[q].IsDir();
    var files := Pruned(w, target).files - {p};
    forall q | q in files && AtOrBelow(q, target) && q != target ensures files[q].IsDir() {
      assert q in fs.nodes;
    }
  }

  lemma MoveRefines(w: World, p: Path, target: Path)
    requires Good(w) && Legal(View(w), Move(p, target))
    ensures Good(MoveFile(w, p, target))
    ensures View(MoveFile(w, p, target)) == Apply(View(w), Move(p, target))
  {
    if p in w.files {
      MoveTarget(w, p, target);
      var w1 := Pruned(w, target);
      hide *;
      DeletePathView(w, target);
      MoveIsRename(w, p, target);
      RenamedGood(w1, p, target);
      RenamedView(w1, p, target);
      MoveApplied(w, w1, Renamed(w1, p, target), p, target);
    }
  }

  lemma MoveApplied(w: World, w1: World, w2: World, p: Path, target: Path)
    requires p in w.files && p in w1.files && target != []
    requires View(w1) == Fs(RemoveTree(View(w).nodes, target), View(w).pending, RemoveTree(View(w).resume, target))
    requires p in Nodes(w1) &&
        Nodes(w2) == AddDirs((Nodes(w1) - {p})[target := Nodes(w1)[p]], Parent(target), Directory)
    requires Pending(w2) == Pending(w1)
    requires p in Resume(w1) ==> Resume(w2) == (Resume(w1) - {p})[target := Resume(w1)[p]]
    requires p !in Resume(w1) ==> Resume(w2) == Resume(w1) - {p} - {target}
    ensures View(w2) == Apply(View(w), Move(p, target))
  {
    hide Nodes, Resume, Pending, AddDirs, RemoveTree;
    if p !in Resume(w1) { NoResumeBelow(View(w).resume, target); }
    SameMoved(View(w), w1, w2, p, target);
  }

  lemma NoResumeBelow(resume: map<Path, Bytes>, target: Path)
    ensures target !in RemoveTree(resume, target)
  {
    assert AtOrBelow(target, target);
  }

  lemma SameMoved(fs: Fs, w1: World, w2: World, p: Path, target: Path)
    requires p in fs.nodes && target != []
    requires View(w1) == Fs(RemoveTree(fs.nodes, target), fs.pending, RemoveTree(fs.resume, target))
    requires p in Nodes(w1) &&
        Nodes(w2) == AddDirs((Nodes(w1) - {p})[target := Nodes(w1)[p]], Parent(target), Directory)
    requires Pending(w2) == Pending(w1)
    requires p in Resume(w1) ==> Resume(w2) == (Resume(w1) - {p})[target := Resume(w1)[p]]
    requires p !in Resume(w1) ==> Resume(w2) == Resume(w1) - {p} - {target} && target !in Resume(w1)
    ensures View(w2) == Moved(fs, p, target)
  {
    hide Nodes, Resume, Pending, AddDirs, AtOrBelow;
    assert p in fs.resume <==> p in Resume(w1);
    assert p !in Resume(w1) ==> Resume(w1) - {p} - {target} == Resume(w1);
  }

  lemma MoveIsRename(w: World, p: Path, target: Path)
    requires p in w.files && DeletePath(w, target) == Pruned(w, target) && p in Pruned(w, target).files
    ensures MoveFile(w, p, target) == Renamed(Pruned(w, target), p, target)
  {
  }

  /* ---------- writers ---------- */

  /** A writer may start at a location of its own with the segments recorded there. */
  ghost predicate MayAttach(w: World, p: Path, writer: Writer) {
    && p != [] && p !in w.live
    && writer.location != ""
    && (forall q | q in w.live :: w.live[q].location != writer.location)
    && (forall q | q in w.files && q != p :: w.files[q].location != writer.location)
    && (LocationAt(w, p) != "" ==> LocationAt(w, p) == writer.location)
    && writer.segments == SegmentRows(w.segments, writer.location)
    && Numbered(writer.segments, writer.location) && Stored(w.objects, writer.segments)
  }

  function Attached(w: World, p: Path, writer: Writer): World {
    w.(live := w.live[p := writer])
  }

  lemma AttachedGood(w: World, p: Path, writer: Writer)
    requires Good(w) && MayAttach(w, p, writer)
    ensures Good(Attached(w, p, writer))
  {
    hide Tree, Isolated, RowIntact, WriterIntact, MayAttach;
    AttachedIsolated(w, p, writer);
    AttachedRows(w, p, writer);
  }

  lemma AttachedIsolated(w: World, p: Path, writer: Writer)
    requires Isolated(w) && MayAttach(w, p, writer)
    ensures Isolated(Attached(w, p, writer))
  {
    hide Stored, Numbered, SegmentRows;
  }

  lemma AttachedRows(w: World, p: Path, writer: Writer)
    requires Good(w) && MayAttach(w, p, writer)
    ensures var w' := Attached(w, p, writer);
      && (forall q | q in w'.files :: RowIntact(w', q))
      && (forall q | q in w'.live :: WriterIntact(w', q))
  {
    hide Tree, Isolated, SegmentRows, Stored, Numbered;
    var w' := Attached(w, p, writer);
    forall q | q in w'.files ensures RowIntact(w', q) { GoodRow(w, q); }
    forall q | q in w'.live ensures WriterIntact(w', q) { if q != p { GoodWriter(w, q); } }
  }

  lemma AttachedView(w: World, p: Path, writer: Writer)
    ensures View(Attached(w, p, writer))
      == View(w).(pending := View(w).pending[p := Joined(w.objects, writer.segments)])
  {
    hide Joined, SegmentRows;
    var w' := Attached(w, p, writer);
    assert Nodes(w') == Nodes(w);
    assert Resume(w') == Resume(w);
  }

  lemma OpenRefines(w: World, p: Path, append: bool, location: Location)
    requires Good(w) && Legal(View(w), Open(p, append)) && Fresh(w, location)
    ensures Good(OpenWriter(w, p, append, location))
    ensures View(OpenWriter(w, p, append, location)) == Apply(View(w), Open(p, append))
  {
    if append && p in w.files {
      OpenExisting(w, p, location);
    } else {
      OpenEmpty(w, p, append, location);
    }
  }

  lemma OpenExisting(w: World, p: Path, location: Location)
    requires Good(w) && Legal(View(w), Open(p, true)) && Fresh(w, location) && p in w.files
    ensures Good(OpenWriter(w, p, true, location))
    ensures View(OpenWriter(w, p, true, location)) == Apply(View(w), Open(p, true))
  {
    var writer := OpenWriter(w, p, true, location).live[p];
    OpenFile(w, p);
    OpenAttaches(w, p, location);
    hide *;
    OwnLocation(w, p, location, writer);
    AttachedGood(w, p, writer);
    AttachedView(w, p, writer);
    OpenResumes(w, p, location);
  }

  lemma OpenAttaches(w: World, p: Path, location: Location)
    requires p in w.files
    ensures var writer := OpenWriter(w, p, true, location).live[p];
      && writer.location == (if LocationAt(w, p) == "" then location else LocationAt(w, p))
      && writer.segments == SegmentRows(w.segments, writer.location)
      && OpenWriter(w, p, true, location) == Attached(w, p, writer)
  {
    hide SegmentRows;
  }

  lemma OpenResumes(w: World, p: Path, location: Location)
    requires p in w.files && Fresh(w, location)
    ensures var writer := OpenWriter(w, p, true, location).live[p];
      View(w).(pending := View(w).pending[p := Joined(w.objects, writer.segments)]) == Apply(View(w), Open(p, true))
  {
    FreshRows(w, location);
    OpenAttaches(w, p, location);
    NothingJoined(w.objects);
    hide Fresh, Nodes, Pending, SegmentRows, Joined, OpenWriter;
  }

  lemma OpenFile(w: World, p: Path)
    requires Legal(View(w), Open(p, true)) && p in w.files
    ensures !w.files[p].IsDir() && p !in w.live && p != []
  {
  }

  lemma NothingJoined(objects: Bucket)
    ensures Joined(objects, []) == []
  {
  }

  lemma OwnLocation(w: World, p: Path, location: Location, writer: Writer)
    requires Good(w) && p in w.files && !w.files[p].IsDir() && p != [] && p !in w.live && Fresh(w, location)
    requires writer.location == if LocationAt(w, p) == "" then location else LocationAt(w, p)
    requires writer.segments == SegmentRows(w.segments, writer.location)
    ensures MayAttach(w, p, writer)
  {
    GoodRow(w, p);
    FreshRows(w, location);
    hide Tree, SegmentRows;
  }

  lemma FreshAttach(w: World, p: Path, location: Location)
    requires Fresh(w, location) && p != [] && p !in w.live && p !in w.files
    ensures MayAttach(w, p, Writer(location, []))
  {
    FreshRows(w, location);
  }

  lemma OpenEmpty(w: World, p: Path, append: bool, location: Location)
    requires Good(w) && Legal(View(w), Open(p, append)) && Fresh(w, location)
    requires append ==> p !in w.files
    ensures Good(OpenWriter(w, p, append, location))
    ensures View(OpenWriter(w, p, append, location)) == Apply(View(w), Open(p, append))
  {
    var w1 := DeletePath(w, p);
    var writer := Writer(location, []);
    OpenLegalRows(w, p, append);
    EmptyAttaches(w, p, append, location);
    if append { AbsentView(w, p); }
    hide *;
    DeletePathView(w, p);
    DeletedFresh(w, p, location);
    FreshAttach(w1, p, location);
    AttachedGood(w1, p, writer);
    AttachedView(w1, p, writer);
    NothingJoined(w1.objects);
    EmptyApplied(View(w), View(w1), p, append);
  }

  lemma EmptyAttaches(w: World, p: Path, append: bool, location: Location)
    requires append ==> p !in w.files
    ensures OpenWriter(w, p, append, location) == Attached(DeletePath(w, p), p, Writer(location, []))
  {
  }

  lemma EmptyApplied(fs: Fs, fs1: Fs, p: Path, append: bool)
    requires fs1 == Fs(RemoveTree(fs.nodes, p), fs.pending, RemoveTree(fs.resume, p))
    requires append ==> fs1 == fs && p !in fs.resume
    ensures fs1.(pending := fs1.pending[p := []]) == Apply(fs, Open(p, append))
  {
    hide RemoveTree;
  }

  lemma OpenLegalRows(w: World, p: Path, append: bool)
    requires Legal(View(w), Open(p, append)) && (append ==> p !in w.files)
    ensures p != [] && p !in w.live
    ensures forall q | q in w.live && q != p :: p in w.files ==> !AtOrBelow(p, q)
  {
    hide AtOrBelow;
    assert forall q | q in w.live :: q in View(w).pending;
  }

  lemma DeletedFresh(w: World, p: Path, location: Location)
    requires Fresh(w, location)
    ensures Fresh(DeletePath(w, p), location)
    ensures p !in DeletePath(w, p).files && DeletePath(w, p).live == w.live
  {
  }

  lemma AbsentView(w: World, p: Path)
    requires Good(w) && p !in w.files && p != []
    ensures DeletePath(w, p) == w && p !in View(w).resume
  {
  }

  /* ---------- Extend ---------- */

  /** One more segment: the recorded ones are untouched and the new bytes come last. */
  lemma SegmentAppended(objects: Bucket, segments: seq<Segment>, location: Location, bytes: Bytes)
    requires Numbered(segments, location) && Stored(objects, segments)
    ensures var s := Segment(location, |segments| + 1, |bytes|);
      var objects' := objects[SegmentName(location, s.number) := Blob(bytes)];
      && Numbered(segments + [s], location)
      && Stored(objects', segments + [s])
      && Joined(objects', segments + [s]) == Joined(objects, segments) + bytes
  {
    var s := Segment(location, |segments| + 1, |bytes|);
    var objects' := objects[SegmentName(location, s.number) := Blob(bytes)];
    SegmentBeyond(objects, segments, location, |segments| + 1, bytes);
    assert (segments + [s])[..|segments|] == segments;
    forall i | 0 <= i < |segments| + 1 ensures SegmentStored(objects', (segments + [s])[i]) {
      if i < |segments| { assert SegmentStored(objects', segments[i]); }
    }
  }

  /** Segments with smaller numbers do not notice. */
  lemma SegmentBeyond(objects: Bucket, segments: seq<Segment>, location: Location, number: nat, bytes: Bytes)
    requires Numbered(segments, location) && Stored(objects, segments) && |segments| < number
    ensures var objects' := objects[SegmentName(location, number) := Blob(bytes)];
      Stored(objects', segments) && Joined(objects', segments) == Joined(objects, segments)
  {
    var objects' := objects[SegmentName(location, number) := Blob(bytes)];
    forall i | 0 <= i < |segments|
      ensures SegmentStored(objects', segments[i])
      ensures var n := SegmentName(segments[i].location, segments[i].number);
        BlobData(objects, n) == BlobData(objects', n)
    {
      assert SegmentStored(objects, segments[i]);
    }
    JoinedFrame(objects, objects', segments);
  }

  lemma ExtendAgree(w: World, p: Path, bytes: Bytes, location: Location)
    requires p in w.live && location != w.live[p].location
    ensures Agree(w, WriteSegment(w, p, bytes), location)
  {
  }

  lemma ExtendWriter(w: World, p: Path, bytes: Bytes)
    requires p in w.live && WriterIntact(w, p)
    ensures var w' := WriteSegment(w, p, bytes);
      && WriterIntact(w', p)
      && Joined(w'.objects, w'.live[p].segments) == Joined(w.objects, w.live[p].segments) + bytes
  {
    hide SegmentRows, Joined, Numbered, Stored;
    var Writer(location, segments) := w.live[p];
    SegmentAppended(w.objects, segments, location, bytes);
    SegmentRowsAppend(w.segments, location, segments, |bytes|);
  }

  /** The committed row that the writer extends still stands for its old bytes. */
  lemma ExtendOwnRow(w: World, p: Path, bytes: Bytes)
    requires p in w.live && p in w.files && WriterIntact(w, p) && RowIntact(w, p)
    requires LocationAt(w, p) == w.live[p].location != ""
    ensures var w' := WriteSegment(w, p, bytes);
      && RowIntact(w', p)
      && RowNode(w', w.files[p]) == RowNode(w, w.files[p])
      && Resumable(w', LocationAt(w, p)) == Resumable(w, LocationAt(w, p)) + bytes
  {
    hide SegmentRows, Joined, Numbered, Stored;
    ExtendWriter(w, p, bytes);
    var Writer(location, segments) := w.live[p];
    var content := w.objects[ContentName(location)];
    if content.Manifest? {
      PrefixStored(w.objects, content.segments, segments, location);
      SegmentBeyond(w.objects, content.segments, location, |segments| + 1, bytes);
    }
  }

  lemma PrefixStored(objects: Bucket, a: seq<Segment>, segments: seq<Segment>, location: Location)
    requires a <= segments && Numbered(segments, location) && Stored(objects, segments)
    ensures Numbered(a, location) && Stored(objects, a)
  {
    forall i | 0 <= i < |a| ensures SegmentStored(objects, a[i]) { assert SegmentStored(objects, segments[i]); }
  }

  lemma ExtendKeeps(w: World, p: Path, bytes: Bytes)
    requires Good(w) && p in w.live
    ensures var w' := WriteSegment(w, p, bytes);
      && (forall q | q in w.files && (q != p || LocationAt(w, p) == "") :: Kept(w, q, w', q))
      && (forall q | q in w.live && q != p :: WriterKept(w, w', q))
  {
    hide Tree, RowIntact, WriterIntact, Kept, WriterKept, Agree, WriteSegment;
    var w' := WriteSegment(w, p, bytes);
    ExtendFrame(w, p, bytes);
    forall q | q in w.files && (q != p || LocationAt(w, p) == "") ensures Kept(w, q, w', q) {
      GoodRow(w, q);
      if LocationAt(w, q) != "" { ExtendAgree(w, p, bytes, LocationAt(w, q)); }
      RowFrame(w, q, w', q);
    }
    forall q | q in w.live && q != p ensures WriterKept(w, w', q) {
      GoodWriter(w, q);
      ExtendAgree(w, p, bytes, w.live[q].location);
      WriterFrame(w, w', q);
    }
  }

  lemma ExtendFrame(w: World, p: Path, bytes: Bytes)
    requires p in w.live
    ensures var w' := WriteSegment(w, p, bytes);
      && w'.files == w.files && w'.live.Keys == w.live.Keys
      && (forall q | q in w.live :: w'.live[q].location == w.live[q].location)
      && (forall q | q in w.live && q != p :: w'.live[q] == w.live[q])
  {
  }

  lemma ExtendRow(w: World, p: Path, bytes: Bytes, q: Path)
    requires Good(w) && p in w.live && q in w.files
    ensures var w' := WriteSegment(w, p, bytes);
      && RowIntact(w', q)
      && RowNode(w', w.files[q]) == RowNode(w, w.files[q])
      && (LocationAt(w, q) != "" ==>
           Resumable(w', LocationAt(w, q)) == Resumable(w, LocationAt(w, q)) + if q == p then bytes else [])
  {
    hide Good, RowIntact, WriterIntact, RowNode, Resumable, Joined, WriteSegment;
    ExtendKeeps(w, p, bytes);
    GoodRow(w, q);
    if q == p && LocationAt(w, p) != "" {
      GoodWriter(w, p);
      ExtendOwnRow(w, p, bytes);
    } else {
      assert Kept(w, q, WriteSegment(w, p, bytes), q);
    }
  }

  lemma ExtendIsolated(w: World, p: Path, bytes: Bytes)
    requires Isolated(w) && p in w.live
    ensures Isolated(WriteSegment(w, p, bytes))
  {
    hide WriteSegment;
    ExtendFrame(w, p, bytes);
  }

  lemma ExtendGood(w: World, p: Path, bytes: Bytes)
    requires Good(w) && p in w.live
    ensures Good(WriteSegment(w, p, bytes))
  {
    GoodWriter(w, p);
    assert Tree(w.files) && Isolated(w);
    hide Good, Tree, Isolated, RowIntact, WriterIntact, WriteSegment, RowNode, Resumable, Joined;
    var w' := WriteSegment(w, p, bytes);
    ExtendKeeps(w, p, bytes);
    ExtendFrame(w, p, bytes);
    ExtendIsolated(w, p, bytes);
    ExtendWriter(w, p, bytes);
    forall q | q in w'.files ensures RowIntact(w', q) { ExtendRow(w, p, bytes, q); }
    forall q | q in w'.live ensures WriterIntact(w', q) {
      if q != p { assert WriterKept(w, w', q); }
    }
  }

  lemma ExtendJoined(w: World, p: Path, bytes: Bytes, q: Path)
    requires Good(w) && p in w.live && q in w.live
    ensures var w' := WriteSegment(w, p, bytes);
      Joined(w'.objects, w'.live[q].segments) == Joined(w.objects, w.live[q].segments) + if q == p then bytes else []
  {
    hide Good, RowIntact, WriterIntact, Joined, WriteSegment, Kept;
    if q == p {
      GoodWriter(w, p);
      ExtendWriter(w, p, bytes);
    } else {
      ExtendFrame(w, p, bytes);
      ExtendKeeps(w, p, bytes);
      assert WriterKept(w, WriteSegment(w, p, bytes), q);
    }
  }

  lemma ExtendPending(w: World, p: Path, bytes: Bytes)
    requires Good(w) && p in w.live
    ensures Pending(WriteSegment(w, p, bytes)) == Pending(w)[p := Pending(w)[p] + bytes]
  {
    hide Good, Joined, WriteSegment;
    var w' := WriteSegment(w, p, bytes);
    ExtendFrame(w, p, bytes);
    forall q | q in w.live
      ensures Joined(w'.objects, w'.live[q].segments) ==
        Joined(w.objects, w.live[q].segments) + if q == p then bytes else []
    {
      ExtendJoined(w, p, bytes, q);
    }
    assert forall q | q in w.live && q != p ::
      Joined(w'.objects, w'.live[q].segments) == Joined(w.objects, w.live[q].segments);
  }

  lemma ExtendNodes(w: World, p: Path, bytes: Bytes)
    requires Good(w) && p in w.live
    ensures Nodes(WriteSegment(w, p, bytes)) == Nodes(w)
  {
    hide Good, RowIntact, RowNode, Resumable, WriteSegment;
    var w' := WriteSegment(w, p, bytes);
    ExtendFrame(w, p, bytes);
    forall q | q in w.files ensures RowNode(w', w.files[q]) == RowNode(w, w.files[q]) { ExtendRow(w, p, bytes, q); }
  }

  lemma ExtendView(w: World, p: Path, bytes: Bytes)
    requires Good(w) && p in w.live
    ensures var w' := WriteSegment(w, p, bytes);
      && Nodes(w') == Nodes(w)
      && Resume(w') == if p in Resume(w) then Resume(w)[p := Resume(w)[p] + bytes] else Resume(w)
  {
    hide Good, RowIntact, RowNode, Resumable, WriteSegment, Nodes;
    var w' := WriteSegment(w, p, bytes);
    ExtendFrame(w, p, bytes);
    ExtendNodes(w, p, bytes);
    forall q | q in w.files && LocationAt(w, q) != ""
      ensures Resumable(w', LocationAt(w, q)) == Resumable(w, LocationAt(w, q)) + if q == p then bytes else []
    {
      ExtendRow(w, p, bytes, q);
    }
    assert forall q | q in w.files && q != p && LocationAt(w, q) != "" ::
      Resumable(w', LocationAt(w, q)) == Resumable(w, LocationAt(w, q));
  }

  lemma ExtendRefines(w: World, p: Path, bytes: Bytes)
    requires Good(w) && p in w.live
    ensures Good(WriteSegment(w, p, bytes))
    ensures View(WriteSegment(w, p, bytes)) == Apply(View(w), Extend(p, bytes))
  {
    hide Good, Nodes, Pending, Resume, WriteSegment;
    ExtendGood(w, p, bytes);
    ExtendPending(w, p, bytes);
    ExtendView(w, p, bytes);
  }

  /* ---------- Commit ---------- */

  lemma CommitAgree(w: World, p: Path, location: Location)
    requires p in w.live && location != w.live[p].location
    ensures Agree(w, CommitWriter(w, p), location)
  {
  }

  lemma CommitFrame(w: World, p: Path)
    requires p in w.live
    ensures var w' := CommitWriter(w, p);
      var row := Row(TotalSize(w.live[p].segments), [], w.live[p].location);
      w'.files == WriteRow(w.files, p, row) && w'.live == w.live - {p}
  {
  }

  lemma CommitKeeps(w: World, p: Path)
    requires Good(w) && p in w.live
    ensures var w' := CommitWriter(w, p);
      && (forall q | q in w.files && q != p :: Kept(w, q, w', q))
      && (forall q | q in w'.live :: WriterKept(w, w', q))
  {
    hide Tree, RowIntact, WriterIntact, Kept, WriterKept, Agree, CommitWriter, TotalSize;
    var w' := CommitWriter(w, p);
    CommitFrame(w, p);
    forall q | q in w.files && q != p ensures Kept(w, q, w', q) {
      GoodRow(w, q);
      if LocationAt(w, q) != "" { CommitAgree(w, p, LocationAt(w, q)); }
      RowFrame(w, q, w', q);
    }
    forall q | q in w'.live ensures WriterKept(w, w', q) {
      GoodWriter(w, q);
      CommitAgree(w, p, w.live[q].location);
      WriterFrame(w, w', q);
    }
  }

  /** The new row stands for exactly the bytes the writer has collected. */
  lemma CommitNewRow(w: World, p: Path)
    requires p in w.live && WriterIntact(w, p) && w.live[p].location != ""
    ensures var w' := CommitWriter(w, p);
      var location := w.live[p].location;
      && p in w'.files && RowIntact(w', p)
      && w'.files[p] == Row(TotalSize(w.live[p].segments), [], location)
      && RowNode(w', w'.files[p]) == File(Joined(w.objects, w.live[p].segments))
      && Resumable(w', location) == Joined(w.objects, w.live[p].segments)
  {
    var w' := CommitWriter(w, p);
    var Writer(location, segments) := w.live[p];
    WriteRowKept(w.files, p, Row(TotalSize(segments), [], location));
    hide AtOrBelow, WriteRow, OthersKept, SegmentRows, TotalSize;
    forall i | 0 <= i < |segments|
      ensures SegmentStored(w'.objects, segments[i])
      ensures var n := SegmentName(segments[i].location, segments[i].number);
        BlobData(w.objects, n) == BlobData(w'.objects, n)
    {
      assert SegmentStored(w.objects, segments[i]);
    }
    JoinedFrame(w.objects, w'.objects, segments);
  }

  lemma CommitIsolated(w: World, p: Path)
    requires Isolated(w) && p in w.live
    ensures Isolated(CommitWriter(w, p))
  {
    hide AtOrBelow, TotalSize;
  }

  lemma CommitGood(w: World, p: Path)
    requires Good(w) && p in w.live && CanHoldRow(w.files, p)
    ensures Good(CommitWriter(w, p))
  {
    GoodWriter(w, p);
    hide RowIntact, WriterIntact, Kept, Tree, CommitWriter, CanHoldRow, TotalSize;
    var w' := CommitWriter(w, p);
    var row := Row(TotalSize(w.live[p].segments), [], w.live[p].location);
    CommitFrame(w, p);
    WriteRowTree(w.files, p, row);
    CommitIsolated(w, p);
    CommitNewRow(w, p);
    CommitKeeps(w, p);
    hide Isolated, Good;
    GoodWritten(w, w', p, row);
  }

  lemma CommitView(w: World, p: Path)
    requires Good(w) && p in w.live && p != []
    ensures var w' := CommitWriter(w, p);
      && Nodes(w') == AddDirs(Nodes(w)[p := File(Pending(w)[p])], Parent(p), Directory)
      && Pending(w') == Pending(w) - {p}
      && Resume(w') == Resume(w)[p := Pending(w)[p]]
  {
    hide Good, RowIntact, WriterIntact, Kept, WriterKept, CommitWriter, TotalSize, Nodes, Pending, Resume, Joined,
        RowNode, Resumable;
    GoodWriter(w, p);
    PendingAt(w, p);
    var w' := CommitWriter(w, p);
    CommitNewRow(w, p);
    CommitFrame(w, p);
    CommitKeeps(w, p);
    ViewWritten(w, w', p, Row(TotalSize(w.live[p].segments), [], w.live[p].location));
    PendingKept(w, w', p);
    assert Pending(w') == Pending(w') - {p};
  }

  lemma CommitRefines(w: World, p: Path)
    requires Good(w) && Legal(View(w), Commit(p))
    ensures Good(CommitWriter(w, p))
    ensures View(CommitWriter(w, p)) == Apply(View(w), Commit(p))
  {
    hide Good, CommitWriter, CanHold, Nodes, Pending, Resume;
    CanHoldRows(w, p);
    CommitGood(w, p);
    CommitView(w, p);
  }

  lemma PendingAt(w: World, p: Path)
    requires Good(w) && p in w.live
    ensures Pending(w)[p] == Joined(w.objects, w.live[p].segments) && w.live[p].location != ""
  {
  }

  /* ---------- Cancel and Abandon ---------- */

  lemma DetachGood(w: World, p: Path)
    requires Good(w)
    ensures Good(w.(live := w.live - {p}))
  {
    var w' := w.(live := w.live - {p});
    hide Tree, SegmentRows, Stored, Numbered, TotalSize;
    forall q | q in w'.files ensures RowIntact(w', q) { GoodRow(w, q); }
    forall q | q in w'.live ensures WriterIntact(w', q) { GoodWriter(w, q); }
  }

  lemma DetachView(w: World, p: Path)
    ensures View(w.(live := w.live - {p})) == View(w).(pending := View(w).pending - {p})
  {
    hide Joined, SegmentRows;
    var w' := w.(live := w.live - {p});
    assert Nodes(w') == Nodes(w);
    assert Resume(w') == Resume(w);
  }

  lemma CancelPresent(w: World, p: Path)
    requires Good(w) && Tree(w.files) && p != [] && p in w.files
    requires forall q | q in w.live && q != p :: !AtOrBelow(p, q)
    ensures Good(CancelWriter(w, p)) && View(CancelWriter(w, p)) == Apply(View(w), Cancel(p))
  {
    hide Good, Tree, View, Pruned, DeletePath, AtOrBelow;
    DeletePathIsPruned(w, p);
    PrunedGood(w, p);
    PrunedView(w, p);
  }

  lemma CancelAbsent(w: World, p: Path)
    requires Good(w) && Tree(w.files) && p != [] && p !in w.files
    ensures Good(CancelWriter(w, p)) && View(CancelWriter(w, p)) == Apply(View(w), Cancel(p))
  {
    hide Good, Tree, View, AtOrBelow;
    NothingToPrune(w, p);
    DetachGood(w, p);
    DetachView(w, p);
  }

  lemma CancelRefines(w: World, p: Path)
    requires Good(w) && Legal(View(w), Cancel(p))
    ensures Good(CancelWriter(w, p))
    ensures View(CancelWriter(w, p)) == Apply(View(w), Cancel(p))
  {
    hide Good, Tree, Legal, View, CancelWriter, Apply;
    CancelTarget(w, p);
    if p in w.files { CancelPresent(w, p); } else { CancelAbsent(w, p); }
  }

  lemma CancelTarget(w: World, p: Path)
    requires Good(w) && Legal(View(w), Cancel(p))
    ensures p != [] && Tree(w.files)
    ensures p in w.files ==> forall q | q in w.live && q != p :: !AtOrBelow(p, q)
  {
    CancelWriters(View(w), p);
    GoodIsTree(w);
    assert View(w).pending.Keys == w.live.Keys && View(w).nodes.Keys == w.files.Keys;
    hide Legal, View, AtOrBelow, Good;
    GoodWriter(w, p);
  }

  lemma CancelWriters(fs: Fs, p: Path)
    requires Legal(fs, Cancel(p))
    ensures p in fs.pending
    ensures p in fs.nodes ==> forall q | q in fs.pending && q != p :: !AtOrBelow(p, q)
  {
  }

  /* ---------- a write that fails half-way ---------- */

  /** The segment was uploaded, but could not be recorded. */
  function Unrecorded(w: World, p: Path, bytes: Bytes): World
    requires p in w.live
  {
    var Writer(location, segments) := w.live[p];
    w.(objects := w.objects[SegmentName(location, |segments| + 1) := Blob(bytes)])
  }

  lemma UnrecordedAgree(w: World, p: Path, bytes: Bytes, location: Location)
    requires p in w.live && location != w.live[p].location
    ensures Agree(w, Unrecorded(w, p, bytes), location)
  {
  }

  lemma UnrecordedWriter(w: World, p: Path, bytes: Bytes, q: Path)
    requires Good(w) && p in w.live && q in w.live
    ensures WriterKept(w, Unrecorded(w, p, bytes), q)
  {
    GoodWriter(w, q);
    hide SegmentRows, Joined, Numbered, Stored, Tree, RowIntact;
    var Writer(location, segments) := w.live[p];
    if q == p {
      SegmentBeyond(w.objects, segments, location, |segments| + 1, bytes);
    } else {
      hide Agree;
      UnrecordedAgree(w, p, bytes, w.live[q].location);
      WriterFrame(w, Unrecorded(w, p, bytes), q);
    }
  }

  lemma UnrecordedRow(w: World, p: Path, bytes: Bytes, q: Path)
    requires Good(w) && p in w.live && q in w.files
    ensures Kept(w, q, Unrecorded(w, p, bytes), q)
  {
    GoodRow(w, q);
    GoodWriter(w, p);
    hide SegmentRows, Joined, Numbered, Stored, Tree;
    if q == p && LocationAt(w, p) != "" {
      UnrecordedOwnRow(w, p, bytes);
    } else {
      hide Agree;
      if LocationAt(w, q) != "" { UnrecordedAgree(w, p, bytes, LocationAt(w, q)); }
      RowFrame(w, q, Unrecorded(w, p, bytes), q);
    }
  }

  lemma UnrecordedOwnRow(w: World, p: Path, bytes: Bytes)
    requires p in w.live && p in w.files && WriterIntact(w, p) && RowIntact(w, p)
    requires LocationAt(w, p) == w.live[p].location != ""
    ensures Kept(w, p, Unrecorded(w, p, bytes), p)
  {
    hide SegmentRows, Joined, Numbered, Stored;
    var Writer(location, segments) := w.live[p];
    var content := w.objects[ContentName(location)];
    SegmentBeyond(w.objects, segments, location, |segments| + 1, bytes);
    if content.Manifest? {
      PrefixStored(w.objects, content.segments, segments, location);
      SegmentBeyond(w.objects, content.segments, location, |segments| + 1, bytes);
    }
  }

  /** It is invisible, and the next session overwrites it. */
  lemma UnrecordedInvisible(w: World, p: Path, bytes: Bytes)
    requires Good(w) && p in w.live
    ensures Good(Unrecorded(w, p, bytes))
    ensures View(Unrecorded(w, p, bytes)) == View(w)
  {
    var w' := Unrecorded(w, p, bytes);
    assert Tree(w'.files) && Isolated(w');
    hide Good, Tree, Isolated, Kept, WriterKept, Nodes, Pending, Resume;
    forall q | q in w.files ensures Kept(w, q, w', q) { UnrecordedRow(w, p, bytes, q); }
    forall q | q in w.live ensures WriterKept(w, w', q) { UnrecordedWriter(w, p, bytes, q); }
    KeptGood(w, w');
    AllKept(w, w');
    PendingSame(w, w');
  }

  lemma KeptGood(w: World, w': World)
    requires w'.files == w.files && w'.live == w.live && Tree(w'.files) && Isolated(w')
    requires forall q | q in w.files :: Kept(w, q, w', q)
    requires forall q | q in w.live :: WriterKept(w, w', q)
    ensures Good(w')
  {
    hide Tree, Isolated, RowIntact, WriterIntact, RowNode, Resumable, Joined;
    forall q | q in w'.files ensures RowIntact(w', q) { assert Kept(w, q, w', q); }
    forall q | q in w'.live ensures WriterIntact(w', q) { assert WriterKept(w, w', q); }
  }

  lemma AllKept(w: World, w': World)
    requires w'.files == w.files
    requires forall q | q in w.files :: Kept(w, q, w', q)
    ensures Nodes(w') == Nodes(w) && Resume(w') == Resume(w)
  {
    hide RowIntact, RowNode, Resumable;
  }
}
