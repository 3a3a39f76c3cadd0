/** Every legal call keeps the invariants of the driver and does to the visible file system exactly
    what the specification in FileSystem says. */
module Refinement {
  import opened Paths
  import opened Storage
  import opened FileSystem
  import opened World

  /* ---------- what a row and a writer depend on ---------- */

  lemma StoredFrame(a: Bucket, b: Bucket, segments: seq<Segment>, location: Location)
    requires Stored(a, segments) && Numbered(segments, location) && ObjectsAgree(a, b, location)
    ensures Stored(b, segments) && Joined(a, segments) == Joined(b, segments)
  {
    forall i | 0 <= i < |segments|
      ensures SegmentStored(b, segments[i])
      ensures var n := SegmentName(segments[i].location, segments[i].number); BlobData(a, n) == BlobData(b, n)
    {
      assert SegmentStored(a, segments[i]);
      assert SegmentName(segments[i].location, segments[i].number).location == location;
    }
    JoinedFrame(a, b, segments);
  }

  /** What is stored at a location keeps its meaning as long as nothing there is changed. */
  lemma ContentFrame(w: World, w': World, row: Row)
    requires ContentIntact(w, row)
    requires ObjectsAgree(w.objects, w'.objects, row.location) && SegmentsAgree(w.segments, w'.segments, row.location)
    ensures ContentIntact(w', row)
    ensures RowNode(w', row) == RowNode(w, row) && Resumable(w', row.location) == Resumable(w, row.location)
  {
    hide SegmentRows, Numbered, Stored, Joined, TotalSize, ObjectsAgree, SegmentsAgree;
    var rows := SegmentRows(w.segments, row.location);
    SegmentRowsFrame(w.segments, w'.segments, row.location);
    StoredFrame(w.objects, w'.objects, rows, row.location);
    SameObject(w.objects, w'.objects, ContentName(row.location));
    if w.objects[ContentName(row.location)].Manifest? {
      var segments := w.objects[ContentName(row.location)].segments;
      PrefixNumbered(w.objects, segments, rows, row.location);
      StoredFrame(w.objects, w'.objects, segments, row.location);
    }
  }

  lemma SameObject(a: Bucket, b: Bucket, n: ObjectName)
    requires ObjectsAgree(a, b, n.location)
    ensures (n in a <==> n in b) && (n in a ==> a[n] == b[n])
  {
  }

  lemma PrefixNumbered(objects: Bucket, segments: seq<Segment>, rows: seq<Segment>, location: Location)
    requires segments <= rows && Stored(objects, rows) && Numbered(rows, location)
    ensures Stored(objects, segments) && Numbered(segments, location)
  {
    forall i | 0 <= i < |segments|
      ensures SegmentStored(objects, segments[i]) && segments[i].location == location && segments[i].number == i + 1
    {
      assert segments[i] == rows[i] && SegmentStored(objects, rows[i]);
    }
  }

  /** The row at p in w is the row at p' in w', and it stands for the same node. */
  predicate Kept(w: World, p: Path, w': World, p': Path) {
    && p in w.files && p' in w'.files && w'.files[p'] == w.files[p]
    && RowIntact(w', p')
    && RowNode(w', w.files[p]) == RowNode(w, w.files[p])
    && (LocationAt(w, p) != "" ==> Resumable(w', LocationAt(w, p)) == Resumable(w, LocationAt(w, p)))
  }

  ghost predicate Agree(w: World, w': World, location: Location) {
    ObjectsAgree(w.objects, w'.objects, location) && SegmentsAgree(w.segments, w'.segments, location)
  }

  lemma RowFrame(w: World, p: Path, w': World, p': Path)
    requires p in w.files && p' in w'.files && w'.files[p'] == w.files[p] && RowIntact(w, p)
    requires LocationAt(w, p) != "" ==> Agree(w, w', LocationAt(w, p))
    ensures Kept(w, p, w', p')
  {
    var row := w.files[p];
    if !row.IsDir() && row.location != "" {
      hide ContentIntact;
      ContentFrame(w, w', row);
    }
  }

  predicate WriterKept(w: World, w': World, p: Path) {
    && p in w.live && p in w'.live && w'.live[p] == w.live[p]
    && WriterIntact(w', p)
    && Joined(w'.objects, w.live[p].segments) == Joined(w.objects, w.live[p].segments)
  }

  lemma WriterFrame(w: World, w': World, p: Path)
    requires p in w.live && p in w'.live && w'.live[p] == w.live[p] && WriterIntact(w, p)
    requires Agree(w, w', w.live[p].location)
    ensures WriterKept(w, w', p)
  {
    SegmentRowsFrame(w.segments, w'.segments, w.live[p].location);
    StoredFrame(w.objects, w'.objects, w.live[p].segments, w.live[p].location);
  }

  /** What Good says about one row and about one writer. */
  lemma GoodRow(w: World, q: Path)
    requires Good(w) && q in w.files
    ensures RowIntact(w, q)
    ensures q in w.live && LocationAt(w, q) != "" ==> w.live[q].location == LocationAt(w, q)
  {
  }

  lemma GoodWriter(w: World, q: Path)
    requires Good(w) && q in w.live
    ensures WriterIntact(w, q)
  {
  }

  /** From single paths to the whole view: the rows and writers that are left mean what they meant. */
  lemma ViewKept(w: World, w': World, top: Path)
    requires w'.files == RemoveTree(w.files, top)
    requires forall q | q in w'.files :: Kept(w, q, w', q)
    ensures Nodes(w') == RemoveTree(Nodes(w), top)
    ensures Resume(w') == RemoveTree(Resume(w), top)
  {
    hide RowIntact, RowNode, Resumable;
  }

  lemma PendingKept(w: World, w': World, p: Path)
    requires w'.live.Keys - {p} == w.live.Keys - {p}
    requires forall q | q in w'.live && q != p :: WriterKept(w, w', q)
    ensures Pending(w') - {p} == Pending(w) - {p} && Pending(w').Keys == w'.live.Keys
  {
    hide WriterIntact, Joined;
    assert forall q | q != p :: q in w'.live <==> q in w'.live.Keys - {p};
    assert forall q | q != p :: q in w.live <==> q in w.live.Keys - {p};
  }

  lemma PendingSame(w: World, w': World)
    requires w'.live == w.live
    requires forall q | q in w'.live :: WriterKept(w, w', q)
    ensures Pending(w') == Pending(w)
  {
    hide WriterIntact, Joined;
  }

  lemma DirectoryNode(w: World)
    ensures RowNode(w, DIRECTORY) == Directory
  {
  }

  /** The view after writing one row and the directories above it. */
  lemma NodesWritten(w: World, w': World, p: Path, row: Row)
    requires w'.files == WriteRow(w.files, p, row) && p != []
    requires forall q | q in w.files && q != p :: Kept(w, q, w', q)
    ensures Nodes(w') == AddDirs(Nodes(w)[p := RowNode(w', row)], Parent(p), Directory)
  {
    DirectoryNode(w');
    WrittenRows(w.files, w'.files, p, row);
    var nodes := AddDirs(Nodes(w)[p := RowNode(w', row)], Parent(p), Directory);
    hide RowIntact, RowNode, Resumable, AtOrBelow, WriteRow, SelfAndAbove;
    assert Nodes(w').Keys == nodes.Keys;
    forall q | q in nodes ensures Nodes(w')[q] == nodes[q] {
      NodeKept(w, w', p, q);
    }
  }

  lemma WrittenRows(files: map<Path, Row>, files': map<Path, Row>, p: Path, row: Row)
    requires files' == WriteRow(files, p, row) && p != []
    ensures files'.Keys == files.Keys + {p} + SelfAndAbove(Parent(p)) && files'[p] == row
    ensures forall q | q in files && q != p :: files'[q] == files[q]
    ensures forall q | q in files' && q != p && q !in files :: files'[q] == DIRECTORY
  {
    hide AtOrBelow;
  }

  lemma NodeKept(w: World, w': World, p: Path, q: Path)
    requires q in w.files && q != p ==> Kept(w, q, w', q)
    ensures q in w.files && q != p ==> q in w'.files && Nodes(w')[q] == Nodes(w)[q]
  {
    hide RowIntact, RowNode, Resumable;
  }

  lemma ResumeWritten(w: World, w': World, p: Path, row: Row)
    requires p in w'.files && w'.files[p] == row
    requires forall q | q in w.files && q != p :: Kept(w, q, w', q)
    requires forall q | q in w'.files && q != p && q !in w.files :: w'.files[q].location == ""
    ensures Resume(w') == if row.location == "" then Resume(w) - {p} else Resume(w)[p := Resumable(w', row.location)]
  {
    hide Resume, Kept, Resumable;
    forall q | q != p
      ensures q in Resume(w') <==> q in Resume(w)
      ensures q in Resume(w) ==> Resume(w')[q] == Resume(w)[q]
    {
      ResumeKept(w, w', q);
    }
    ResumeAt(w', p);
  }

  lemma ResumeKept(w: World, w': World, q: Path)
    requires q in w.files ==> Kept(w, q, w', q)
    requires q in w'.files && q !in w.files ==> w'.files[q].location == ""
    ensures q in Resume(w') <==> q in Resume(w)
    ensures q in Resume(w) ==> Resume(w')[q] == Resume(w)[q]
  {
    hide RowIntact, RowNode, Resumable;
  }

  lemma ResumeAt(w: World, p: Path)
    requires p in w.files
    ensures p in Resume(w) <==> w.files[p].location != ""
    ensures p in Resume(w) ==> Resume(w)[p] == Resumable(w, w.files[p].location)
  {
    hide Resumable;
  }

  lemma ViewWritten(w: World, w': World, p: Path, row: Row)
    requires w'.files == WriteRow(w.files, p, row) && p != []
    requires forall q | q in w.files && q != p :: Kept(w, q, w', q)
    ensures Nodes(w') == AddDirs(Nodes(w)[p := RowNode(w', row)], Parent(p), Directory)
    ensures Resume(w') == if row.location == "" then Resume(w) - {p} else Resume(w)[p := Resumable(w', row.location)]
  {
    hide Kept, Nodes, Resume, RowNode, Resumable, AtOrBelow;
    NodesWritten(w, w', p, row);
    ResumeWritten(w, w', p, row);
  }

  /** Writing a row: everything else in the table is still there, and new rows are directories above. */
  ghost predicate OthersKept(files: map<Path, Row>, files': map<Path, Row>, p: Path) {
    && (forall q | q in files && q != p :: q in files' && files'[q] == files[q])
    && (forall q | q in files' && q != p && q !in files :: files'[q] == DIRECTORY && q != [] && AtOrBelow(q, p))
  }

  /* ---------- delete ---------- */

  /** In a tree nothing lies below a path that has no row or a file's row. */
  lemma {:induction false} NothingBelow(files: map<Path, Row>, p: Path, q: Path)
    requires Tree(files) && q in files && p != [] && AtOrBelow(p, q)
    ensures p in files && (p != q ==> files[p].IsDir())
    decreases |q|
  {
    if p != q {
      AtOrBelowParent(p, q);
      if p == Parent(q) {
      } else {
        NothingBelow(files, p, Parent(q));
      }
    }
  }

  /** In a tree, whatever lies above a row is a directory. */
  lemma {:induction false} DirAbove(files: map<Path, Row>, q: Path, p: Path)
    requires Tree(files) && p in files && q != [] && AtOrBelow(q, p) && q != p
    ensures q in files && files[q].IsDir()
    decreases |p|
  {
    AtOrBelowParent(q, p);
    if q != Parent(p) { DirAbove(files, q, Parent(p)); }
  }

  /** In a tree, everything below a path hangs from it. */
  lemma TreeHangs(files: map<Path, Row>, top: Path, q: Path)
    requires Tree(files) && q in files && top != []
    ensures Hangs(files, top, q) <==> AtOrBelow(top, q)
  {
    if AtOrBelow(top, q) {
      forall k | |top| <= k < |q| ensures q[..k] in files && files[q[..k]].IsDir() {
        assert AtOrBelow(q[..k], q);
        DirAbove(files, q[..k], q);
      }
    }
  }

  /** In a tree a deletion takes along everything below the path. */
  lemma TreeDeleted(w: World, top: Path)
    requires Tree(w.files) && top != [] && top in w.files
    ensures DeletePath(w, top) == DeleteTree(w, top)
  {
    hide Tree, Hangs, AtOrBelow;
    forall q | q in w.files ensures Hangs(w.files, top, q) <==> AtOrBelow(top, q) { TreeHangs(w.files, top, q); }
    assert Unhung(w.files, top) == RemoveTree(w.files, top);
    assert HangingLocations(w.files, top) == LocationsIn(w.files, top);
  }

  lemma DeleteTreeKeepsTree(files: map<Path, Row>, top: Path)
    requires Tree(files)
    ensures Tree(RemoveTree(files, top))
  {
    forall p | p in RemoveTree(files, top) && |p| != 1
      ensures Parent(p) in RemoveTree(files, top)
    {
      if AtOrBelow(top, Parent(p)) {
        AtOrBelowTransitive(top, Parent(p), p);
      }
    }
  }

  /** Deleting the tree at top, and with it the writer of top if there is one. */
  function Pruned(w: World, top: Path): World {
    DeleteTree(w, top).(live := w.live - {top})
  }

  lemma PrunedAgree(w: World, top: Path, q: Path)
    requires Isolated(w) && !AtOrBelow(top, q)
    ensures LocationAt(w, q) != "" ==> Agree(w, Pruned(w, top), LocationAt(w, q))
    ensures q in w.live ==> Agree(w, Pruned(w, top), w.live[q].location)
  {
  }

  lemma PrunedRow(w: World, top: Path, q: Path)
    requires Good(w) && q in w.files && !AtOrBelow(top, q)
    ensures Kept(w, q, Pruned(w, top), q)
  {
    hide RowIntact, WriterIntact, Tree, Agree;
    GoodRow(w, q);
    PrunedAgree(w, top, q);
    RowFrame(w, q, Pruned(w, top), q);
  }

  lemma PrunedWriter(w: World, top: Path, q: Path)
    requires Good(w) && q in w.live && q != top && !AtOrBelow(top, q)
    ensures WriterKept(w, Pruned(w, top), q)
  {
    hide RowIntact, WriterIntact, Tree, Agree;
    GoodWriter(w, q);
    PrunedAgree(w, top, q);
    WriterFrame(w, Pruned(w, top), q);
  }

  lemma PrunedIsolated(w: World, top: Path)
    requires Isolated(w)
    ensures Isolated(Pruned(w, top))
  {
  }

  lemma PrunedView(w: World, top: Path)
    requires Good(w)
    requires forall q | q in w.live && q != top :: !AtOrBelow(top, q)
    ensures forall q | q in Pruned(w, top).files :: Kept(w, q, Pruned(w, top), q)
    ensures forall q | q in Pruned(w, top).live :: WriterKept(w, Pruned(w, top), q)
    ensures View(Pruned(w, top)) ==
        Fs(RemoveTree(View(w).nodes, top), View(w).pending - {top}, RemoveTree(View(w).resume, top))
  {
    hide Good, Kept, WriterKept, Nodes, Resume, Pending;
    var w' := Pruned(w, top);
    forall q | q in w'.files ensures Kept(w, q, w', q) { PrunedRow(w, top, q); }
    forall q | q in w'.live ensures WriterKept(w, w', q) { PrunedWriter(w, top, q); }
    ViewKept(w, w', top);
    PendingKept(w, w', top);
    assert Pending(w') == Pending(w') - {top};
  }

  lemma PrunedGood(w: World, top: Path)
    requires Good(w)
    requires forall q | q in w.live && q != top :: !AtOrBelow(top, q)
    ensures Good(Pruned(w, top))
  {
    DeleteTreeKeepsTree(w.files, top);
    PrunedIsolated(w, top);
    PrunedView(w, top);
    hide Tree, Isolated, RowIntact, WriterIntact;
  }

  /** Where there is no row there is no tree: removing it changes nothing. */
  lemma NothingToPrune(w: World, top: Path)
    requires Tree(w.files) && top !in w.files && top != []
    ensures Pruned(w, top) == w.(live := w.live - {top})
    ensures RemoveTree(View(w).nodes, top) == View(w).nodes
    ensures RemoveTree(View(w).resume, top) == View(w).resume
  {
    NoneBelow(w.files, top);
    hide Tree, RowNode, Resumable, AtOrBelow;
    NothingDropped(w, top);
    assert RemoveTree(w.files, top) == w.files;
  }

  lemma NoneBelow(files: map<Path, Row>, top: Path)
    requires Tree(files) && top !in files && top != []
    ensures forall q | q in files :: !AtOrBelow(top, q)
  {
    hide AtOrBelow, Tree;
    forall q | q in files ensures !AtOrBelow(top, q) {
      if AtOrBelow(top, q) { NothingBelow(files, top, q); }
    }
  }

  lemma NothingDropped(w: World, top: Path)
    requires forall q | q in w.files :: !AtOrBelow(top, q)
    ensures DropLocations(w.objects, LocationsIn(w.files, top)) == w.objects
  {
    hide AtOrBelow;
    assert LocationsIn(w.files, top) == {};
  }
}
