/** What a put or commit leaves behind that has failed half-way: damage that stays at its path, does not
    concern calls elsewhere, and goes away when the call is repeated. Only a deletion above the path
    notices it: it does not get there if a directory between is missing. */
module Damage {
  import opened Paths
  import opened Storage
  import opened FileSystem
  import opened World
  import opened Refinement
  import opened Steps
  import opened Runs

  /** An object that a failed call at p may have left or lost. The segments of an open writer are not
      among them. */
  predicate Stray(w: World, p: Path, n: ObjectName) {
    if p in w.live then n == ContentName(w.live[p].location)
    else LocationAt(w, p) != "" && n.location == LocationAt(w, p)
  }

  /** The world with nothing at p, but all directories above it. */
  function Healed(w: World, p: Path): World {
    World(AddDirs(w.files - {p}, Parent'(p), DIRECTORY),
          w.segments,
          map n | n in w.objects && !Stray(w, p, n) :: w.objects[n],
          w.live)
  }

  /** All is well but for the row at p, its objects, and perhaps missing directories above p. */
  ghost predicate GoodExcept(w: World, p: Path) {
    CanHoldRow(w.files, p) && Isolated(w) && Good(Healed(w, p))
  }

  /* ---------- everything elsewhere means what it meant ---------- */

  lemma HealedFrame(w: World, p: Path)
    ensures var h := Healed(w, p);
      && h.live == w.live && h.segments == w.segments && h.files == AddDirs(w.files - {p}, Parent'(p), DIRECTORY)
      && (forall q | q in w.files && q != p :: q in h.files && h.files[q] == w.files[q])
      && (forall q | q in h.files && (q !in w.files || q == p) :: h.files[q] == DIRECTORY && q != p)
      && (p != [] ==> p !in h.files)
  {
    forall q | q in SelfAndAbove(Parent'(p)) ensures q != p {}
  }

  lemma HealedAgree(w: World, p: Path, location: Location)
    requires if p in w.live then location != w.live[p].location
             else LocationAt(w, p) == "" || location != LocationAt(w, p)
    ensures Agree(w, Healed(w, p), location) && Agree(Healed(w, p), w, location)
  {
  }

  /** The locations of other rows and writers are none of p's. */
  lemma OtherLocation(w: World, p: Path, q: Path)
    requires Isolated(w) && q != p
    ensures LocationAt(w, q) != "" && q in w.files ==>
        Agree(w, Healed(w, p), LocationAt(w, q)) && Agree(Healed(w, p), w, LocationAt(w, q))
    ensures q in w.live ==> Agree(w, Healed(w, p), w.live[q].location) && Agree(Healed(w, p), w, w.live[q].location)
  {
    hide Agree, Healed;
    if q in w.files && LocationAt(w, q) != "" { HealedAgree(w, p, LocationAt(w, q)); }
    if q in w.live { HealedAgree(w, p, w.live[q].location); }
  }

  /** Segments do not depend on content objects. */
  lemma SameSegments(a: Bucket, b: Bucket, segments: seq<Segment>, location: Location)
    requires Stored(a, segments) && Numbered(segments, location)
    requires forall k: nat :: var n := SegmentName(location, k);
      (n in a <==> n in b) && (n in a ==> a[n] == b[n])
    ensures Stored(b, segments) && Joined(a, segments) == Joined(b, segments)
  {
    forall i | 0 <= i < |segments|
      ensures SegmentStored(b, segments[i])
      ensures var n := SegmentName(segments[i].location, segments[i].number); BlobData(a, n) == BlobData(b, n)
    {
      assert SegmentStored(a, segments[i]);
    }
    JoinedFrame(a, b, segments);
  }

  lemma OwnSegments(w: World, p: Path, k: nat)
    requires p in w.live
    ensures var n := SegmentName(w.live[p].location, k); var h := Healed(w, p);
      (n in w.objects <==> n in h.objects) && (n in w.objects ==> w.objects[n] == h.objects[n])
  {
  }

  lemma OwnWriter(w: World, p: Path)
    requires p in w.live
    ensures WriterIntact(w, p) ==> WriterKept(w, Healed(w, p), p)
    ensures WriterIntact(Healed(w, p), p) ==> WriterKept(Healed(w, p), w, p)
  {
    var h := Healed(w, p);
    var Writer(location, segments) := w.live[p];
    forall k: nat ensures var n := SegmentName(location, k);
      (n in w.objects <==> n in h.objects) && (n in w.objects ==> w.objects[n] == h.objects[n])
    {
      OwnSegments(w, p, k);
    }
    assert h.live == w.live && h.segments == w.segments;
    hide Healed, Stored, Numbered, Joined, SegmentRows;
    if WriterIntact(w, p) { SameSegments(w.objects, h.objects, segments, location); }
    if WriterIntact(h, p) { SameSegments(h.objects, w.objects, segments, location); }
  }

  /** Rows elsewhere and all writers stand for the same in the damaged and in the healed world. */
  lemma RowElsewhere(w: World, p: Path, q: Path)
    requires Isolated(w) && q in w.files && q != p
    ensures RowIntact(w, q) ==> Kept(w, q, Healed(w, p), q)
    ensures RowIntact(Healed(w, p), q) ==> Kept(Healed(w, p), q, w, q)
  {
    hide RowIntact, Isolated, Healed, Agree, Kept;
    HealedFrame(w, p);
    OtherLocation(w, p, q);
    if RowIntact(w, q) { RowFrame(w, q, Healed(w, p), q); }
    if RowIntact(Healed(w, p), q) { RowFrame(Healed(w, p), q, w, q); }
  }

  lemma WriterElsewhere(w: World, p: Path, q: Path)
    requires Isolated(w) && q in w.live
    ensures WriterIntact(w, q) ==> WriterKept(w, Healed(w, p), q)
    ensures WriterIntact(Healed(w, p), q) ==> WriterKept(Healed(w, p), w, q)
  {
    hide WriterIntact, Isolated, Healed, Agree, WriterKept;
    HealedFrame(w, p);
    if q == p {
      OwnWriter(w, p);
    } else {
      OtherLocation(w, p, q);
      if WriterIntact(w, q) { WriterFrame(w, Healed(w, p), q); }
      if WriterIntact(Healed(w, p), q) { WriterFrame(Healed(w, p), w, q); }
    }
  }

  /** Under damage at p every other path has its row and content intact and every writer its segments. */
  lemma ElsewhereIntact(w: World, p: Path)
    requires GoodExcept(w, p)
    ensures forall q | q in w.files && q != p :: Kept(Healed(w, p), q, w, q)
    ensures forall q | q in w.live :: WriterKept(Healed(w, p), w, q)
  {
    hide Isolated, Healed, Kept, WriterKept, CanHoldRow, Good;
    HealedFrame(w, p);
    forall q | q in w.files && q != p ensures Kept(Healed(w, p), q, w, q) {
      GoodRow(Healed(w, p), q);
      RowElsewhere(w, p, q);
    }
    forall q | q in w.live ensures WriterKept(Healed(w, p), w, q) {
      GoodWriter(Healed(w, p), q);
      WriterElsewhere(w, p, q);
    }
  }

  /** What clients see is the healed file system, with something or nothing at p and perhaps some of
      the directories above it missing. */
  lemma DamagedView(w: World, p: Path)
    requires GoodExcept(w, p)
    ensures View(Healed(w, p)).nodes == AddDirs(View(w).nodes - {p}, Parent'(p), Directory)
    ensures View(Healed(w, p)).pending == View(w).pending
    ensures View(Healed(w, p)).resume == View(w).resume - {p}
  {
    ElsewhereIntact(w, p);
    hide GoodExcept, Kept, WriterKept;
    HealedFrame(w, p);
    HealedNodes(w, p);
    HealedResume(w, p);
    hide Healed;
    PendingSame(Healed(w, p), w);
  }

  lemma HealedNodes(w: World, p: Path)
    requires forall q | q in w.files && q != p :: Kept(Healed(w, p), q, w, q)
    ensures Nodes(Healed(w, p)) == AddDirs(Nodes(w) - {p}, Parent'(p), Directory)
  {
    var h := Healed(w, p);
    HealedFrame(w, p);
    DirectoryNode(h);
    var nodes := AddDirs(Nodes(w) - {p}, Parent'(p), Directory);
    hide RowIntact, RowNode, Resumable, AtOrBelow, Healed, SelfAndAbove;
    assert h.files.Keys == nodes.Keys;
    forall q | q in nodes ensures Nodes(h)[q] == nodes[q] {
      HealedNode(w, h, p, q);
    }
  }

  lemma HealedNode(w: World, h: World, p: Path, q: Path)
    requires q in w.files && q != p ==> Kept(h, q, w, q)
    ensures q in w.files && q != p ==> q in h.files && Nodes(h)[q] == Nodes(w)[q]
  {
    hide RowIntact, RowNode, Resumable;
  }

  lemma HealedResume(w: World, p: Path)
    requires forall q | q in w.files && q != p :: Kept(Healed(w, p), q, w, q)
    ensures Resume(Healed(w, p)) == Resume(w) - {p}
  {
    hide RowIntact, RowNode, Resumable, Healed;
    var h := Healed(w, p);
    HealedFrame(w, p);
    hide AddDirs, SelfAndAbove;
    forall q | q in w.files && q != p && w.files[q].location != ""
      ensures Resumable(h, w.files[q].location) == Resumable(w, w.files[q].location)
    {
      assert Kept(h, q, w, q);
    }
    hide Kept;
    SameResume(w, h, p);
  }

  lemma SameResume(w: World, h: World, p: Path)
    requires forall q | q in w.files && q != p :: q in h.files && h.files[q] == w.files[q]
    requires forall q | q in h.files && (q !in w.files || q == p) :: h.files[q] == DIRECTORY && q != p
    requires p in h.files ==> h.files[p].location == ""
    requires forall q | q in w.files && q != p && w.files[q].location != "" ::
      Resumable(h, w.files[q].location) == Resumable(w, w.files[q].location)
    ensures Resume(h) == Resume(w) - {p}
  {
    hide Resumable;
    assert forall q :: q in Resume(h) <==> q in Resume(w) && q != p;
  }

  /* ---------- a good world is good but for any path ---------- */

  lemma HealedTree(files: map<Path, Row>, p: Path)
    requires Tree(files) && CanHoldRow(files, p)
    ensures Tree(AddDirs(files - {p}, Parent'(p), DIRECTORY))
  {
    var row := Row(0, [], "");
    WriteRowTree(files, p, row);
    RowTaken(files, p, row);
    hide Tree, CanHoldRow, AtOrBelow, WriteRow, AddDirs;
    WithoutFileTree(WriteRow(files, p, row), p);
  }

  lemma RowTaken(files: map<Path, Row>, p: Path, row: Row)
    ensures var r := WriteRow(files, p, row);
      p in r && r[p] == row && r - {p} == AddDirs(files - {p}, Parent'(p), DIRECTORY)
  {
    NotAboveItself(p);
    hide SelfAndAbove, AtOrBelow;
  }

  lemma HealedIsolated(w: World, p: Path)
    requires Isolated(w)
    ensures Isolated(Healed(w, p))
  {
    HealedFrame(w, p);
    hide Healed, AddDirs, SelfAndAbove, AtOrBelow;
  }

  lemma GoodIsGoodExcept(w: World, p: Path)
    requires Good(w) && CanHoldRow(w.files, p)
    ensures GoodExcept(w, p)
  {
    var h := Healed(w, p);
    HealedTree(w.files, p);
    HealedIsolated(w, p);
    HealedFrame(w, p);
    hide Tree, Isolated, RowIntact, WriterIntact, CanHoldRow, Healed;
    forall q | q in h.files ensures RowIntact(h, q) {
      if q in w.files && q != p { RowElsewhere(w, p, q); } else { DirectoryIntact(h, q); }
    }
    forall q | q in h.live ensures WriterIntact(h, q) { WriterElsewhere(w, p, q); }
  }

  /* ---------- repeating the call ---------- */

  lemma RetriedPut(w: World, p: Path, bytes: Bytes, location: Location)
    requires p != [] && p !in w.live && (|bytes| > MAX_INLINE_SIZE ==> Fresh(w, location))
    ensures PutFile(Healed(w, p), p, bytes, location) == PutFile(w, p, bytes, location)
    ensures |bytes| > MAX_INLINE_SIZE ==> Fresh(Healed(w, p), location)
  {
    RetriedObjects(w, p, bytes, location);
    if |bytes| > MAX_INLINE_SIZE { FreshHealed(w, p, location); }
    hide PutFile, Fresh, Healed, WriteRow;
    HealedFrame(w, p);
    RetriedRow(w.files, p, if |bytes| > MAX_INLINE_SIZE then Row(|bytes|, [], location) else Row(|bytes|, bytes, ""));
    PutFrame(w, p, bytes, location);
    PutFrame(Healed(w, p), p, bytes, location);
  }

  lemma RetriedObjects(w: World, p: Path, bytes: Bytes, location: Location)
    requires p != [] && p !in w.live
    ensures PutFile(Healed(w, p), p, bytes, location).objects == PutFile(w, p, bytes, location).objects
  {
    HealedFrame(w, p);
    hide AtOrBelow, WriteRow, AddDirs;
    var kept := if LocationAt(w, p) == "" then w.objects else DropLocations(w.objects, {LocationAt(w, p)});
    assert Healed(w, p).objects == kept;
  }

  lemma RetriedRow(files: map<Path, Row>, p: Path, row: Row)
    requires p != []
    ensures WriteRow(AddDirs(files - {p}, Parent'(p), DIRECTORY), p, row) == WriteRow(files, p, row)
  {
    NotAboveItself(p);
    hide AtOrBelow, SelfAndAbove;
  }

  /** However the last put at p has failed: once it is repeated successfully, all is well again. */
  lemma PutHeals(w: World, p: Path, bytes: Bytes, location: Location)
    requires GoodExcept(w, p) && p !in w.live && (|bytes| > MAX_INLINE_SIZE ==> Fresh(w, location))
    ensures Good(PutFile(w, p, bytes, location))
    ensures View(PutFile(w, p, bytes, location)) == Apply(View(w), Put(p, bytes))
  {
    HealedCanHold(w, p);
    RetriedPut(w, p, bytes, location);
    SamePending(w, p);
    hide GoodExcept, Good, Fresh, Healed, View, PutFile, CanHold, Apply;
    GoodHealed(w, p);
    PutRefines(Healed(w, p), p, bytes, location);
    DamagedView(w, p);
    SameAfterPut(View(w), View(Healed(w, p)), p, bytes);
  }

  lemma GoodHealed(w: World, p: Path)
    requires GoodExcept(w, p)
    ensures Good(Healed(w, p)) && p != []
  {
  }

  lemma SamePending(w: World, p: Path)
    ensures p in View(Healed(w, p)).pending <==> p in w.live
  {
  }

  lemma HealedCanHold(w: World, p: Path)
    requires GoodExcept(w, p)
    ensures CanHold(View(Healed(w, p)), p)
  {
    hide Isolated, Good, Healed;
    HealedFrame(w, p);
    CanHoldRows(Healed(w, p), p);
  }

  lemma SameAfterPut(a: Fs, b: Fs, p: Path, bytes: Bytes)
    requires p != [] && b.nodes == AddDirs(a.nodes - {p}, Parent'(p), Directory)
    requires b.pending == a.pending && b.resume == a.resume - {p}
    ensures Apply(b, Put(p, bytes)) == Apply(a, Put(p, bytes))
  {
    SameNodes(a.nodes, p, File(bytes));
    hide AddDirs;
    assert (a.resume - {p})[p := []] == a.resume[p := []];
    assert a.resume - {p} - {p} == a.resume - {p};
  }

  lemma SameNodes(nodes: map<Path, Node>, p: Path, node: Node)
    requires p != []
    ensures AddDirs(AddDirs(nodes - {p}, Parent'(p), Directory)[p := node], Parent'(p), Directory)
         == AddDirs(nodes[p := node], Parent'(p), Directory)
  {
    assert p !in SelfAndAbove(Parent'(p));
    hide AtOrBelow;
  }

  lemma RetriedCommit(w: World, p: Path)
    requires p != [] && p in w.live
    ensures CommitWriter(Healed(w, p), p) == CommitWriter(w, p)
  {
    var Writer(location, segments) := w.live[p];
    RetriedRow(w.files, p, Row(TotalSize(segments), [], location));
    hide AtOrBelow, WriteRow, AddDirs, TotalSize;
    assert Healed(w, p).objects[ContentName(location) := Manifest(segments)] ==
        w.objects[ContentName(location) := Manifest(segments)];
  }

  /** A commit that has failed can be repeated, and then all is well. */
  lemma CommitHeals(w: World, p: Path)
    requires GoodExcept(w, p) && p in w.live
    ensures Good(CommitWriter(w, p))
    ensures View(CommitWriter(w, p)) == Apply(View(w), Commit(p))
  {
    hide *;
    GoodHealed(w, p);
    HealedCommit(w, p);
    RetriedCommit(w, p);
    CommitRefines(Healed(w, p), p);
    DamagedView(w, p);
    SameAfterCommit(View(w), View(Healed(w, p)), p);
  }

  lemma HealedCommit(w: World, p: Path)
    requires GoodExcept(w, p) && p in w.live
    ensures Legal(View(Healed(w, p)), Commit(p)) && p in View(Healed(w, p)).pending
  {
    hide GoodExcept, CanHold, Healed, View;
    HealedCanHold(w, p);
    SamePending(w, p);
  }

  lemma SameAfterCommit(a: Fs, b: Fs, p: Path)
    requires p != [] && b.nodes == AddDirs(a.nodes - {p}, Parent'(p), Directory) && p in b.pending
    requires b.pending == a.pending && b.resume == a.resume - {p}
    ensures Apply(b, Commit(p)) == Apply(a, Commit(p))
  {
    SameNodes(a.nodes, p, File(a.pending[p]));
    hide AddDirs;
    assert (a.resume - {p})[p := a.pending[p]] == a.resume[p := a.pending[p]];
  }

  /** The call has the specified effect, and no damage at its path remains. */
  ghost predicate Heals(w: World, w': World, op: Op) {
    GoodExcept(w, op.path) ==> Good(w') && View(w') == Apply(View(w), op)
  }

  /* ---------- calls that have nothing to do with the damaged path ---------- */

  /** The rows at and above p, but for new directories, and the writer of p are as before. */
  ghost predicate PathKept(w: World, w': World, p: Path) {
    && (p in w'.files <==> p in w.files) && (p in w.files ==> w'.files[p] == w.files[p])
    && (p in w'.live <==> p in w.live) && (p in w.live ==> w'.live[p] == w.live[p])
    && forall r | r in w'.files && AtOrBelow(r, p) && r != p ::
         w'.files[r] == DIRECTORY || (r in w.files && w'.files[r] == w.files[r])
  }

  /** Healing before or after: the same, as far as rows and objects are concerned. */
  ghost predicate SameHealed(w: World, w': World, h': World, p: Path) {
    && h'.files == AddDirs(w'.files - {p}, Parent'(p), DIRECTORY)
    && ObjectsHealed(w, w'.objects, h'.objects, p)
    && h'.segments == w'.segments && h'.live == w'.live
  }

  ghost predicate ObjectsHealed(w: World, objects: Bucket, healed: Bucket, p: Path) {
    && (forall n :: n in healed <==> n in objects && !Stray(w, p, n))
    && (forall n | n in healed :: healed[n] == objects[n])
  }

  lemma HealedObjects(w: World, p: Path)
    ensures ObjectsHealed(w, w.objects, Healed(w, p).objects, p)
  {
  }

  lemma DropHealed(w: World, objects: Bucket, healed: Bucket, p: Path, locations: set<Location>)
    requires ObjectsHealed(w, objects, healed, p)
    ensures ObjectsHealed(w, DropLocations(objects, locations), DropLocations(healed, locations), p)
  {
    hide Stray;
  }

  lemma UploadHealed(w: World, objects: Bucket, healed: Bucket, p: Path, n: ObjectName, o: Object)
    requires ObjectsHealed(w, objects, healed, p) && !Stray(w, p, n)
    ensures ObjectsHealed(w, objects[n := o], healed[n := o], p)
  {
    hide Stray;
  }

  lemma HealedIs(w: World, w': World, h': World, p: Path)
    requires PathKept(w, w', p) && SameHealed(w, w', h', p)
    ensures Healed(w', p) == h'
  {
    hide AtOrBelow;
    assert forall n :: Stray(w', p, n) <==> Stray(w, p, n);
  }

  lemma UnrelatedRow(w: World, p: Path, q: Path)
    requires Unrelated(q, p)
    ensures var h := Healed(w, p);
      && (q in h.files <==> q in w.files) && (q in w.files ==> h.files[q] == w.files[q])
      && LocationAt(h, q) == LocationAt(w, q)
    ensures p !in SelfAndAbove(Parent'(q)) && q !in SelfAndAbove(Parent'(p)) && p != q
  {
    AboveOfUnrelated(q, p);
    AboveOfUnrelated(p, q);
  }

  lemma DirsCommute(files: map<Path, Row>, p: Path, q: Path, row: Row)
    requires Unrelated(q, p) && p !in SelfAndAbove(Parent'(q)) && q !in SelfAndAbove(Parent'(p)) && p != q
    ensures WriteRow(AddDirs(files - {p}, Parent'(p), DIRECTORY), q, row)
         == AddDirs(WriteRow(files, q, row) - {p}, Parent'(p), DIRECTORY)
  {
    hide AtOrBelow, Unrelated, SelfAndAbove;
    AddAllCommute(files, SelfAndAbove(Parent'(p)), SelfAndAbove(Parent'(q)), p, q, row, DIRECTORY);
  }

  lemma RowPathKept(w: World, w': World, p: Path, q: Path, row: Row)
    requires Unrelated(q, p) && w'.files == WriteRow(w.files, q, row)
    requires (p in w'.live <==> p in w.live) && (p in w.live ==> w'.live[p] == w.live[p])
    ensures PathKept(w, w', p)
  {
    UnrelatedRow(w, p, q);
  }

  /* Put */

  lemma PutUnrelated(w: World, p: Path, q: Path, bytes: Bytes, l: Location)
    requires Isolated(w) && Unrelated(q, p) && q !in w.live && (|bytes| > MAX_INLINE_SIZE ==> Fresh(w, l))
    ensures Healed(PutFile(w, q, bytes, l), p) == PutFile(Healed(w, p), q, bytes, l)
    ensures PathKept(w, PutFile(w, q, bytes, l), p) && Isolated(PutFile(w, q, bytes, l))
  {
    var w', h' := PutFile(w, q, bytes, l), PutFile(Healed(w, p), q, bytes, l);
    PutIsolated(w, q, bytes, l);
    var row := if |bytes| > MAX_INLINE_SIZE then Row(|bytes|, [], l) else Row(|bytes|, bytes, "");
    RowPathKept(w, w', p, q, row);
    UnrelatedRow(w, p, q);
    DirsCommute(w.files, p, q, row);
    PutObjects(w, p, q, bytes, l);
    hide *;
    PutFrame(w, q, bytes, l);
    PutFrame(Healed(w, p), q, bytes, l);
    HealedFrame(w, p);
    SameHealedIf(w, w', h', p, Healed(w, p), q, row);
    HealedIs(w, w', h', p);
  }

  lemma SameHealedIf(w: World, w': World, h': World, p: Path, h: World, q: Path, row: Row)
    requires h == Healed(w, p) && w'.files == WriteRow(w.files, q, row) && h'.files == WriteRow(h.files, q, row)
    requires WriteRow(AddDirs(w.files - {p}, Parent'(p), DIRECTORY), q, row) ==
        AddDirs(WriteRow(w.files, q, row) - {p}, Parent'(p), DIRECTORY)
    requires ObjectsHealed(w, w'.objects, h'.objects, p) && h'.segments == w'.segments && h'.live == w'.live
    ensures SameHealed(w, w', h', p)
  {
    hide WriteRow, AddDirs, ObjectsHealed, Stray;
  }

  lemma PutObjects(w: World, p: Path, q: Path, bytes: Bytes, l: Location)
    requires Unrelated(q, p) && (|bytes| > MAX_INLINE_SIZE ==> Fresh(w, l))
    ensures ObjectsHealed(w, PutFile(w, q, bytes, l).objects, PutFile(Healed(w, p), q, bytes, l).objects, p)
  {
    if |bytes| > MAX_INLINE_SIZE { FreshNotStray(w, p, l); }
    UnrelatedRow(w, p, q);
    hide Fresh, Unrelated, Stray, ObjectsHealed, Healed, WriteRow;
    HealedObjects(w, p);
    var h := Healed(w, p);
    DropHealed(w, w.objects, h.objects, p, {LocationAt(w, q)});
    var drop := LocationAt(w, q) != "";
    var kept := if drop then DropLocations(w.objects, {LocationAt(w, q)}) else w.objects;
    var keptHealed := if drop then DropLocations(h.objects, {LocationAt(w, q)}) else h.objects;
    if |bytes| > MAX_INLINE_SIZE { UploadHealed(w, kept, keptHealed, p, ContentName(l), Blob(bytes)); }
  }

  lemma FreshNotStray(w: World, p: Path, l: Location)
    requires Fresh(w, l)
    ensures forall n: ObjectName | n.location == l :: !Stray(w, p, n)
  {
  }

  /* Delete */

  lemma DeleteUnrelated(w: World, p: Path, q: Path)
    requires Unrelated(q, p)
    ensures Healed(DeletePath(w, q), p) == DeletePath(Healed(w, p), q)
    ensures PathKept(w, DeletePath(w, q), p) && (Isolated(w) ==> Isolated(DeletePath(w, q)))
  {
    var w', h' := DeletePath(w, q), DeletePath(Healed(w, p), q);
    UnrelatedRow(w, p, q);
    DeletePathKept(w, p, q);
    if q in w.files {
      DeleteCommutes(w, p, q);
      HealedObjects(w, p);
      DropHealed(w, w.objects, Healed(w, p).objects, p, HangingLocations(w.files, q));
      hide Isolated, PathKept, AddDirs, ObjectsHealed, Stray, Unrelated, Unhung, HangingLocations, DropLocations;
      SameHealedParts(w, w', h', p);
      HealedIs(w, w', h', p);
    }
  }

  lemma DeletePathKept(w: World, p: Path, q: Path)
    requires Unrelated(q, p)
    ensures PathKept(w, DeletePath(w, q), p) && (Isolated(w) ==> Isolated(DeletePath(w, q)))
  {
  }

  /** Healing changes nothing at and below q. */
  lemma HangsHealed(w: World, p: Path, q: Path, r: Path)
    requires Unrelated(q, p)
    ensures Hangs(Healed(w, p).files, q, r) <==> Hangs(w.files, q, r)
    ensures AtOrBelow(q, r) ==> (r in Healed(w, p).files <==> r in w.files)
    ensures AtOrBelow(q, r) && r in w.files ==> Healed(w, p).files[r] == w.files[r]
  {
    if AtOrBelow(q, r) {
      BelowHealed(w, p, q, r);
      forall k | |q| <= k < |r|
        ensures q[..] <= r[..k] && (r[..k] in Healed(w, p).files <==> r[..k] in w.files)
        ensures r[..k] in w.files ==> Healed(w, p).files[r[..k]] == w.files[r[..k]]
      {
        assert AtOrBelow(q, r[..k]);
        BelowHealed(w, p, q, r[..k]);
      }
    }
  }

  lemma BelowHealed(w: World, p: Path, q: Path, r: Path)
    requires Unrelated(q, p) && AtOrBelow(q, r)
    ensures r in Healed(w, p).files <==> r in w.files
    ensures r in w.files ==> Healed(w, p).files[r] == w.files[r]
  {
    if AtOrBelow(r, Parent'(p)) { AtOrBelowTransitive(r, Parent'(p), p); }
    if AtOrBelow(r, p) { AtOrBelowTransitive(q, r, p); }
    HealedFrame(w, p);
    hide Healed;
  }

  lemma DeleteCommutes(w: World, p: Path, q: Path)
    requires Unrelated(q, p)
    ensures Unhung(Healed(w, p).files, q) == AddDirs(Unhung(w.files, q) - {p}, Parent'(p), DIRECTORY)
    ensures HangingLocations(Healed(w, p).files, q) == HangingLocations(w.files, q)
  {
    var files := Healed(w, p).files;
    hide Healed, Hangs, Unrelated;
    forall r ensures SameHanging(w.files, files, p, q, r) { HangingHealed(w, p, q, r); }
    HealedFrame(w, p);
    UnhungCommutes(w.files, files, p, q);
    SameLocations(w.files, files, p, q);
  }

  /** Whether r hangs from q does not depend on healing, and if it does, r is none of p's paths. */
  ghost predicate SameHanging(files: map<Path, Row>, healed: map<Path, Row>, p: Path, q: Path, r: Path) {
    && (Hangs(healed, q, r) <==> Hangs(files, q, r))
    && (Hangs(files, q, r) ==>
          && r != p && r !in SelfAndAbove(Parent'(p))
          && (r in healed <==> r in files) && (r in files ==> healed[r] == files[r]))
  }

  lemma HangingHealed(w: World, p: Path, q: Path, r: Path)
    requires Unrelated(q, p)
    ensures SameHanging(w.files, Healed(w, p).files, p, q, r)
  {
    HangsHealed(w, p, q, r);
    if Hangs(w.files, q, r) { UnrelatedBelow(p, q, r); }
    hide Unrelated, Healed, SelfAndAbove;
  }

  lemma UnhungCommutes(files: map<Path, Row>, healed: map<Path, Row>, p: Path, q: Path)
    requires healed == AddDirs(files - {p}, Parent'(p), DIRECTORY)
    requires forall r :: SameHanging(files, healed, p, q, r)
    ensures Unhung(healed, q) == AddDirs(Unhung(files, q) - {p}, Parent'(p), DIRECTORY)
  {
    hide Hangs, AtOrBelow, SelfAndAbove;
    var x, y := Unhung(healed, q), AddDirs(Unhung(files, q) - {p}, Parent'(p), DIRECTORY);
    forall r ensures r in x <==> r in y { assert SameHanging(files, healed, p, q, r); }
    forall r | r in x ensures x[r] == y[r] { assert SameHanging(files, healed, p, q, r); }
  }

  lemma SameLocations(files: map<Path, Row>, healed: map<Path, Row>, p: Path, q: Path)
    requires forall r :: SameHanging(files, healed, p, q, r)
    ensures HangingLocations(healed, q) == HangingLocations(files, q)
  {
    hide Hangs, AtOrBelow, SelfAndAbove;
    forall l ensures l in HangingLocations(healed, q) <==> l in HangingLocations(files, q) {
      if l in HangingLocations(healed, q) {
        var r :| r in healed && Hangs(healed, q, r) && healed[r].location == l;
        assert SameHanging(files, healed, p, q, r);
      }
      if l in HangingLocations(files, q) {
        var r :| r in files && Hangs(files, q, r) && files[r].location == l;
        assert SameHanging(files, healed, p, q, r);
      }
    }
  }

  lemma UnrelatedBelow(p: Path, q: Path, r: Path)
    requires Unrelated(q, p) && AtOrBelow(q, r)
    ensures r != p && r !in SelfAndAbove(Parent'(p))
  {
    if AtOrBelow(r, Parent'(p)) {
      AtOrBelowTransitive(r, Parent'(p), p);
      AtOrBelowTransitive(q, r, p);
    }
  }

  /* Move */

  /** The second half of Move: what was at target is gone. */
  function MoveRow(w1: World, s: Path, target: Path, row: Row): World {
    if s in w1.files then w1.(files := WriteRow(w1.files - {s}, target, row))
    else w1.(files := AddDirs(w1.files, Parent'(target), DIRECTORY))
  }

  lemma MoveInTwo(w: World, s: Path, target: Path)
    requires s in w.files
    ensures MoveFile(w, s, target) == MoveRow(DeletePath(w, target), s, target, w.files[s])
  {
  }

  lemma MoveUnrelated(w: World, p: Path, s: Path, target: Path)
    requires Isolated(w) && Unrelated(s, p) && Unrelated(target, p)
    requires s in w.files ==> s !in w.live && target !in w.live && target !in DeletePath(w, target).files
    ensures Healed(MoveFile(w, s, target), p) == MoveFile(Healed(w, p), s, target)
    ensures PathKept(w, MoveFile(w, s, target), p) && Isolated(MoveFile(w, s, target))
  {
    UnrelatedRow(w, p, s);
    if s in w.files {
      var w1 := DeletePath(w, target);
      DeleteUnrelated(w, p, target);
      MoveInTwo(w, s, target);
      MoveInTwo(Healed(w, p), s, target);
      DeletePathLives(w, target);
      MoveRowUnrelated(w1, p, s, target, w.files[s]);
      if s in w1.files { MoveRowIsolated(w1, s, target); } else { DirsIsolated(w1, Parent'(target)); }
      hide Healed, DeletePath, MoveRow, MoveFile, Isolated, Unrelated;
      PathKeptTwice(w, w1, MoveRow(w1, s, target, w.files[s]), p);
    }
  }

  lemma PathKeptTwice(w: World, w1: World, w2: World, p: Path)
    requires PathKept(w, w1, p) && PathKept(w1, w2, p)
    ensures PathKept(w, w2, p)
  {
  }

  lemma MoveRowUnrelated(w1: World, p: Path, s: Path, target: Path, row: Row)
    requires Unrelated(s, p) && Unrelated(target, p)
    ensures Healed(MoveRow(w1, s, target, row), p) == MoveRow(Healed(w1, p), s, target, row)
    ensures PathKept(w1, MoveRow(w1, s, target, row), p)
  {
    var w', h' := MoveRow(w1, s, target, row), MoveRow(Healed(w1, p), s, target, row);
    UnrelatedRow(w1, p, s);
    UnrelatedRow(w1, p, target);
    hide *;
    HealedFrame(w1, p);
    HealedObjects(w1, p);
    MoveRowKept(w1, p, s, target, row);
    MovedFiles(w1.files, p, s, target, row);
    MoveRowFrame(w1, s, target, row);
    MoveRowFrame(Healed(w1, p), s, target, row);
    SameHealedParts(w1, w', h', p);
    HealedIs(w1, w', h', p);
  }

  lemma SameHealedParts(w: World, w': World, h': World, p: Path)
    requires h'.files == AddDirs(w'.files - {p}, Parent'(p), DIRECTORY) && ObjectsHealed(w, w'.objects, h'.objects, p)
    requires h'.segments == w'.segments && h'.live == w'.live
    ensures SameHealed(w, w', h', p)
  {
    hide AddDirs, ObjectsHealed;
  }

  lemma MoveRowFrame(w1: World, s: Path, target: Path, row: Row)
    ensures var w' := MoveRow(w1, s, target, row);
      && w'.objects == w1.objects && w'.segments == w1.segments && w'.live == w1.live
      && w'.files == if s in w1.files then WriteRow(w1.files - {s}, target, row)
                     else AddDirs(w1.files, Parent'(target), DIRECTORY)
  {
    hide WriteRow, AddDirs;
  }

  lemma MoveRowKept(w1: World, p: Path, s: Path, target: Path, row: Row)
    requires Unrelated(s, p) && Unrelated(target, p)
    ensures PathKept(w1, MoveRow(w1, s, target, row), p)
  {
    UnrelatedRow(w1, p, target);
    UnrelatedAbove(s, p);
    hide Unrelated;
    NewDirs(w1, p, s, target, row);
  }

  lemma UnrelatedAbove(s: Path, p: Path)
    requires Unrelated(s, p)
    ensures !AtOrBelow(s, p)
  {
  }

  lemma NewDirs(w1: World, p: Path, s: Path, target: Path, row: Row)
    requires p !in SelfAndAbove(Parent'(target)) && p != target && p != s && !AtOrBelow(target, p)
    ensures var files := MoveRow(w1, s, target, row).files;
      && MoveRow(w1, s, target, row).live == w1.live
      && (p in files <==> p in w1.files) && (p in w1.files ==> files[p] == w1.files[p])
      && forall r | r in files && AtOrBelow(r, p) && r != p ::
           files[r] == DIRECTORY || (r in w1.files && files[r] == w1.files[r])
  {
    hide AtOrBelow, SelfAndAbove;
    forall r | AtOrBelow(r, p) ensures r != target {}
  }

  lemma MovedFiles(files: map<Path, Row>, p: Path, s: Path, target: Path, row: Row)
    requires Unrelated(s, p) && Unrelated(target, p)
    requires p !in SelfAndAbove(Parent'(target)) && target !in SelfAndAbove(Parent'(p)) && p != target
    requires s !in SelfAndAbove(Parent'(p)) && p != s
    ensures var healed := AddDirs(files - {p}, Parent'(p), DIRECTORY);
      && WriteRow(healed - {s}, target, row) == AddDirs(WriteRow(files - {s}, target, row) - {p}, Parent'(p), DIRECTORY)
      && AddDirs(healed, Parent'(target), DIRECTORY)
         == AddDirs(AddDirs(files, Parent'(target), DIRECTORY) - {p}, Parent'(p), DIRECTORY)
  {
    hide AtOrBelow, Unrelated, SelfAndAbove, WriteRow, AddAll;
    AddAllWithout(files, SelfAndAbove(Parent'(p)), p, s, DIRECTORY);
    AddAllTwice(files, SelfAndAbove(Parent'(p)), SelfAndAbove(Parent'(target)), p, DIRECTORY);
    DirsCommute(files - {s}, p, target, row);
  }

  lemma MoveRowIsolated(w1: World, s: Path, target: Path)
    requires Isolated(w1) && s in w1.files && s !in w1.live && target !in w1.files && target !in w1.live
    ensures Isolated(MoveRow(w1, s, target, w1.files[s]))
  {
    hide Isolated, Renamed;
    RenamedIsolated(w1, s, target);
    assert MoveRow(w1, s, target, w1.files[s]) == Renamed(w1, s, target) by { MoveRowIsRenamed(w1, s, target); }
  }

  lemma MoveRowIsRenamed(w1: World, s: Path, target: Path)
    requires s in w1.files
    ensures MoveRow(w1, s, target, w1.files[s]) == Renamed(w1, s, target)
  {
  }

  lemma DirsIsolated(w: World, p: Path)
    requires Isolated(w)
    ensures Isolated(w.(files := AddDirs(w.files, p, DIRECTORY)))
  {
    hide AtOrBelow;
  }

  /* writers */

  /** Rows stay, and the writer of another path comes, changes or goes. */
  lemma LiveUnrelated(w: World, p: Path, live: map<Path, Writer>)
    requires (p in live <==> p in w.live) && (p in w.live ==> live[p] == w.live[p])
    ensures Healed(w.(live := live), p) == Healed(w, p).(live := live) && PathKept(w, w.(live := live), p)
  {
  }

  lemma OpenUnrelated(w: World, p: Path, q: Path, append: bool, l: Location)
    requires Isolated(w) && Unrelated(q, p) && q !in w.live && Fresh(w, l)
    ensures Healed(OpenWriter(w, q, append, l), p) == OpenWriter(Healed(w, p), q, append, l)
    ensures PathKept(w, OpenWriter(w, q, append, l), p) && Isolated(OpenWriter(w, q, append, l))
  {
    UnrelatedRow(w, p, q);
    OpenIsolated(w, q, append, l);
    hide Isolated, Fresh, SegmentRows, Unrelated;
    if append && q in w.files {
      LiveUnrelated(w, p, OpenWriter(w, q, append, l).live);
      hide Healed;
    } else {
      DeleteUnrelated(w, p, q);
      var w1 := DeletePath(w, q);
      LiveUnrelated(w1, p, OpenWriter(w, q, append, l).live) by { DeletePathLives(w, q); }
      hide Healed, DeletePath;
      DeletePathLives(w, q);
      PathKeptTwice(w, w1, OpenWriter(w, q, append, l), p);
    }
  }

  lemma OpenIsolated(w: World, q: Path, append: bool, l: Location)
    requires Isolated(w) && q !in w.live && Fresh(w, l)
    ensures Isolated(OpenWriter(w, q, append, l))
  {
    var w1 := if append && q in w.files then w else DeletePath(w, q);
    var writer := OpenWriter(w, q, append, l).live[q];
    DeletedFresh(w, q, l);
    DeletePathLives(w, q);
    FewerIsolated(w, w1) by { hide DeletePath; }
    hide SegmentRows, DeletePath;
    NewWriterIsolated(w1, q, writer);
  }

  lemma NewWriterIsolated(w: World, q: Path, writer: Writer)
    requires Isolated(w) && q !in w.live && writer.location != ""
    requires forall r | r in w.live :: w.live[r].location != writer.location
    requires forall r | r in w.files && r != q :: w.files[r].location != writer.location
    requires q in w.files ==> w.files[q].location == "" || w.files[q].location == writer.location
    ensures Isolated(w.(live := w.live[q := writer]))
  {
  }

  lemma ExtendUnrelated(w: World, p: Path, q: Path, bytes: Bytes)
    requires Isolated(w) && q != p && q in w.live
    ensures Healed(WriteSegment(w, q, bytes), p) == WriteSegment(Healed(w, p), q, bytes)
    ensures PathKept(w, WriteSegment(w, q, bytes), p) && Isolated(WriteSegment(w, q, bytes))
  {
    var w', h' := WriteSegment(w, q, bytes), WriteSegment(Healed(w, p), q, bytes);
    ExtendIsolated(w, q, bytes);
    assert !Stray(w, p, SegmentName(w.live[q].location, |w.live[q].segments| + 1));
    HealedObjects(w, p);
    hide Isolated, AddDirs, Stray, ObjectsHealed, AtOrBelow;
    ExtendPathKept(w, p, q, bytes);
    hide PathKept;
    UploadHealed(w, w.objects, Healed(w, p).objects, p,
                 SegmentName(w.live[q].location, |w.live[q].segments| + 1), Blob(bytes));
    SameHealedParts(w, w', h', p);
    HealedIs(w, w', h', p);
  }

  lemma ExtendPathKept(w: World, p: Path, q: Path, bytes: Bytes)
    requires q in w.live && q != p
    ensures PathKept(w, WriteSegment(w, q, bytes), p)
  {
    hide AtOrBelow;
  }

  lemma CommitUnrelated(w: World, p: Path, q: Path)
    requires Isolated(w) && Unrelated(q, p) && q in w.live
    ensures Healed(CommitWriter(w, q), p) == CommitWriter(Healed(w, p), q)
    ensures PathKept(w, CommitWriter(w, q), p) && Isolated(CommitWriter(w, q))
  {
    var w', h' := CommitWriter(w, q), CommitWriter(Healed(w, p), q);
    CommitIsolated(w, q);
    var row := Row(TotalSize(w.live[q].segments), [], w.live[q].location);
    UnrelatedRow(w, p, q);
    RowPathKept(w, w', p, q, row);
    DirsCommute(w.files, p, q, row);
    assert !Stray(w, p, ContentName(w.live[q].location));
    HealedObjects(w, p);
    hide Isolated, Unrelated, PathKept, WriteRow, AddDirs, Stray, ObjectsHealed, TotalSize;
    UploadHealed(w, w.objects, Healed(w, p).objects, p, ContentName(w.live[q].location), Manifest(w.live[q].segments));
    SameHealedIf(w, w', h', p, Healed(w, p), q, row);
    HealedIs(w, w', h', p);
  }

  lemma DetachUnrelated(w: World, p: Path, q: Path)
    requires Isolated(w) && q != p
    ensures Healed(w.(live := w.live - {q}), p) == Healed(w, p).(live := w.live - {q})
    ensures PathKept(w, w.(live := w.live - {q}), p) && Isolated(w.(live := w.live - {q}))
  {
    LiveUnrelated(w, p, w.live - {q});
  }

  lemma CancelUnrelated(w: World, p: Path, q: Path)
    requires Isolated(w) && Unrelated(q, p)
    ensures Healed(CancelWriter(w, q), p) == CancelWriter(Healed(w, p), q)
    ensures PathKept(w, CancelWriter(w, q), p) && Isolated(CancelWriter(w, q))
  {
    UnrelatedRow(w, p, q);
    DeleteUnrelated(w, p, q);
    var w1 := DeletePath(w, q);
    DetachUnrelated(w1, p, q);
    hide Isolated, Healed, DeletePath, Unrelated;
    DeletePathLives(w, q);
    PathKeptTwice(w, w1, CancelWriter(w, q), p);
  }

  /* any of them */

  predicate OpUnrelated(op: Op, p: Path) {
    Unrelated(op.path, p) && (op.Move? ==> Unrelated(op.target, p))
  }

  lemma StepUnrelated(w: World, c: Call, p: Path)
    requires Isolated(w) && OpUnrelated(c.op, p) && LegalCall(w, c)
    ensures var w' := Step(w, c.op, c.location);
      && Healed(w', p) == Step(Healed(w, p), c.op, c.location)
      && PathKept(w, w', p) && Isolated(w')
  {
    LegalWriters(w, c);
    HealedFrame(w, p);
    UnrelatedRow(w, p, c.op.path);
    hide Isolated, Healed, Fresh, Legal, View, Unrelated, PathKept, PutFile, DeletePath, MoveFile, OpenWriter,
        WriteSegment, CommitWriter, CancelWriter;
    match c.op
    case Put(q, bytes) => PutUnrelated(w, p, q, bytes, c.location);
    case Delete(q) => DeleteUnrelated(w, p, q);
    case Move(s, target) => MoveUnrelated(w, p, s, target);
    case Open(q, append) => OpenUnrelated(w, p, q, append, c.location);
    case Extend(q, bytes) => ExtendUnrelated(w, p, q, bytes);
    case Commit(q) => CommitUnrelated(w, p, q);
    case Cancel(q) => CancelUnrelated(w, p, q);
    case Abandon(q) => DetachUnrelated(w, p, q);
  }

  /** What a legal call says about open writers. */
  lemma LegalWriters(w: World, c: Call)
    requires LegalCall(w, c)
    ensures c.op.Put? || c.op.Open? ==> c.op.path !in w.live
    ensures c.op.Extend? || c.op.Commit? ==> c.op.path in w.live
    ensures c.op.Move? && c.op.path in w.files ==>
      c.op.path !in w.live && c.op.target !in w.live && c.op.target !in DeletePath(w, c.op.target).files
  {
  }

  lemma LegalHealed(a: Fs, b: Fs, op: Op, p: Path)
    requires OpUnrelated(op, p) && Legal(a, op)
    requires b.nodes == AddDirs(a.nodes - {p}, Parent'(p), Directory) && b.pending == a.pending
    ensures Legal(b, op)
  {
    AboveOfUnrelated(p, op.path);
    if op.Move? { AboveOfUnrelated(p, op.target); }
  }

  lemma CallHealed(w: World, c: Call, p: Path)
    requires GoodExcept(w, p) && OpUnrelated(c.op, p) && LegalCall(w, c)
    ensures LegalCall(Healed(w, p), c)
  {
    DamagedView(w, p);
    hide GoodExcept, View, Healed, Legal, OpUnrelated;
    LegalHealed(View(w), View(Healed(w, p)), c.op, p);
    if NeedsLocation(c.op) { FreshHealed(w, p, c.location); }
  }

  lemma FreshHealed(w: World, p: Path, l: Location)
    requires Fresh(w, l)
    ensures Fresh(Healed(w, p), l)
  {
  }

  lemma PathKeptCanHold(w: World, w': World, p: Path)
    requires CanHoldRow(w.files, p) && PathKept(w, w', p)
    ensures CanHoldRow(w'.files, p)
  {
  }

  /** A call that has nothing to do with p leaves the damage as it is, and acts as specified on what
      would be there without it. */
  lemma DamageStays(w: World, c: Call, p: Path)
    requires GoodExcept(w, p) && OpUnrelated(c.op, p) && LegalCall(w, c)
    ensures var w' := Step(w, c.op, c.location);
      && GoodExcept(w', p)
      && View(Healed(w', p)) == Apply(View(Healed(w, p)), c.op)
      && (p in w'.live <==> p in w.live)
  {
    hide Isolated, Good, View, Healed, LegalCall, Step, OpUnrelated, Apply, CanHoldRow;
    StepUnrelated(w, c, p);
    CallHealed(w, c, p);
    StepRefines(Healed(w, p), c);
    PathKeptCanHold(w, Step(w, c.op, c.location), p);
  }

  lemma {:induction false} DamageStaysRun(w: World, calls: seq<Call>, p: Path)
    requires GoodExcept(w, p) && LegalRun(w, calls) && forall c | c in calls :: OpUnrelated(c.op, p)
    ensures var w' := Run(w, calls);
      GoodExcept(w', p) && View(Healed(w', p)) == ApplyAll(View(Healed(w, p)), calls) && (p in w'.live <==> p in w.live)
    decreases |calls|
  {
    hide GoodExcept, View, Healed, LegalCall, Step, OpUnrelated, Apply;
    if calls != [] {
      DamageStays(w, calls[0], p);
      DamageStaysRun(Step(w, calls[0].op, calls[0].location), calls[1..], p);
    }
  }

  /** A call has failed and has left damage at p behind. After any number of other calls and a put
      at p, clients see what they would see had the failed call never been made. */
  lemma DamageHeals(w0: World, w: World, calls: seq<Call>, p: Path, bytes: Bytes, location: Location)
    requires Good(w0) && CanHoldRow(w0.files, p)
    requires GoodExcept(w, p) && Healed(w, p) == Healed(w0, p) && p !in w.live
    requires LegalRun(w0, calls) && LegalRun(w, calls) && forall c | c in calls :: OpUnrelated(c.op, p)
    requires |bytes| > MAX_INLINE_SIZE ==> Fresh(Run(w, calls), location)
    ensures var w' := PutFile(Run(w, calls), p, bytes, location);
      Good(w') && View(w') == Apply(ApplyAll(View(w0), calls), Put(p, bytes))
  {
    hide *;
    GoodIsGoodExcept(w0, p);
    DamageStaysRun(w0, calls, p);
    DamageStaysRun(w, calls, p);
    var v0, v := Run(w0, calls), Run(w, calls);
    RunRefines(w0, calls);
    PutHeals(v, p, bytes, location);
    DamagedView(v, p);
    DamagedView(v0, p);
    GoodHealed(v, p);
    SameAfterPut(View(v), View(Healed(v, p)), p, bytes);
    SameAfterPut(View(v0), View(Healed(v0, p)), p, bytes);
  }

  /* ---------- deleting above the damaged path ---------- */

  /** Good again with fewer rows, as long as these form a tree and keep their objects. */
  lemma SubGood(h: World, h': World)
    requires Good(h) && h'.live == h.live && h'.segments == h.segments && Tree(h'.files)
    requires forall q | q in h'.files :: q in h.files && h'.files[q] == h.files[q]
    requires forall q | q in h'.files && h'.files[q].location != "" :: Agree(h, h', h'.files[q].location)
    requires forall q | q in h'.live :: Agree(h, h', h'.live[q].location)
    ensures Good(h')
  {
    assert Isolated(h');
    hide Tree, Isolated, RowIntact, WriterIntact, Agree;
    forall q | q in h'.files ensures RowIntact(h', q) {
      GoodRow(h, q);
      RowFrame(h, q, h', q);
      hide Good;
    }
    forall q | q in h'.live ensures WriterIntact(h', q) {
      GoodWriter(h, q);
      WriterFrame(h, h', q);
      hide Good;
    }
  }

  ghost predicate NoWriterBelow(w: World, top: Path) {
    forall q | q in w.live :: !AtOrBelow(top, q)
  }

  /** The locations that stay keep all their objects. */
  lemma KeptAgree(w: World, top: Path, l: Location)
    requires top in w.files && l !in HangingLocations(w.files, top)
    ensures Agree(w, DeletePath(w, top), l)
  {
    hide HangingLocations, Unhung;
  }

  lemma RowLocationStays(w: World, top: Path, q: Path)
    requires Isolated(w) && top in w.files && q in DeletePath(w, top).files && w.files[q].location != ""
    ensures w.files[q].location !in HangingLocations(w.files, top)
  {
    hide Hangs;
  }

  lemma WriterLocationStays(w: World, top: Path, q: Path)
    requires Isolated(w) && NoWriterBelow(w, top) && q in w.live
    ensures w.live[q].location !in HangingLocations(w.files, top)
  {
    assert forall r | r in w.files && Hangs(w.files, top, r) ::
      AtOrBelow(top, r) && w.files[r].location != w.live[q].location;
    hide Hangs;
  }

  lemma AgreeThrough(w: World, top: Path, p: Path, l: Location)
    requires top in w.files && l !in HangingLocations(w.files, top) && p !in w.live
    requires LocationAt(w, p) == "" || l != LocationAt(w, p)
    ensures Agree(Healed(w, p), Healed(DeletePath(w, top), p), l)
  {
    var w' := DeletePath(w, top);
    DeletePathLives(w, top);
    KeptAgree(w, top, l);
    assert LocationAt(w', p) == "" || LocationAt(w', p) == LocationAt(w, p);
    hide DeletePath, HangingLocations;
    HealedAgree(w, p, l);
    HealedAgree(w', p, l);
    hide Healed;
  }

  lemma SubRows(w: World, top: Path, p: Path)
    requires GoodExcept(w, p)
    ensures var h, h' := Healed(w, p), Healed(DeletePath(w, top), p);
      forall q | q in h'.files :: q in h.files && h'.files[q] == h.files[q]
  {
    var w' := DeletePath(w, top);
    var h, h' := Healed(w, p), Healed(w', p);
    DeletePathLives(w, top);
    HealedFrame(w, p);
    HealedFrame(w', p);
    forall q | q in h'.files ensures q in h.files && h'.files[q] == h.files[q] {
      if q !in w'.files || q == p { AboveIsDirectory(w, p, q); }
    }
  }

  lemma AboveIsDirectory(w: World, p: Path, q: Path)
    requires GoodExcept(w, p) && q in SelfAndAbove(Parent'(p))
    ensures q in Healed(w, p).files && Healed(w, p).files[q] == DIRECTORY
  {
    var h := Healed(w, p);
    HealedFrame(w, p);
    if q in w.files {
      GoodRow(h, q);
      assert AtOrBelow(q, p) && q != p;
      assert w.files[q].IsDir();
    }
  }

  lemma TreeOnceHealed(w: World, p: Path)
    requires GoodExcept(w, p)
    ensures Tree(Healed(w, p).files)
  {
    hide Healed, CanHoldRow, Isolated, Tree;
    GoodIsTree(Healed(w, p));
  }

  /** Whatever does not hang keeps its directory. */
  lemma SubTree(w: World, top: Path, p: Path)
    requires GoodExcept(w, p) && top in w.files
    ensures Tree(Healed(DeletePath(w, top), p).files)
  {
    hide GoodExcept, Good, Isolated, CanHoldRow, Healed, DeletePath, SelfAndAbove, AtOrBelow, Hangs;
    var h, h' := Healed(w, p), Healed(DeletePath(w, top), p);
    TreeOnceHealed(w, p);
    SubRows(w, top, p);
    forall q | q in h'.files ensures q != [] && (|q| == 1 || (Parent(q) in h'.files && h'.files[Parent(q)].IsDir())) {
      assert q in h.files;
      if |q| > 1 { ParentStays(w, top, p, q); }
    }
  }

  lemma ParentStays(w: World, top: Path, p: Path, q: Path)
    requires top in w.files && |q| > 1
    requires var h, h' := Healed(w, p), Healed(DeletePath(w, top), p);
      && q in h'.files && q in h.files && Parent(q) in h.files && h.files[Parent(q)].IsDir()
      && forall r | r in h'.files :: r in h.files && h'.files[r] == h.files[r]
    ensures Parent(q) in Healed(DeletePath(w, top), p).files
  {
    var d := Parent(q);
    var w' := DeletePath(w, top);
    HealedFrame(w, p);
    HealedFrame(w', p);
    hide Healed;
    if d in SelfAndAbove(Parent'(p)) {
    } else if q in SelfAndAbove(Parent'(p)) {
      AtOrBelowTransitive(d, q, Parent'(p));
    } else {
      assert d in w.files && d != p && w.files[d].IsDir();
      if d !in w'.files { HangsOn(w.files, top, d, q); }
    }
  }

  lemma HangsOn(files: map<Path, Row>, top: Path, d: Path, q: Path)
    requires q != [] && d == Parent(q) && Hangs(files, top, d) && d in files && files[d].IsDir()
    ensures Hangs(files, top, q)
  {
    forall k | |top| <= k < |q| ensures q[..k] in files && files[q[..k]].IsDir() {
      if k == |d| { assert q[..k] == d; } else { assert q[..k] == d[..k]; }
    }
  }

  /** Deleting at or above the damaged path does no further damage. */
  lemma DeleteAboveKeeps(w: World, p: Path, top: Path)
    requires GoodExcept(w, p) && AtOrBelow(top, p) && top in w.files && NoWriterBelow(w, top)
    ensures GoodExcept(DeletePath(w, top), p)
  {
    var w' := DeletePath(w, top);
    var h, h' := Healed(w, p), Healed(w', p);
    SubRows(w, top, p);
    SubTree(w, top, p);
    FewerCanHold(w, w', p) by { DeletePathLives(w, top); }
    FewerIsolated(w, w') by { DeletePathLives(w, top); }
    DeletePathLives(w, top);
    HealedFrame(w, p);
    HealedFrame(w', p);
    GoodHealed(w, p);
    ExceptIsolated(w, p);
    assert w'.segments == w.segments;
    hide GoodExcept, Good, Isolated, CanHoldRow, Healed, DeletePath, Agree, Tree;
    forall q | q in h'.files && h'.files[q].location != "" ensures Agree(h, h', h'.files[q].location) {
      OwnAndOther(w, p, q);
      RowLocationStays(w, top, q);
      AgreeThrough(w, top, p, w.files[q].location);
    }
    forall q | q in h'.live ensures Agree(h, h', h'.live[q].location) {
      WriterAndRow(w, p, q);
      WriterLocationStays(w, top, q);
      AgreeThrough(w, top, p, w.live[q].location);
    }
    SubGood(h, h');
    ExceptIf(w', p);
  }

  lemma ExceptIf(w: World, p: Path)
    requires CanHoldRow(w.files, p) && Isolated(w) && Good(Healed(w, p))
    ensures GoodExcept(w, p)
  {
  }

  lemma ExceptIsolated(w: World, p: Path)
    requires GoodExcept(w, p)
    ensures Isolated(w)
  {
  }

  lemma FewerCanHold(w: World, w': World, p: Path)
    requires GoodExcept(w, p) && forall q | q in w'.files :: q in w.files && w'.files[q] == w.files[q]
    ensures CanHoldRow(w'.files, p)
  {
    hide Isolated, Good;
  }

  lemma FewerIsolated(w: World, w': World)
    requires Isolated(w) && w'.live == w.live
    requires forall q | q in w'.files :: q in w.files && w'.files[q] == w.files[q]
    ensures Isolated(w')
  {
  }

  lemma OwnAndOther(w: World, p: Path, q: Path)
    requires Isolated(w) && q in w.files && q != p && w.files[q].location != ""
    ensures LocationAt(w, p) == "" || w.files[q].location != LocationAt(w, p)
  {
  }

  lemma WriterAndRow(w: World, p: Path, q: Path)
    requires Isolated(w) && q in w.live && q != p
    ensures LocationAt(w, p) == "" || w.live[q].location != LocationAt(w, p)
  {
  }

  /** A deletion above the damaged path takes a row along exactly if the directories between, as far as
      they lie above the damaged path, are there. */
  lemma DeleteAboveExactly(w: World, p: Path, top: Path, q: Path)
    requires GoodExcept(w, p) && top != [] && top in w.files && q in w.files && AtOrBelow(top, q)
    ensures q !in DeletePath(w, top).files <==>
      forall k | |top| <= k < |q| && AtOrBelow(q[..k], p) :: q[..k] in w.files
  {
    var h := Healed(w, p);
    GoodIsTree(h);
    HealedFrame(w, p);
    hide Good, Isolated, Healed;
    if forall k | |top| <= k < |q| && AtOrBelow(q[..k], p) :: q[..k] in w.files {
      forall k | |top| <= k < |q| ensures q[..k] in w.files && w.files[q[..k]].IsDir() {
        BetweenIsDir(w, p, q, k);
      }
    }
  }

  lemma BetweenIsDir(w: World, p: Path, q: Path, k: nat)
    requires CanHoldRow(w.files, p) && Tree(Healed(w, p).files) && q in w.files && 0 < k < |q|
    requires AtOrBelow(q[..k], p) ==> q[..k] in w.files
    ensures q[..k] in w.files && w.files[q[..k]].IsDir()
  {
    HealedFrame(w, p);
    hide Healed, Tree;
    var d := q[..k];
    assert AtOrBelow(d, q) && d != q;
    if q != p { DirAbove(Healed(w, p).files, d, q); }
  }

  /** In particular the damaged path itself is left behind if a directory above it is missing. */
  lemma DeleteAboveDamage(w: World, p: Path, top: Path)
    requires GoodExcept(w, p) && p in w.files && top in w.files && AtOrBelow(top, p)
    ensures p !in DeletePath(w, top).files <==> forall k | |top| <= k < |p| :: p[..k] in w.files
  {
    hide Isolated, Good;
    forall k | |top| <= k < |p| ensures AtOrBelow(p[..k], p) && p[..k] != p {}
  }
}
