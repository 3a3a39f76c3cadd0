/** How far the supported uses reach: for calls outside of them, exactly when they do harm. */
module Exactness {
  import opened Paths
  import opened Storage
  import opened FileSystem
  import opened World
  import opened Refinement
  import opened Steps
  import opened Deletion

  /* ---------- writing a row ---------- */

  /** Writing a file row keeps the tree unless it replaces a directory that is in use, or lies below
      a file. */
  lemma WriteRowExactly(files: map<Path, Row>, p: Path, row: Row)
    requires Tree(files) && p != [] && !row.IsDir()
    ensures Tree(WriteRow(files, p, row)) <==>
      Children(files, p) == {} && forall q | q in files && AtOrBelow(q, p) && q != p :: files[q].IsDir()
  {
    var r := WriteRow(files, p, row);
    hide Tree, AtOrBelow, WriteRow, Children;
    if Tree(r) {
      WriteRowKept(files, p, row);
      forall q | q in files && AtOrBelow(q, p) && q != p ensures files[q].IsDir() {
        NotTheRoot(files, q);
        DirAbove(r, q, p);
      }
      if c :| c in Children(files, p) { ChildOfFile(files, p, row, c); }
    }
    if Children(files, p) == {} && forall q | q in files && AtOrBelow(q, p) && q != p :: files[q].IsDir() {
      WriteRowStillTree(files, p, row);
    }
  }

  lemma NotTheRoot(files: map<Path, Row>, q: Path)
    requires Tree(files) && q in files
    ensures q != []
  {
  }

  lemma WriteRowStillTree(files: map<Path, Row>, p: Path, row: Row)
    requires Tree(files) && p != [] && Children(files, p) == {}
    requires forall q | q in files && AtOrBelow(q, p) && q != p :: files[q].IsDir()
    ensures Tree(WriteRow(files, p, row))
  {
    var r := WriteRow(files, p, row);
    forall q | q in r ensures q != [] && (|q| == 1 || (Parent(q) in r && r[Parent(q)].IsDir())) {
      if q == p || q !in files {
        assert AtOrBelow(q, p);
        AtOrBelowAbove(q, p);
      } else if |q| > 1 {
        assert q !in Children(files, p);
      }
    }
  }

  lemma ChildOfFile(files: map<Path, Row>, p: Path, row: Row, c: Path)
    requires c in Children(files, p) && p != [] && !row.IsDir()
    ensures !Tree(WriteRow(files, p, row))
  {
    var r := WriteRow(files, p, row);
    assert p !in SelfAndAbove(Parent'(p));
    assert c in r && r[Parent(c)] == row;
  }

  /** The row is written first and its directories follow upwards: when that is interrupted, the
      rows form a tree exactly if the next directory up is there already. */
  lemma InterruptedExactly(files: map<Path, Row>, p: Path, row: Row, k: nat)
    requires Tree(files) && CanHoldRow(files, p) && 0 < k <= |p|
    ensures Tree(Interrupted(files, p, row, k)) <==> k == 1 || p[..k - 1] in files
  {
    var r := Interrupted(files, p, row, k);
    assert if k < |p| then AtOrBelow(p[..k], Parent(p)) else p[..k] == p;
    assert p[..k] in r && AtOrBelow(p[..k], p);
    assert k > 1 ==> Parent(p[..k]) == p[..k - 1];
    if k == 1 || p[..k - 1] in files {
      forall q | q in r ensures q != [] && (|q| == 1 || (Parent(q) in r && r[Parent(q)].IsDir())) {
        if q == p || q !in files {
          InterruptedAbove(files, p, row, k, q);
        }
      }
    }
  }

  lemma InterruptedAbove(files: map<Path, Row>, p: Path, row: Row, k: nat, q: Path)
    requires Tree(files) && CanHoldRow(files, p) && 0 < k <= |p| && (k == 1 || p[..k - 1] in files)
    requires AtOrBelow(q, p) && k <= |q|
    ensures |q| == 1 || (Parent(q) in Interrupted(files, p, row, k) && Interrupted(files, p, row, k)[Parent(q)].IsDir())
  {
    if |q| > 1 {
      assert AtOrBelow(Parent(q), p) && Parent(q) != p;
      if |q| == k { assert Parent(q) == p[..k - 1]; }
    }
  }

  /* ---------- Move ---------- */

  /** Everything that Legal asks of a file move, except that the target is not the source or above it. */
  predicate LegalButForAncestor(fs: Fs, p: Path, target: Path) {
    && IsFile(fs, p) && p !in fs.pending && target != [] && target !in fs.pending
    && (target in fs.nodes ==> NoWriterIn(fs, target))
    && forall q | q in fs.nodes && AtOrBelow(q, target) && q != target && q != p :: fs.nodes[q].Directory?
  }

  /** The target receives the file's content unless the source lies at or below the target; then
      both are lost. */
  lemma MoveExactly(w: World, p: Path, target: Path)
    requires Good(w) && LegalButForAncestor(View(w), p, target)
    ensures var nodes := View(MoveFile(w, p, target)).nodes;
      && (target in nodes && nodes[target] == View(w).nodes[p] <==> !AtOrBelow(target, p))
      && (AtOrBelow(target, p) ==> p !in nodes && target !in nodes)
  {
    hide Good, Nodes, Resume, Pending, RemoveTree;
    if AtOrBelow(target, p) {
      MoveLoses(w, p, target);
    } else {
      MoveRefines(w, p, target);
    }
  }

  lemma MoveLoses(w: World, p: Path, target: Path)
    requires Good(w) && p in w.files && target != [] && AtOrBelow(target, p)
    ensures p !in MoveFile(w, p, target).files && target !in MoveFile(w, p, target).files
  {
    hide Isolated, RowIntact, WriterIntact, Tree, DeletePath;
    assert target in w.files by { if target != p { DirAbove(w.files, target, p); } }
    TreeDeleted(w, target);
    NotAboveItself(target);
    NotAboveSource(target, p);
  }

  lemma NotAboveSource(target: Path, p: Path)
    requires target != [] && AtOrBelow(target, p)
    ensures p !in SelfAndAbove(Parent'(target)) && AtOrBelow(target, target)
  {
  }

  /** The table after a move, on every table whatsoever. The deletion of the target takes along what hangs
      from it, and the source, too, if that hangs there; then nothing is renamed. The directories above
      the target are created in any case. */
  lemma MovedTable(w: World, p: Path, target: Path, q: Path)
    requires p in w.files && target != []
    ensures
      var files, files' := w.files, MoveFile(w, p, target).files;
      var gone := target in files && Hangs(files, target, p);
      var stays := q in files && q != p && !(target in files && Hangs(files, target, q));
      var dir := q != [] && AtOrBelow(q, target) && q != target;
      && (q in files' <==> (q == target && !gone) || stays || dir)
      && (q in files' ==> files'[q] == if q == target && !gone then files[p]
                                       else if stays then files[q] else DIRECTORY)
  {
    NotAboveItself(target);
    DirsAbove(target);
    assert Hangs(w.files, target, target);
    hide Hangs, AtOrBelow, SelfAndAbove;
  }

  /** Only the row itself is renamed. A directory can be moved without losing track of what is below
      it exactly if nothing is, or if it becomes its own parent again. */
  lemma MoveDirExactly(w: World, p: Path, target: Path)
    requires Good(w) && p in w.files && w.files[p].IsDir() && target != [] && !AtOrBelow(target, p)
    requires forall q | q in w.files && AtOrBelow(q, target) && q != target :: w.files[q].IsDir()
    ensures Tree(MoveFile(w, p, target).files) <==> Children(w.files, p) == {} || AtOrBelow(p, target)
  {
    hide Isolated, RowIntact, WriterIntact, MoveFile, RenamedDir;
    var r := MoveFile(w, p, target).files;
    MoveIsRenamedDir(w, p, target);
    if Tree(r) && !AtOrBelow(p, target) {
      if c :| c in Children(w.files, p) { ChildLost(w.files, r, p, target, c); }
    }
    if Children(w.files, p) == {} || AtOrBelow(p, target) {
      forall q | q in r ensures q != [] && (|q| == 1 || (Parent(q) in r && r[Parent(q)].IsDir())) {
        RenamedParent(w.files, r, p, target, q);
      }
    }
  }

  lemma MoveIsRenamedDir(w: World, p: Path, target: Path)
    requires Tree(w.files) && p in w.files && w.files[p].IsDir() && target != [] && !AtOrBelow(target, p)
    ensures RenamedDir(w.files, MoveFile(w, p, target).files, p, target)
  {
    hide DeletePath, RenamedDir, Tree;
    DeletePathIsPruned(w, target);
    var files1 := RemoveTree(w.files, target);
    assert DeletePath(w, target).files == files1;
    assert MoveFile(w, p, target).files == WriteRow(files1 - {p}, target, w.files[p]);
    WrittenIsRenamedDir(w.files, p, target);
  }

  lemma WrittenIsRenamedDir(files: map<Path, Row>, p: Path, target: Path)
    requires p in files && files[p].IsDir() && target != [] && !AtOrBelow(target, p)
    ensures RenamedDir(files, WriteRow(RemoveTree(files, target) - {p}, target, files[p]), p, target)
  {
    DirsAbove(target);
    AtOrBelowItself(target);
    hide AtOrBelow, SelfAndAbove, Parent';
    var files1 := RemoveTree(files, target) - {p};
    var r := WriteRow(files1, target, files[p]);
    assert forall q :: q in r <==> q in files1 || q == target || (q != [] && AtOrBelow(q, target));
    assert forall q | q in r && q !in files1 && q != target :: r[q] == DIRECTORY;
  }

  lemma DirsAbove(target: Path)
    ensures forall q :: q in SelfAndAbove(Parent'(target)) <==> q != [] && AtOrBelow(q, target) && q != target
  {
    forall q ensures q in SelfAndAbove(Parent'(target)) <==> q != [] && AtOrBelow(q, target) && q != target {
      if q != [] && AtOrBelow(q, target) && q != target { AtOrBelowParent(q, target); }
    }
  }

  /** The table after the row of directory p was renamed to target, over whatever was there. */
  ghost predicate RenamedDir(files: map<Path, Row>, r: map<Path, Row>, p: Path, target: Path) {
    && p in files && files[p].IsDir() && target != [] && !AtOrBelow(target, p)
    && (forall q :: q in r <==>
         (q in files && q != p && !AtOrBelow(target, q)) || q == target || (q != [] && AtOrBelow(q, target)))
    && (forall q | q in r && q in files && !AtOrBelow(target, q) :: r[q].IsDir() <==> files[q].IsDir())
    && (forall q | q in r && q !in files :: r[q].IsDir())
    && r[target].IsDir()
  }

  lemma ChildLost(files: map<Path, Row>, r: map<Path, Row>, p: Path, target: Path, c: Path)
    requires Tree(files) && RenamedDir(files, r, p, target) && !AtOrBelow(p, target) && c in Children(files, p)
    ensures !Tree(r)
  {
    assert !AtOrBelow(target, c) by {
      if AtOrBelow(target, c) && target != c { AtOrBelowParent(target, c); }
    }
    assert p != [] && c in r && Parent(c) !in r;
  }

  lemma RenamedParent(files: map<Path, Row>, r: map<Path, Row>, p: Path, target: Path, q: Path)
    requires RenamedDir(files, r, p, target) && Tree(files) && q in r
    requires Children(files, p) == {} || AtOrBelow(p, target)
    requires forall q | q in files && AtOrBelow(q, target) && q != target :: files[q].IsDir()
    ensures q != [] && (|q| == 1 || (Parent(q) in r && r[Parent(q)].IsDir()))
  {
    if |q| > 1 {
      var d := Parent(q);
      if AtOrBelow(q, target) {
        assert AtOrBelow(d, target);
      } else {
        assert q in files && d in files && files[d].IsDir();
        if AtOrBelow(target, d) { AtOrBelowTransitive(target, d, q); }
        if d == p { assert q in Children(files, p); }
      }
    }
  }

  /* ---------- append ---------- */

  /** The segments recorded for the file add up to its size: necessary for an append to continue it. */
  predicate FullyRecorded(w: World, p: Path)
    requires p in w.files
  {
    var location := w.files[p].location;
    w.files[p].size == if location == "" then 0 else TotalSize(SegmentRows(w.segments, location))
  }

  /** What an append session would start with is the file's content: of a manifest if no unfinished
      session has recorded more, and of a blob, which has no segments of its own, only if those that
      unfinished sessions have left there happen to hold the same bytes. */
  predicate Continues(w: World, p: Path)
    requires p in w.files
  {
    var Row(size, _, location) := w.files[p];
    var rows := SegmentRows(w.segments, location);
    if location == "" then size == 0
    else (
      && ContentName(location) in w.objects
      && match w.objects[ContentName(location)]
         case Manifest(_) => TotalSize(rows) == size
         case Blob(data) => Joined(w.objects, rows) == data)
  }

  /** Exactly when an append session continues the file. It does after every commit, and it does not
      after a PutContent of one byte or more. */
  lemma AppendExactly(w: World, p: Path, random: Location)
    requires Good(w) && p in w.files && !w.files[p].IsDir() && p !in w.live && Fresh(w, random)
    ensures var w' := OpenWriter(w, p, true, random);
      p in View(w').pending && (View(w').pending[p] == View(w).nodes[p].bytes <==> Continues(w, p))
    ensures Continues(w, p) ==> FullyRecorded(w, p)
  {
    hide Good, Nodes, Pending, Resume, Continues, FullyRecorded, OpenWriter, Fresh;
    AppendLegal(w, p);
    OpenRefines(w, p, true, random);
    ResumedExactly(w, p);
  }

  lemma AppendLegal(w: World, p: Path)
    requires Good(w) && p in w.files && !w.files[p].IsDir() && p !in w.live
    ensures Legal(View(w), Open(p, true))
  {
  }

  lemma ResumedExactly(w: World, p: Path)
    requires Good(w) && p in w.files && !w.files[p].IsDir()
    ensures var fs := View(w);
      && p in fs.nodes && fs.nodes[p].File?
      && ((if p in fs.resume then fs.resume[p] else []) == fs.nodes[p].bytes <==> Continues(w, p))
    ensures Continues(w, p) ==> FullyRecorded(w, p)
  {
    GoodRow(w, p);
    hide Good, SegmentRows, TotalSize, Joined, Stored, Numbered;
    var row := w.files[p];
    if row.location != "" {
      var rows := SegmentRows(w.segments, row.location);
      var content := w.objects[ContentName(row.location)];
      JoinedLength(w.objects, rows);
      if content.Manifest? { SameSizeSameBytes(w.objects, content.segments, rows); }
    }
  }

  lemma SameSizeSameBytes(objects: Bucket, segments: seq<Segment>, rows: seq<Segment>)
    requires segments <= rows && Stored(objects, rows)
    ensures Joined(objects, rows) == Joined(objects, segments) <==> TotalSize(rows) == TotalSize(segments)
  {
    assert Stored(objects, segments) by {
      forall i | 0 <= i < |segments| ensures SegmentStored(objects, segments[i]) { assert segments[i] == rows[i]; }
    }
    hide Joined, TotalSize, Stored;
    var rest := rows[|segments|..];
    assert rows == segments + rest;
    JoinedConcat(objects, segments, rest);
    JoinedLength(objects, segments);
    JoinedLength(objects, rows);
  }

  /** After PutContent an append session starts with nothing. */
  lemma AppendAfterPut(w: World, p: Path, bytes: Bytes, location: Location, random: Location)
    requires Good(w) && Legal(View(w), Put(p, bytes)) && (|bytes| > MAX_INLINE_SIZE ==> Fresh(w, location))
    requires Fresh(PutFile(w, p, bytes, location), random)
    ensures var w' := OpenWriter(PutFile(w, p, bytes, location), p, true, random);
      p in View(w').pending && View(w').pending[p] == []
  {
    var w1 := PutFile(w, p, bytes, location);
    PutRefines(w, p, bytes, location);
    PutApplied(View(w), p, bytes);
    hide Good, Legal, View, PutFile, Fresh, Apply, OpenWriter;
    OpenRefines(w1, p, true, random);
    OpenApplied(View(w1), p);
  }

  lemma PutApplied(fs: Fs, p: Path, bytes: Bytes)
    requires Legal(fs, Put(p, bytes))
    ensures var fs' := Apply(fs, Put(p, bytes));
      Legal(fs', Open(p, true)) && (p in fs'.resume ==> fs'.resume[p] == [])
  {
    assert p !in SelfAndAbove(Parent'(p));
  }

  lemma OpenApplied(fs: Fs, p: Path)
    requires p in fs.resume ==> fs.resume[p] == []
    ensures var fs' := Apply(fs, Open(p, true)); p in fs'.pending && fs'.pending[p] == []
  {
  }
}
