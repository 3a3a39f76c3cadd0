/** The storage driver itself: its methods, statement by statement, proved against the operations
    of module World. Every database statement and every call to Swift may fail. */
module PlusDriver {
  import opened Paths
  import opened Storage
  import opened FileSystem
  import opened World
  import opened Refinement
  import opened Steps
  import opened Deletion
  import opened Safety
  import opened Damage
  import opened Swift
  import opened Reading

  class PlusDriver {
    const swift: SwiftInterface
    var files: map<Path, Row>
    var segments: SegmentTable
    // The number of database statements that succeed before one fails; negative when none will.
    var fuse: int
    // The writers that are open at the moment.
    ghost var live: map<Path, Writer>

    constructor (swift: SwiftInterface)
      ensures this.swift == swift
      ensures files == map[] && segments == map[] && live == map[] && fuse < 0
    {
      this.swift := swift;
      files, segments, live, fuse := map[], map[], map[], -1;
    }

    ghost function W(): World
      reads this, swift
    {
      World(files, segments, swift.objects, live)
    }

    /** No statement and no call is going to fail. */
    ghost predicate Steady()
      reads `fuse, swift`fuse
    {
      fuse < 0 && swift.fuse < 0
    }

    /** ok: the database reports success; done: the statement takes effect, which it may although
        its reply was lost. */
    method Attempt() returns (ok: bool, done: bool)
      modifies `fuse
      ensures ok ==> done
      ensures old(fuse) < 0 ==> ok && fuse < 0
    {
      ok := fuse != 0;
      fuse := fuse - 1;
      var replyLost: bool := *;
      done := ok || replyLost;
    }

    /* ---------- rows ---------- */

    method MkdirAll(p: Path) returns (ok: bool)
      modifies `files, `fuse
      ensures ok ==> files == AddDirs(old(files), p, DIRECTORY)
      ensures DirsBegun(old(files), files, p)
      ensures old(fuse) < 0 ==> ok && fuse < 0
      decreases |p|
    {
      hide DirsBegun, AtOrBelow;
      NoDirs(files, p);
      if p == [] {
        AllDirs(files, p);
        return true;
      }
      var done;
      ok, done := Attempt();
      if done && p !in files { files := files[p := DIRECTORY]; }
      ghost var files1 := files;
      FirstDir(old(files), files1, p);
      if !ok { return; }
      ok := MkdirAll(Parent(p));
      MoreDirs(old(files), files1, files, p);
      MoreDirsAll(old(files), p);
    }

    method WriteFileInfo(p: Path, row: Row) returns (ok: bool)
      requires p != []
      modifies `files, `fuse
      ensures ok ==> files == WriteRow(old(files), p, row) && p in files && files[p] == row
      ensures RowBegun(old(files), files, p, row)
      ensures files == old(files) || (p in files && files[p] == row)
      ensures OthersKept(old(files), files, p)
      ensures old(fuse) < 0 ==> ok && fuse < 0
    {
      hide DirsBegun, RowBegun, OthersKept;
      RowNotBegun(files, p, row);
      var done;
      ok, done := Attempt();
      if done { files := files[p := row]; }
      ghost var files1 := files;
      NoDirs(files1, Parent(p));
      RowThenDirs(old(files), files1, p, row);
      RowBegunKept(old(files), files1, p, row);
      if !ok { return; }
      ok := MkdirAll(Parent(p));
      RowThenDirs(old(files), files, p, row);
      RowBegunKept(old(files), files, p, row);
    }

    method ReadSegmentInfo(location: Location) returns (result: seq<Segment>)
      ensures result == if location == "" then [] else SegmentRows(segments, location)
    {
      if location == "" { return []; }
      var rows := SegmentRows(segments, location);
      result := [];
      for i := 0 to |rows|
        invariant result == rows[..i]
      {
        result := result + [Segment(location, rows[i].number, rows[i].size)];
      }
    }

    /** INSERT INTO segments; the primary key does not admit a number twice. */
    method InsertSegment(s: Segment) returns (ok: bool)
      modifies `segments, `fuse
      ensures
        || segments == old(segments)[SegmentKey(s.location, s.number) := s.size]
        || (!ok && segments == old(segments))
      ensures ok || segments != old(segments) ==> SegmentKey(s.location, s.number) !in old(segments)
      ensures old(fuse) < 0 ==> (ok <==> SegmentKey(s.location, s.number) !in old(segments)) && fuse < 0
    {
      var done;
      ok, done := Attempt();
      if SegmentKey(s.location, s.number) in segments { return false; }
      if done { segments := segments[SegmentKey(s.location, s.number) := s.size]; }
    }

    /* ---------- reading ---------- */

    method GetContent(p: Path) returns (r: ReadResult)
      modifies swift`fuse
      ensures r == BackendError || r == Answer(W(), p)
      ensures (p in files ==> RowIntact(W(), p)) ==>
        r == BackendError || r == if IsFile(View(W()), p) then Content(View(W()).nodes[p].bytes) else PathNotFound
      ensures p in files && files[p].size > 0 && files[p].content == [] ==>
        ContentName(files[p].location) !in swift.objects ==> r == PathNotFound || r == BackendError
      ensures old(Steady()) ==> Steady() && r == Answer(W(), p)
    {
      ghost var w := W();
      if p in files ==> RowIntact(w, p) { IntactAnswer(w, p, 0); }
      hide RowIntact, View;
      if p !in files || files[p].IsDir() { return PathNotFound; }
      var row := files[p];
      if row.size == 0 { return Content([]); }
      if |row.content| > 0 { return Content(row.content); }
      var d := swift.Reader(ContentName(row.location), 0);
      match d
      case Body(bytes) => r := Content(bytes);
      case NotFound => r := PathNotFound;
      case Failure => r := BackendError;
    }

    method Reader(p: Path, offset: nat) returns (r: ReadResult)
      modifies swift`fuse
      ensures r == BackendError || r == AnswerFrom(W(), p, offset)
      ensures (p in files ==> RowIntact(W(), p)) ==>
        r == BackendError || r == if IsFile(View(W()), p)
                                  then Content(FromOffset(View(W()).nodes[p].bytes, offset)) else PathNotFound
      ensures p in files && files[p].size >= offset && files[p].location != "" ==>
        ContentName(files[p].location) !in swift.objects ==> r == PathNotFound || r == BackendError
      ensures old(Steady()) ==> Steady() && r == AnswerFrom(W(), p, offset)
    {
      ghost var w := W();
      if p in files ==> RowIntact(w, p) { IntactAnswer(w, p, offset); }
      hide RowIntact, View;
      if p !in files || files[p].IsDir() { return PathNotFound; }
      var row := files[p];
      if offset > row.size { return Content([]); }
      if row.location == "" {
        var data := row.content;
        if offset > 0 {
          if offset > |data| { data := []; } else { data := data[offset..]; }
        }
        return Content(data);
      }
      var d := swift.Reader(ContentName(row.location), offset);
      match d
      case Body(bytes) => r := Content(bytes);
      case NotFound => r := PathNotFound;
      case Failure => r := BackendError;
    }

    method Stat(p: Path) returns (r: StatResult)
      ensures r == StatAnswer(W(), p)
      ensures (p in files ==> RowIntact(W(), p)) ==>
        r == if p == [] then Info(-1)
             else if p !in View(W()).nodes then NoSuchPath
             else match View(W()).nodes[p] case Directory => Info(-1) case File(bytes) => Info(|bytes|)
    {
      ghost var w := W();
      if p in files ==> RowIntact(w, p) { IntactAnswer(w, p, 0); }
      if p == [] { return Info(-1); }
      if p !in files { return NoSuchPath; }
      return Info(files[p].size);
    }

    /** The paths of the rows directly below p, each once. */
    method List(p: Path) returns (result: seq<Path>)
      ensures forall q :: q in result <==> q in Children(files, p)
      ensures forall i, j | 0 <= i < j < |result| :: result[i] != result[j]
    {
      var rows := Children(files, p);
      result := [];
      while rows != {}
        invariant rows <= Children(files, p)
        invariant forall q :: q in result <==> q in Children(files, p) && q !in rows
        invariant forall i, j | 0 <= i < j < |result| :: result[i] != result[j]
        decreases |rows|
      {
        var q :| q in rows;
        rows := rows - {q};
        result := result + [q];
      }
    }

    /* ---------- deleting ---------- */

    method DeleteBlobs(row: Row) returns (ok: bool)
      modifies swift
      ensures ok ==>
        swift.objects == if row.location == "" then old(swift.objects)
                         else DropLocations(old(swift.objects), {row.location})
      ensures forall n | n in swift.objects :: n in old(swift.objects) && swift.objects[n] == old(swift.objects)[n]
      ensures forall n | n in old(swift.objects) && (row.location == "" || n.location != row.location) ::
        n in swift.objects
      ensures old(swift.fuse) < 0 ==> ok && swift.fuse < 0
    {
      if row.location == "" { return true; }
      ok := swift.DeleteAll(row.location);
    }

    /** Deletes p, everything below it, and what is stored for these rows; children go first. */
    method DeleteDownwards(p: Path, row: Row) returns (ok: bool)
      requires p in files && files[p] == row
      modifies `files, `fuse, swift
      ensures Deleting(old(W()), W(), p)
      ensures ok ==> p !in files
      ensures ok ==> W() == DeletePath(old(W()), p)
      ensures old(Steady()) ==> ok && Steady()
      decreases StrictlyBelow(files, p)
    {
      hide Tree, DeletePath, Partly, Deleting, NothingAt;
      ghost var w0 := W();
      ok := DeleteBlobs(row);
      BlobsGone(w0, W(), p);
      if !ok { return; }
      BlobsGoneExactly(w0, W(), p);
      if row.IsDir() {
        ok := DeleteChildren(p, row, w0);
        if !ok { return; }
      }
      PartlyChildless(w0, p);
      PartlyDone(w0, p);
      DeletingRow(w0, W(), p);
      var done;
      ok, done := Attempt();
      if done { files := files - {p}; }
    }

    /** The loop of DeleteDownwards over the rows below a directory. */
    method DeleteChildren(p: Path, row: Row, ghost w0: World) returns (ok: bool)
      requires p in files && files[p] == row
      requires p in w0.files && files == w0.files && Deleting(w0, W(), p) && W() == Partly(w0, p, {})
      requires NothingAt(swift.objects, row.location)
      modifies `files, `fuse, swift
      ensures Deleting(w0, W(), p)
      ensures ok ==> p in files && files[p] == row && NothingAt(swift.objects, row.location)
      ensures ok ==> W() == Partly(w0, p, Children(w0.files, p))
      ensures old(Steady()) ==> ok && Steady()
      decreases StrictlyBelow(files, p), 0
    {
      hide DeletePath, Partly, Deleting, NothingAt, AtOrBelow;
      var rows := map q | q in Children(files, p) :: files[q];
      var rest := rows.Keys;
      assert rows.Keys - rest == {} && rest == Children(w0.files, p);
      ok := true;
      while rest != {}
        invariant rest <= rows.Keys && rows.Keys == Children(w0.files, p)
        invariant forall q | q in rest :: q in files && files[q] == rows[q]
        invariant p in files && files[p] == row
        invariant files.Keys <= w0.files.Keys
        invariant Deleting(w0, W(), p) && NothingAt(swift.objects, row.location)
        invariant W() == Partly(w0, p, rows.Keys - rest)
        invariant ok && (old(Steady()) ==> Steady())
        decreases rest
      {
        var c :| c in rest;
        ghost var w1 := W();
        ChildBelow(files, w0.files, p, c);
        ok := DeleteDownwards(c, rows[c]);
        ChildDone(w0, w1, W(), p, rows.Keys, rest, c, ok);
        FewerRows(w1, W(), c);
        if !ok { return; }
        rest := rest - {c};
      }
      assert rows.Keys - rest == rows.Keys;
    }

    method Delete(p: Path) returns (ok: bool)
      modifies `files, `fuse, swift
      ensures Deleting(old(W()), W(), p)
      ensures ok ==> W() == DeletePath(old(W()), p) && p !in files
      ensures ok ==> Does(old(W()), W(), FileSystem.Delete(p))
      ensures old(Steady()) ==> ok && Steady()
    {
      hide Deleting, Good, View, Legal, Apply;
      ghost var w := W();
      if p !in files {
        DeletingNothing(w, p);
        DeleteDoes(w, W(), p);
        return true;
      }
      ok := DeleteDownwards(p, files[p]);
      if ok { DeleteDoes(w, W(), p); }
    }

    /* ---------- writing ---------- */

    method PutContent(p: Path, contents: Bytes, location: Location) returns (ok: bool)
      requires p != [] && p !in live
      requires |contents| > MAX_INLINE_SIZE ==> Fresh(W(), location)
      modifies `files, `fuse, swift
      ensures PutSafe(old(W()), W(), p)
      ensures PutStage(old(W()), W(), p, contents, location)
      ensures ok ==> W() == PutFile(old(W()), p, contents, location) && Does(old(W()), W(), Put(p, contents))
      ensures ok ==> Heals(old(W()), W(), Put(p, contents))
      ensures old(Steady()) ==> ok && Steady()
    {
      assert |contents| > MAX_INLINE_SIZE ==> location != "" && LocationAt(W(), p) != location;
      hide PutSafe, PutStopped, Putting, NothingAt, OthersKept, Does, Heals, Fresh, WriteRow, RowBegun, PutFile;
      hide PutStage, NewRow, WithoutOld;
      ghost var w := W();
      if p in files {
        ok := DeleteBlobs(files[p]);
        OldBlobs(w, W(), p, ok);
        AtBlobs(w, W(), p, contents, location);
        if !ok { return; }
      } else {
        OldBlobs(w, W(), p, true);
      }
      AtBlobs(w, W(), p, contents, location);
      ghost var w1 := W();
      var uploadToSwift := |contents| > MAX_INLINE_SIZE;
      var row := Row(|contents|, if uploadToSwift then [] else contents, if uploadToSwift then location else "");
      ok := WriteFileInfo(p, row);
      PutRowSafe(w, w1, W(), p, row);
      AtRow(w, w1, W(), p, contents, location, row);
      if !ok { return; }
      ghost var w2 := W();
      if uploadToSwift {
        ok := swift.Write(ContentName(location), contents);
        PutUploaded(w, w2, W(), p, location, Blob(contents));
        AtUpload(w, w1, w2, W(), p, contents, location, row);
      }
      if ok {
        PutIs(w, w1, W(), p, contents, location, row);
        PutDoes(w, W(), p, contents, location);
      }
    }

    /** Points the row of p to target and creates the directories above. */
    method RenameRow(p: Path, target: Path) returns (ok: bool)
      requires p in files && target !in files && target != []
      modifies `files, `fuse
      ensures RowRenamed(old(files), files, p, target)
      ensures ok ==> files == AddDirs((old(files) - {p})[target := old(files)[p]], Parent(target), DIRECTORY)
      ensures old(fuse) < 0 ==> ok && fuse < 0
    {
      hide DirsBegun, RowRenamed;
      var done;
      ok, done := Attempt();
      if done { files := (files - {p})[target := files[p]]; }
      NoDirs(files, Parent(target));
      RowThenDirsRenamed(old(files), files, p, target);
      if !ok { return; }
      ok := MkdirAll(Parent(target));
      RowThenDirsRenamed(old(files), files, p, target);
    }

    method Move(p: Path, target: Path) returns (ok: bool, found: bool)
      requires target != [] && target !in live && p !in live
      modifies `files, `fuse, swift
      ensures found <==> p in old(files)
      ensures MoveSafe(old(W()), W(), p, target)
      ensures p in old(files) && !AtOrBelow(target, p) ==> MoveStopped(old(W()), W(), p, target)
      ensures ok ==> W() == MoveFile(old(W()), p, target)
      ensures ok ==> Does(old(W()), W(), FileSystem.Move(p, target))
      ensures old(Steady()) ==> ok && Steady()
    {
      hide MoveSafe, MoveStopped, Deleting, MoveFile, DeletePath, Does, Renaming, RowRenamed, DirsBegun, AtOrBelow;
      ghost var w := W();
      if p !in files {
        MoveNothing(w, p, target);
        return true, false;
      }
      found := true;
      var row := files[p];
      ok := true;
      if target in files {
        ok := DeleteDownwards(target, files[target]);
      } else {
        DeletingNothing(w, target);
      }
      ghost var w1 := W();
      MoveTargetGone(w, w1, p, target);
      DeletionStopped(w, w1, p, target);
      if ok { TargetDeleted(w, w1, target); }
      if !ok { return; }
      if p in files {
        ok := RenameRow(p, target);
        RenamingRow(w1, W(), p, target);
        RenameStopped(w, w1, W(), p, target);
      } else {
        // The row went away with the target: the update matches nothing.
        var done;
        ok, done := Attempt();
        NoDirs(files, Parent(target));
        if ok { ok := MkdirAll(Parent(target)); }
        RenamingDirs(w1, W(), p, target);
        GoneWithTarget(w, w1, p, target);
      }
      MoveRenamed(w, w1, W(), p, target);
      if ok {
        MoveSucceeded(w, w1, W(), p, target);
        MoveDoes(w, W(), p, target);
      }
    }
  }

  /** Some of the missing directories of p were created, from p itself upwards. */
  ghost predicate DirsBegun(files: map<Path, Row>, files': map<Path, Row>, p: Path)
    ensures DirsBegun(files, files', p) ==> forall q | q in files :: q in files' && files'[q] == files[q]
    ensures DirsBegun(files, files', p) ==>
      forall q | q in files' && q !in files :: files'[q] == DIRECTORY && q != [] && AtOrBelow(q, p)
  {
    exists k | 0 < k <= |p| + 1 :: files' == AddDirsFrom(files, p, k, DIRECTORY)
  }

  lemma NoDirs(files: map<Path, Row>, p: Path)
    ensures DirsBegun(files, files, p)
  {
    assert files == AddDirsFrom(files, p, |p| + 1, DIRECTORY);
  }

  lemma AllDirs(files: map<Path, Row>, p: Path)
    ensures AddDirsFrom(files, p, 1, DIRECTORY) == AddDirs(files, p, DIRECTORY)
  {
  }

  lemma FirstDir(files: map<Path, Row>, files1: map<Path, Row>, p: Path)
    requires p != [] && (files1 == files || (p !in files && files1 == files[p := DIRECTORY]))
    ensures DirsBegun(files, files1, p)
  {
    if files1 == files {
      NoDirs(files, p);
    } else {
      forall q | AtOrBelow(q, p) && |p| <= |q| ensures q == p {}
      assert files1 == AddDirsFrom(files, p, |p|, DIRECTORY);
    }
  }

  lemma MoreDirs(files: map<Path, Row>, files1: map<Path, Row>, files2: map<Path, Row>, p: Path)
    requires p != [] && files1 == (if p in files then files else files[p := DIRECTORY])
    requires DirsBegun(files1, files2, Parent(p))
    ensures DirsBegun(files, files2, p)
  {
    var k :| 0 < k <= |Parent(p)| + 1 && files2 == AddDirsFrom(files1, Parent(p), k, DIRECTORY);
    forall q ensures AtOrBelow(q, p) <==> q == p || AtOrBelow(q, Parent(p)) {}
    hide AtOrBelow;
    assert files2 == AddDirsFrom(files, p, k, DIRECTORY);
  }

  lemma MoreDirsAll(files: map<Path, Row>, p: Path)
    requires p != []
    ensures AddDirs(if p in files then files else files[p := DIRECTORY], Parent(p), DIRECTORY) ==
        AddDirs(files, p, DIRECTORY)
  {
  }

  /** Nothing happened, or the row is there with some of the directories above it, from the deepest
      one upwards. */
  ghost predicate RowBegun(files: map<Path, Row>, files': map<Path, Row>, p: Path, row: Row)
    requires p != []
  {
    files' == files || exists k | 0 < k <= |p| :: files' == Interrupted(files, p, row, k)
  }

  lemma RowBegunKept(files: map<Path, Row>, files': map<Path, Row>, p: Path, row: Row)
    requires p != [] && RowBegun(files, files', p, row)
    ensures files' == files || (p in files' && files'[p] == row)
    ensures OthersKept(files, files', p)
  {
    if files' != files {
      var k :| 0 < k <= |p| && files' == Interrupted(files, p, row, k);
      InterruptedKept(files, p, row, k);
    }
  }

  lemma InterruptedKept(files: map<Path, Row>, p: Path, row: Row, k: nat)
    requires p != []
    ensures var r := Interrupted(files, p, row, k); p in r && r[p] == row && OthersKept(files, r, p)
  {
    var r := Interrupted(files, p, row, k);
    hide AddDirsFrom;
    forall q | q in r && q != p && q !in files ensures r[q] == DIRECTORY && q != [] && AtOrBelow(q, p) {
      assert AtOrBelow(q, Parent(p));
    }
  }

  lemma RowNotBegun(files: map<Path, Row>, p: Path, row: Row)
    requires p != []
    ensures RowBegun(files, files, p, row)
  {
  }

  lemma RowThenDirs(files: map<Path, Row>, files': map<Path, Row>, p: Path, row: Row)
    requires p != [] && (DirsBegun(files[p := row], files', Parent(p)) || files' == files)
    ensures RowBegun(files, files', p, row)
  {
    if files' != files {
      var k :| 0 < k <= |Parent(p)| + 1 && files' == AddDirsFrom(files[p := row], Parent(p), k, DIRECTORY);
      assert files' == Interrupted(files, p, row, k);
    }
  }

  /** The recursion ends: the rows below a child are fewer than those below its parent. */
  lemma ChildBelow(files: map<Path, Row>, files0: map<Path, Row>, p: Path, c: Path)
    requires c in files && c in Children(files0, p) && files.Keys <= files0.Keys
    ensures StrictlyBelow(files, c) < StrictlyBelow(files0, p)
  {
    assert AtOrBelow(p, c) && c in StrictlyBelow(files0, p);
    forall q | q in StrictlyBelow(files, c) ensures q in StrictlyBelow(files0, p) {
      AtOrBelowTransitive(p, c, q);
    }
  }

  lemma FewerRows(w: World, w': World, c: Path)
    requires Deleting(w, w', c)
    ensures w'.files.Keys <= w.files.Keys
  {
  }

  lemma DeletingNothing(w: World, p: Path)
    ensures Deleting(w, w, p)
  {
  }

  lemma DeleteDoes(w: World, w': World, p: Path)
    requires w' == DeletePath(w, p)
    ensures Does(w, w', FileSystem.Delete(p))
  {
    if Good(w) && Legal(View(w), FileSystem.Delete(p)) {
      hide Legal, View, Isolated, RowIntact, WriterIntact, DeletePath;
      DeleteRefines(w, p);
    }
  }

  /** Wherever a put at p stops: locations are isolated and nothing leaks, all other paths are
      untouched, and there is no damage but at p. */
  ghost predicate PutSafe(w: World, w': World, p: Path) {
    && Safe(w, w')
    && (Isolated(w) ==> forall q | q in w.files && q != p :: Untouched(w, w', q))
    && (GoodExcept(w, p) ==> GoodExcept(w', p) && Healed(w', p) == Healed(w, p))
  }

  lemma PutUntouched(w: World, w': World, p: Path)
    requires Putting(w, w', p)
    ensures Isolated(w) ==> forall q | q in w.files && q != p :: Untouched(w, w', q)
  {
    hide Untouched, Putting, Isolated;
    if Isolated(w) {
      forall q | q in w.files && q != p ensures Untouched(w, w', q) { PuttingUntouched(w, w', p, q); }
    }
  }

  /** The old row with some of its objects, or another one at a new location. */
  ghost predicate PutStopped(w: World, w': World, p: Path) {
    && w'.segments == w.segments && w'.live == w.live && p !in w.live && p != []
    && OthersKept(w.files, w'.files, p)
    && (p in w'.files && w'.files[p].IsDir() ==> p in w.files && w.files[p].IsDir())
    && (forall n: ObjectName | !(n.location == LocationAt(w, p) != "") && !(n.location == LocationAt(w', p) != "") ::
         (n in w'.objects <==> n in w.objects) && (n in w.objects ==> w'.objects[n] == w.objects[n]))
    && (LocationAt(w', p) == LocationAt(w, p) ||
         (NothingAt(w'.objects, LocationAt(w, p)) &&
          forall n | n in w.objects && LocationAt(w', p) != "" :: n.location != LocationAt(w', p)))
  }

  lemma StoppedObjects(w: World, w': World, p: Path)
    requires PutStopped(w, w', p)
    ensures Healed(w', p).objects == Healed(w, p).objects
  {
    hide AddDirs, OthersKept;
    assert forall n :: n in w'.objects && !Stray(w', p, n) <==> n in w.objects && !Stray(w, p, n);
  }

  lemma StoppedFiles(files: map<Path, Row>, files': map<Path, Row>, p: Path)
    requires OthersKept(files, files', p) && p != []
    ensures AddDirs(files' - {p}, Parent'(p), DIRECTORY) == AddDirs(files - {p}, Parent'(p), DIRECTORY)
  {
    forall q | q != [] && q != p && AtOrBelow(q, p) ensures AtOrBelow(q, Parent'(p)) { AtOrBelowParent(q, p); }
  }

  lemma StoppedDamage(w: World, w': World, p: Path)
    requires GoodExcept(w, p) && PutStopped(w, w', p) && Isolated(w')
    ensures GoodExcept(w', p) && Healed(w', p) == Healed(w, p)
  {
    StoppedObjects(w, w', p);
    StoppedFiles(w.files, w'.files, p);
    StoppedCanHold(w, w', p);
    hide CanHoldRow, Isolated, Good, PutStopped, AddDirs;
    SameWorld(Healed(w', p), Healed(w, p)) by { HealedFrame(w, p); HealedFrame(w', p); StoppedRest(w, w', p); }
  }

  lemma StoppedCanHold(w: World, w': World, p: Path)
    requires CanHoldRow(w.files, p) && PutStopped(w, w', p)
    ensures CanHoldRow(w'.files, p)
  {
  }

  lemma StoppedRest(w: World, w': World, p: Path)
    requires PutStopped(w, w', p)
    ensures w'.segments == w.segments && w'.live == w.live
  {
  }

  lemma SameWorld(a: World, b: World)
    requires a.files == b.files && a.segments == b.segments && a.objects == b.objects && a.live == b.live
    ensures a == b
  {
  }

  lemma PutSafeIf(w: World, w': World, p: Path)
    requires Safe(w, w') && (Isolated(w) ==> forall q | q in w.files && q != p :: Untouched(w, w', q))
    requires PutStopped(w, w', p)
    ensures PutSafe(w, w', p)
  {
    hide PutStopped, Isolated, NoLeak, Untouched, GoodExcept, Healed;
    if GoodExcept(w, p) {
      assert Isolated(w) by { ExceptIsolated(w, p); }
      StoppedDamage(w, w', p);
    }
  }

  /** After the attempt to delete the blobs of the old row. */
  lemma OldBlobs(w: World, w': World, p: Path, ok: bool)
    requires w' == w.(objects := w'.objects) && p !in w.live && p != []
    requires forall n | n in w'.objects :: n in w.objects && w'.objects[n] == w.objects[n]
    requires forall n | n in w.objects && (LocationAt(w, p) == "" || n.location != LocationAt(w, p)) :: n in w'.objects
    requires ok ==> LocationAt(w, p) == "" || w'.objects == DropLocations(w.objects, {LocationAt(w, p)})
    ensures PutSafe(w, w', p) && Putting(w, w', p)
    ensures ok ==> NothingAt(w'.objects, LocationAt(w, p))
  {
    hide PutSafe, Safe;
    OldBlobsGone(w, w', p);
    OldBlobsSafe(w, w', p);
  }

  lemma AtBlobs(w: World, w': World, p: Path, contents: Bytes, location: Location)
    requires p != [] && w' == w.(objects := w'.objects)
    requires forall n | n in w'.objects :: n in w.objects && w'.objects[n] == w.objects[n]
    requires forall n | n in w.objects && (LocationAt(w, p) == "" || n.location != LocationAt(w, p)) :: n in w'.objects
    ensures PutStage(w, w', p, contents, location)
  {
    hide RowStage, UploadStage;
    assert BlobsStage(w, w', p);
  }

  lemma AtRow(w: World, w1: World, w2: World, p: Path, contents: Bytes, location: Location, row: Row)
    requires p != [] && w1 == w.(objects := WithoutOld(w, p)) && PutStage(w, w1, p, contents, location)
    requires row == if |contents| > MAX_INLINE_SIZE then Row(|contents|, [], location)
                    else Row(|contents|, contents, "")
    requires w2 == w1.(files := w2.files) && RowBegun(w.files, w2.files, p, row)
    ensures PutStage(w, w2, p, contents, location)
  {
    hide BlobsStage, UploadStage, WithoutOld;
    if w2.files == w.files {
      assert w2 == w1;
    } else {
      var k :| 0 < k <= |p| && w2.files == Interrupted(w.files, p, row, k);
      assert RowStage(w, w2, p, contents, location, k);
    }
  }

  lemma AtUpload(w: World, w1: World, w2: World, w3: World, p: Path, contents: Bytes, location: Location, row: Row)
    requires p != [] && w1 == w.(objects := WithoutOld(w, p)) && PutStage(w, w2, p, contents, location)
    requires |contents| > MAX_INLINE_SIZE && row == Row(|contents|, [], location)
    requires w2 == w1.(files := WriteRow(w.files, p, row))
    requires w3 == w2 || w3 == w2.(objects := w2.objects[ContentName(location) := Blob(contents)])
    ensures PutStage(w, w3, p, contents, location)
  {
    hide BlobsStage, RowStage, WithoutOld, WriteRow;
    assert w3 != w2 ==> UploadStage(w, w3, p, contents, location);
  }

  lemma OldBlobsSafe(w: World, w': World, p: Path)
    requires Putting(w, w', p) && w'.files == w.files && Safe(w, w') && p !in w.live && p != []
    ensures PutSafe(w, w', p)
  {
    hide Safe, Isolated, Untouched, PutSafe;
    PutUntouched(w, w', p);
    assert PutStopped(w, w', p);
    PutSafeIf(w, w', p);
  }

  /** After the attempt to write the new row, whether it came through or not. */
  lemma PutRowSafe(w: World, w1: World, w2: World, p: Path, row: Row)
    requires Putting(w, w1, p) && w1.files == w.files && NothingAt(w1.objects, LocationAt(w, p)) && PutSafe(w, w1, p)
    requires p !in w.live && p != [] && (row.location == "" || Fresh(w, row.location)) && !row.IsDir()
    requires w2 == w1.(files := w2.files) && OthersKept(w1.files, w2.files, p)
    requires w2.files == w1.files || (p in w2.files && w2.files[p] == row)
    ensures PutSafe(w, w2, p)
    ensures p in w2.files && w2.files[p] == row ==> PutStopped(w, w2, p)
  {
    assert Safe(w, w1);
    hide Isolated, NoLeak, Fresh, Untouched, PutSafe, PutStopped, Safe;
    assert Putting(w, w2, p);
    PutUntouched(w, w2, p);
    if w2.files != w1.files {
      NewRowSafe(w, w2, p, row);
    } else {
      assert w2 == w1;
    }
    PutRowStopped(w, w1, w2, p, row);
    PutSafeIf(w, w2, p);
  }

  lemma NewRowSafe(w: World, w2: World, p: Path, row: Row)
    requires Putting(w, w2, p) && NothingAt(w2.objects, LocationAt(w, p))
    requires p !in w.live && p in w2.files && w2.files[p] == row && (row.location == "" || Fresh(w, row.location))
    ensures Safe(w, w2)
  {
    hide Isolated, NoLeak, Fresh;
    NewRowIsolated(w, w2, p, row);
    NewRowNoLeak(w, w2, p, row);
  }

  lemma PutRowStopped(w: World, w1: World, w2: World, p: Path, row: Row)
    requires Putting(w, w1, p) && w1.files == w.files && NothingAt(w1.objects, LocationAt(w, p))
    requires p !in w.live && p != [] && (row.location == "" || Fresh(w, row.location)) && !row.IsDir()
    requires w2 == w1.(files := w2.files) && OthersKept(w1.files, w2.files, p)
    requires w2.files == w1.files || (p in w2.files && w2.files[p] == row)
    ensures PutStopped(w, w2, p)
  {
    hide AtOrBelow;
  }

  /** After the upload, whether it came through or not. */
  lemma PutUploaded(w: World, w2: World, w3: World, p: Path, location: Location, o: Object)
    requires PutSafe(w, w2, p) && PutStopped(w, w2, p)
    requires p in w2.files && w2.files[p].location == location != ""
    requires w3.objects == w2.objects || w3.objects == w2.objects[ContentName(location) := o]
    requires w3 == w2.(objects := w3.objects)
    requires LocationAt(w, p) == "" || LocationAt(w, p) != location
    ensures PutSafe(w, w3, p)
  {
    hide NoLeak, Isolated, GoodExcept, Healed, PutStopped, Untouched;
    if w3.objects != w2.objects {
      UploadSafe(w2, w3, p, ContentName(location), o);
      if Isolated(w) {
        forall q | q in w.files && q != p ensures Untouched(w, w3, q) {
          OthersThere(w, w2, p, q);
          UntouchedTransitive(w, w2, w3, q);
        }
      }
      UploadStopped(w, w2, w3, p, o);
      PutSafeIf(w, w3, p);
    } else {
      assert w3 == w2;
    }
  }

  lemma OthersThere(w: World, w2: World, p: Path, q: Path)
    requires PutStopped(w, w2, p) && q in w.files && q != p
    ensures q in w2.files
  {
  }

  lemma UploadStopped(w: World, w2: World, w3: World, p: Path, o: Object)
    requires PutStopped(w, w2, p) && LocationAt(w2, p) != "" && LocationAt(w2, p) != LocationAt(w, p)
    requires w3 == w2.(objects := w2.objects[ContentName(LocationAt(w2, p)) := o])
    ensures PutStopped(w, w3, p)
  {
    hide OthersKept;
  }

  lemma PutIs(w: World, w1: World, w': World, p: Path, contents: Bytes, location: Location, row: Row)
    requires row == if |contents| > MAX_INLINE_SIZE then Row(|contents|, [], location)
                    else Row(|contents|, contents, "")
    requires w1.objects == if LocationAt(w, p) == "" then w.objects else DropLocations(w.objects, {LocationAt(w, p)})
    requires w'.files == WriteRow(w.files, p, row) && w'.segments == w.segments && w'.live == w.live
    requires w'.objects == if |contents| > MAX_INLINE_SIZE then w1.objects[ContentName(location) := Blob(contents)]
                           else w1.objects
    ensures w' == PutFile(w, p, contents, location)
  {
    hide WriteRow, DropLocations;
  }

  lemma PutDoes(w: World, w': World, p: Path, contents: Bytes, location: Location)
    requires w' == PutFile(w, p, contents, location) && p !in w.live
    requires |contents| > MAX_INLINE_SIZE ==> Fresh(w, location)
    ensures Does(w, w', Put(p, contents)) && Heals(w, w', Put(p, contents))
  {
    hide Good, GoodExcept, Legal, View, Fresh, PutFile, Apply;
    if Good(w) && Legal(View(w), Put(p, contents)) { PutRefines(w, p, contents, location); }
    if GoodExcept(w, p) { PutHeals(w, p, contents, location); }
  }

  lemma MoveNothing(w: World, p: Path, target: Path)
    requires p !in w.files
    ensures MoveSafe(w, w, p, target) && Does(w, w, FileSystem.Move(p, target)) && w == MoveFile(w, p, target)
  {
  }

  lemma MoveTargetGone(w: World, w1: World, p: Path, target: Path)
    requires p in w.files && Deleting(w, w1, target)
    ensures MoveSafe(w, w1, p, target)
    ensures p in w1.files ==> w1.files[p] == w.files[p]
    ensures w1.live == w.live
  {
    hide Safe, Untouched, Isolated, NoLeak, Tree;
    DeletingIsSafe(w, w1, target);
  }

  /** Wherever a move stops: locations are isolated and nothing leaks, and all paths but the source
      and the tree at the target are untouched. */
  ghost predicate MoveSafe(w: World, w': World, p: Path, target: Path) {
    && Safe(w, w')
    && (Isolated(w) ==> forall q | q in w.files && q != p && !AtOrBelow(target, q) :: Untouched(w, w', q))
  }

  lemma TargetDeleted(w: World, w1: World, target: Path)
    requires if target in w.files then w1 == DeletePath(w, target) else w1 == w
    ensures w1 == DeletePath(w, target)
  {
  }

  /** Nothing happened, or the row was renamed and some of the directories above it were created. */
  ghost predicate RowRenamed(files: map<Path, Row>, files': map<Path, Row>, p: Path, target: Path)
    requires p in files
  {
    || files' == files
    || (target != [] && exists k | 0 < k <= |target| :: files' == Interrupted(files - {p}, target, files[p], k))
  }

  lemma RowThenDirsRenamed(files: map<Path, Row>, files': map<Path, Row>, p: Path, target: Path)
    requires p in files && target != []
    requires files' == files || DirsBegun((files - {p})[target := files[p]], files', Parent(target))
    ensures RowRenamed(files, files', p, target)
  {
    if files' != files {
      var k :| 0 < k <= |Parent(target)| + 1
        && files' == AddDirsFrom((files - {p})[target := files[p]], Parent(target), k, DIRECTORY);
      assert files' == Interrupted(files - {p}, target, files[p], k);
    }
  }

  lemma RenamingRow(w1: World, w2: World, p: Path, target: Path)
    requires p in w1.files && target != []
    requires RowRenamed(w1.files, w2.files, p, target) && w2 == w1.(files := w2.files)
    ensures Renaming(w1, w2, p, target)
  {
    hide OthersKept, RowBegun;
    if w2.files != w1.files {
      var row := w1.files[p];
      assert RowBegun(w1.files - {p}, w2.files, target, row) by { RenamedIsBegun(w1.files, w2.files, p, target); }
      RowBegunKept(w1.files - {p}, w2.files, target, row);
      RenamedThere(w1.files, w2.files, p, target);
    }
  }

  lemma RenamedIsBegun(files: map<Path, Row>, files': map<Path, Row>, p: Path, target: Path)
    requires p in files && target != [] && RowRenamed(files, files', p, target) && files' != files
    ensures RowBegun(files - {p}, files', target, files[p])
  {
  }

  lemma RenamedThere(files: map<Path, Row>, files': map<Path, Row>, p: Path, target: Path)
    requires p in files && target != [] && RowRenamed(files, files', p, target) && files' != files
    ensures target in files' && files'[target] == files[p]
  {
    hide AtOrBelow;
  }

  lemma DeletionStopped(w: World, w1: World, p: Path, target: Path)
    requires p in w.files && target != [] && Deleting(w, w1, target)
    ensures MoveStopped(w, w1, p, target)
    ensures p in w1.files || AtOrBelow(target, p)
  {
    hide Isolated, NoLeak, Tree;
  }

  lemma RenameStopped(w: World, w1: World, w2: World, p: Path, target: Path)
    requires p in w.files && target != [] && Deleting(w, w1, target) && w1 == DeletePath(w, target) && p in w1.files
    requires RowRenamed(w1.files, w2.files, p, target) && w2 == w1.(files := w2.files)
    ensures MoveStopped(w, w2, p, target)
  {
    hide Deleting, DeletePath;
    if w2.files != w1.files {
      var k :| 0 < k <= |target| && w2.files == Interrupted(w1.files - {p}, target, w1.files[p], k);
      assert w2 == RenamedAt(w1, p, target, k);
    } else {
      assert w2 == w1;
    }
  }

  lemma GoneWithTarget(w: World, w1: World, p: Path, target: Path)
    requires p in w.files && Deleting(w, w1, target) && p !in w1.files
    ensures AtOrBelow(target, p)
  {
    hide Isolated, NoLeak, Tree, AtOrBelow;
  }

  lemma RenamingDirs(w1: World, w2: World, p: Path, target: Path)
    requires p !in w1.files && target != [] && DirsBegun(w1.files, w2.files, Parent(target))
    requires w2 == w1.(files := w2.files)
    ensures Renaming(w1, w2, p, target)
  {
    hide DirsBegun;
  }

  lemma RenameNoLeak(w1: World, w2: World, p: Path, target: Path)
    requires NoLeak(w1) && p in w1.files && target !in w1.files
    requires w2 == w1.(files := w2.files)
    requires target in w2.files && w2.files[target] == w1.files[p]
    requires OthersKept(w1.files - {p}, w2.files, target)
    ensures NoLeak(w2)
  {
    forall n | n in w2.objects ensures Referenced(w2, n.location) {
      assert Referenced(w1, n.location);
      if q :| q in w1.files && w1.files[q].location == n.location {
        if q == p { assert w2.files[target].location == n.location; }
        else { assert q in w1.files - {p}; assert w2.files[q].location == n.location; }
      }
    }
  }

  lemma DirsAdded(w1: World, w2: World)
    requires w2 == w1.(files := w2.files)
    requires forall q | q in w1.files :: q in w2.files && w2.files[q] == w1.files[q]
    requires forall q | q in w2.files && q !in w1.files :: w2.files[q] == DIRECTORY
    ensures Safe(w1, w2)
  {
    if NoLeak(w1) {
      forall n | n in w2.objects ensures Referenced(w2, n.location) {
        assert Referenced(w1, n.location);
        if q :| q in w1.files && w1.files[q].location == n.location { assert w2.files[q].location == n.location; }
      }
    }
  }

  /** Either the row was renamed, or at most directories were added. */
  ghost predicate Renaming(w1: World, w2: World, p: Path, target: Path) {
    && w2 == w1.(files := w2.files)
    && (p in w1.files && w2.files != w1.files ==>
          target in w2.files && w2.files[target] == w1.files[p] && OthersKept(w1.files - {p}, w2.files, target))
    && (p !in w1.files || w2.files == w1.files ==>
          && (forall q | q in w1.files :: q in w2.files && w2.files[q] == w1.files[q])
          && (forall q | q in w2.files && q !in w1.files :: w2.files[q] == DIRECTORY))
  }

  /** After the attempt to rename the row and to create the directories above it. */
  lemma MoveRenamed(w: World, w1: World, w2: World, p: Path, target: Path)
    requires p in w.files && target !in w1.files && target !in w1.live && p !in w1.live && MoveSafe(w, w1, p, target)
    requires Renaming(w1, w2, p, target)
    ensures MoveSafe(w, w2, p, target)
  {
    hide Untouched;
    RenamingSafe(w1, w2, p, target);
    hide NoLeak, Isolated, Renaming, AtOrBelow;
    SafeTransitive(w, w1, w2);
    if Isolated(w) {
      forall q | q in w.files && q != p && !AtOrBelow(target, q) ensures Untouched(w, w2, q) {
        StillUntouched(w, w1, w2, p, target, q);
      }
    }
  }

  lemma StillUntouched(w: World, w1: World, w2: World, p: Path, target: Path, q: Path)
    requires Untouched(w, w1, q) && Renaming(w1, w2, p, target) && q != p && !AtOrBelow(target, q)
    ensures Untouched(w, w2, q)
  {
    if q == target { AtOrBelowItself(q); }
    hide AtOrBelow;
    if p in w1.files && w2.files != w1.files { assert q in w1.files - {p}; }
  }

  lemma RenamingSafe(w1: World, w2: World, p: Path, target: Path)
    requires target !in w1.files && target !in w1.live && p !in w1.live && Renaming(w1, w2, p, target)
    ensures Safe(w1, w2)
  {
    hide Isolated, NoLeak, OthersKept;
    if p in w1.files && w2.files != w1.files {
      if Isolated(w1) {
        RenameIsolated(w1, w2, p, target);
        if NoLeak(w1) { RenameNoLeak(w1, w2, p, target); }
      }
    } else {
      DirsAdded(w1, w2);
    }
  }

  lemma MoveSucceeded(w: World, w1: World, w2: World, p: Path, target: Path)
    requires p in w.files && (p in w1.files ==> w1.files[p] == w.files[p]) && target != []
    requires w1 == DeletePath(w, target)
    requires w2 == w1.(files := w2.files)
    requires w2.files == AddDirs(if p in w1.files then (w1.files - {p})[target := w1.files[p]] else w1.files,
                                 Parent(target), DIRECTORY)
    ensures w2 == MoveFile(w, p, target)
  {
  }

  lemma MoveDoes(w: World, w': World, p: Path, target: Path)
    requires w' == MoveFile(w, p, target)
    ensures Does(w, w', FileSystem.Move(p, target))
  {
    hide Legal, View, Isolated, RowIntact, WriterIntact, MoveFile;
    if Good(w) && Legal(View(w), FileSystem.Move(p, target)) { MoveRefines(w, p, target); }
  }
}
