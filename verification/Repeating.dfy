/** What a client gets who repeats a Delete or Move that has failed half-way. */
module Repeating {
  import opened Paths
  import opened Storage
  import opened FileSystem
  import opened World
  import opened Refinement
  import opened Steps
  import opened Damage
  import opened Deletion
  import opened Safety

  lemma TreeAlwaysDeleted(w: World, p: Path)
    requires Tree(w.files) && p != []
    ensures DeletePath(w, p) == DeleteTree(w, p)
  {
    if p in w.files {
      TreeDeleted(w, p);
    } else {
      NoneBelow(w.files, p);
      NothingDropped(w, p);
      hide Tree, AtOrBelow;
      assert RemoveTree(w.files, p) == w.files;
    }
  }

  /** Where the deletion has stopped, nothing is left of the rows that are gone. */
  lemma NothingLeft(w: World, w': World, p: Path, n: ObjectName)
    requires Isolated(w) && NoLeak(w) && Deleting(w, w', p) && NoWriterBelow(w, p)
    requires n in w'.objects && n.location in LocationsIn(w.files, p)
    ensures n.location in LocationsIn(w'.files, p)
  {
    hide Tree;
    assert Referenced(w', n.location);
    var r :| r in w.files && AtOrBelow(p, r) && w.files[r].location == n.location;
    assert forall q | q in w'.live :: w'.live[q].location != n.location;
    var q :| q in w'.files && w'.files[q].location == n.location;
    assert q == r;
  }

  lemma SameAfterDeletion(w: World, w': World, p: Path)
    requires Isolated(w) && NoLeak(w) && Deleting(w, w', p) && NoWriterBelow(w, p)
    ensures DeleteTree(w', p) == DeleteTree(w, p)
  {
    hide Tree, Isolated, NoLeak, NoWriterBelow, LocationsIn, Deleting;
    forall n | n in w'.objects ensures n.location in LocationsIn(w.files, p) <==>
        n.location in LocationsIn(w'.files, p) {
      if n.location in LocationsIn(w.files, p) { NothingLeft(w, w', p, n); }
      if n.location in LocationsIn(w'.files, p) { FewerLocations(w, w', p, n.location); }
    }
    DeletionFrame(w, w', p);
    SameObjects(w.objects, w'.objects, LocationsIn(w.files, p), LocationsIn(w'.files, p));
  }

  lemma DeletionFrame(w: World, w': World, p: Path)
    requires Deleting(w, w', p)
    ensures RemoveTree(w'.files, p) == RemoveTree(w.files, p)
    ensures w'.segments == w.segments && w'.live == w.live
    ensures forall n | n in w'.objects :: n in w.objects && w'.objects[n] == w.objects[n]
    ensures forall n | n in w.objects :: n in w'.objects || n.location in LocationsIn(w.files, p)
  {
    hide Tree, Isolated, NoLeak, LocationsIn, AtOrBelow;
  }

  lemma SameObjects(objects: Bucket, objects': Bucket, a: set<Location>, b: set<Location>)
    requires forall n | n in objects' :: n in objects && objects'[n] == objects[n]
    requires forall n | n in objects :: n in objects' || n.location in a
    requires forall n | n in objects' :: n.location in a <==> n.location in b
    ensures DropLocations(objects', b) == DropLocations(objects, a)
  {
  }

  lemma FewerLocations(w: World, w': World, p: Path, l: Location)
    requires Deleting(w, w', p) && l in LocationsIn(w'.files, p)
    ensures l in LocationsIn(w.files, p)
  {
    hide Tree, Isolated, NoLeak;
  }

  lemma NothingToDelete(w: World, w': World, p: Path)
    requires Tree(w.files) && p != [] && p !in w.files && Deleting(w, w', p)
    ensures w' == w
  {
    NoneBelow(w.files, p);
    hide Tree, Isolated, NoLeak, AtOrBelow;
    assert LocationsIn(w.files, p) == {};
    assert w'.objects == w.objects && w'.files == w.files;
  }

  /** Wherever a deletion has stopped: repeating it is as good as a success at the first attempt. */
  lemma DeleteRepeated(w: World, w': World, p: Path)
    requires Good(w) && NoLeak(w) && p != [] && Deleting(w, w', p)
    requires p in w.files ==> NoWriterBelow(w, p)
    ensures DeletePath(w', p) == DeletePath(w, p)
  {
    assert Tree(w.files) && Tree(w'.files) && Isolated(w);
    hide Good, Tree, Isolated, NoLeak, Deleting, DeletePath, DeleteTree, NoWriterBelow;
    if p in w.files {
      SameAfterDeletion(w, w', p);
      TreeAlwaysDeleted(w, p);
      TreeAlwaysDeleted(w', p);
    } else {
      NothingToDelete(w, w', p);
    }
  }

  /* ---------- Move ---------- */

  /** What a legal move of a file asks of the tables. */
  lemma LegalMove(w: World, p: Path, target: Path)
    requires Good(w) && p in w.files && Legal(View(w), Move(p, target))
    ensures target != [] && !AtOrBelow(target, p) && !w.files[p].IsDir()
    ensures target in w.files ==> NoWriterBelow(w, target)
  {
    hide Good, RowIntact, WriterIntact, Isolated, Tree, ObjectBytes, AtOrBelow, Resume;
    assert forall q | q in w.live :: q in View(w).pending;
  }

  /** The row is still where it was: the move goes through as at the first attempt. */
  lemma MoveNotYet(w: World, w': World, p: Path, target: Path)
    requires Good(w) && NoLeak(w) && p in w.files && Legal(View(w), Move(p, target)) && Deleting(w, w', target)
    ensures p in w'.files && w'.files[p] == w.files[p] && MoveFile(w', p, target) == MoveFile(w, p, target)
  {
    LegalMove(w, p, target);
    assert p in w'.files && w'.files[p] == w.files[p] by { hide Good, NoLeak, Isolated, Tree, Legal; }
    hide Good, NoLeak, Deleting, DeletePath, Legal, View, NoWriterBelow;
    DeleteRepeated(w, w', target);
  }

  /** The row was renamed. What a repetition does depends on what is at the source now. */
  lemma MoveAlready(w: World, w': World, p: Path, target: Path, k: nat)
    requires Good(w) && p in w.files && Legal(View(w), Move(p, target)) && p in DeletePath(w, target).files
    requires 0 < k <= |target| && w' == RenamedAt(DeletePath(w, target), p, target, k)
    ensures p in w'.files ==> w'.files[p] == DIRECTORY && MoveFile(w', p, target) != MoveFile(w, p, target)
    ensures p !in w'.files ==> (MoveFile(w', p, target) == MoveFile(w, p, target) <==> Tree(w'.files))
  {
    LegalMove(w, p, target);
    var w1 := DeletePath(w, target);
    DeletePathLives(w, target);
    MovedFully(w, p, target);
    RenamedRows(w1, p, target, k);
    MoveRefines(w, p, target);
    GoodIsTree(MoveFile(w, p, target));
    hide Good, Legal, View, Tree, DeletePath, AtOrBelow, Apply;
    if p in w'.files {
      RowAtTarget(w', p, target);
      RowAtTarget(w, p, target);
    } else {
      RenamedTree(w1, p, target, k);
    }
  }

  lemma MovedFully(w: World, p: Path, target: Path)
    requires p in w.files && target != [] && p in DeletePath(w, target).files
    ensures DeletePath(w, target).files[p] == w.files[p]
    ensures MoveFile(w, p, target) == RenamedAt(DeletePath(w, target), p, target, 1)
  {
    DeletePathLives(w, target);
    hide DeletePath;
    AllDirsFrom((w.files - {p})[target := w.files[p]], Parent(target));
    var w1 := DeletePath(w, target);
    AllDirsFrom((w1.files - {p})[target := w1.files[p]], Parent(target));
  }

  lemma AllDirsFrom(files: map<Path, Row>, p: Path)
    ensures AddDirsFrom(files, p, 1, DIRECTORY) == AddDirs(files, p, DIRECTORY)
  {
    hide AtOrBelow;
  }

  lemma RenamedRows(w1: World, p: Path, target: Path, k: nat)
    requires p in w1.files && target != [] && p != target
    ensures var files := RenamedAt(w1, p, target, k).files;
      && target in files && files[target] == w1.files[p]
      && (p in files ==> files[p] == DIRECTORY)
  {
    hide AtOrBelow;
  }

  /** After a move of the row at p that row is at target. */
  lemma RowAtTarget(w: World, p: Path, target: Path)
    requires p in w.files && target != []
    ensures p in DeletePath(w, target).files ==>
      target in MoveFile(w, p, target).files && MoveFile(w, p, target).files[target] == w.files[p]
    ensures p !in DeletePath(w, target).files && target in DeletePath(w, target).files ==>
      MoveFile(w, p, target).files[target] == w.files[target]
  {
    DeletePathLives(w, target);
    hide DeletePath, AtOrBelow;
  }

  /** An interrupted renaming is a complete one exactly if it has left a tree. */
  lemma RenamedTree(w1: World, p: Path, target: Path, k: nat)
    requires p in w1.files && target != [] && 0 < k <= |target| && Tree(RenamedAt(w1, p, target, 1).files)
    ensures RenamedAt(w1, p, target, k) == RenamedAt(w1, p, target, 1) <==> Tree(RenamedAt(w1, p, target, k).files)
  {
    var r := RenamedAt(w1, p, target, k).files;
    if Tree(r) {
      forall q | q != [] && AtOrBelow(q, Parent(target)) ensures q in r {
        assert AtOrBelow(q, target) && q != target;
        assert target in r;
        DirAbove(r, q, target);
      }
      hide Tree;
      assert r == RenamedAt(w1, p, target, 1).files;
    }
  }

  /** Repeating a move that has stopped is as good as a success at the first attempt exactly if the
      source is still the file it was, or is gone with the target reachable already. */
  lemma MoveRepeated(w: World, w': World, p: Path, target: Path)
    requires Good(w) && NoLeak(w) && p in w.files && Legal(View(w), Move(p, target)) && target != []
    requires MoveStopped(w, w', p, target)
    ensures MoveFile(w', p, target) == MoveFile(w, p, target) <==>
      if p in w'.files then w'.files[p] == w.files[p] else Tree(w'.files)
  {
    LegalMove(w, p, target);
    hide Good, NoLeak, Legal, View, Deleting, Tree, MoveFile, DeletePath, RenamedAt;
    if Deleting(w, w', target) {
      MoveNotYet(w, w', p, target);
    } else {
      var k :| 0 < k <= |target| && w' == RenamedAt(DeletePath(w, target), p, target, k);
      MoveAlready(w, w', p, target, k);
    }
  }
}
