/** Deleting row by row, children first, amounts to deleting everything that hangs from a path; and
    what holds in between, whenever the deletion stops. */
module Deletion {
  import opened Paths
  import opened Storage
  import opened World
  import opened Refinement

  function Children(files: map<Path, Row>, p: Path): (s: set<Path>)
    ensures forall q :: q in s <==> q in files && q != [] && Parent(q) == p
  {
    set q | q in files && q != [] && Parent(q) == p
  }

  function StrictlyBelow(files: map<Path, Row>, p: Path): (s: set<Path>)
    ensures forall q :: q in s <==> q in files && AtOrBelow(p, q) && q != p
  {
    set q | q in files && AtOrBelow(p, q) && q != p
  }

  predicate HangsFrom(files: map<Path, Row>, tops: set<Path>, q: Path) {
    exists c | c in tops :: Hangs(files, c, q)
  }

  /** The rows that do not hang from any of the given paths. */
  function Remaining(files: map<Path, Row>, done: set<Path>): (r: map<Path, Row>)
    ensures forall q :: q in r <==> q in files && !HangsFrom(files, done, q)
    ensures forall q | q in r :: r[q] == files[q]
  {
    map q | q in files && !HangsFrom(files, done, q) :: files[q]
  }

  function GoneLocations(w: World, p: Path, done: set<Path>): (s: set<Location>)
    ensures forall l :: l in s <==>
      l != "" && (l == LocationAt(w, p)
                  || exists q | q in w.files :: HangsFrom(w.files, done, q) && w.files[q].location == l)
  {
    (if LocationAt(w, p) == "" then {} else {LocationAt(w, p)})
    + set q | q in w.files && HangsFrom(w.files, done, q) && w.files[q].location != "" :: w.files[q].location
  }

  /** The blobs of p's row and what hangs from some of its children are deleted, p itself is not. */
  function Partly(w: World, p: Path, done: set<Path>): World {
    w.(files := Remaining(w.files, done), objects := DropLocations(w.objects, GoneLocations(w, p, done)))
  }

  lemma PartlyStart(w: World, p: Path)
    ensures Partly(w, p, {}).files == w.files
    ensures Partly(w, p, {}).objects ==
      if LocationAt(w, p) == "" then w.objects else DropLocations(w.objects, {LocationAt(w, p)})
  {
    assert GoneLocations(w, p, {}) == if LocationAt(w, p) == "" then {} else {LocationAt(w, p)};
  }

  predicate Siblings(p: Path, done: set<Path>) {
    forall d | d in done :: d != [] && Parent(d) == p
  }

  /** What lies below one child does not hang from another one. */
  lemma ChildApart(files: map<Path, Row>, p: Path, done: set<Path>, c: Path, q: Path)
    requires Siblings(p, done + {c}) && c !in done && AtOrBelow(c, q)
    ensures !HangsFrom(files, done, q)
  {
    if HangsFrom(files, done, q) {
      var d :| d in done && Hangs(files, d, q);
      assert |c| == |p| + 1 && |d| == |p| + 1 by { assert d in done + {c} && c in done + {c}; }
      AboveIsLinear(c, d, q);
    }
  }

  /** What hangs from a child still does when others have been deleted. */
  lemma HangsStill(files: map<Path, Row>, p: Path, done: set<Path>, c: Path, q: Path)
    requires Siblings(p, done + {c}) && c !in done
    ensures Hangs(Remaining(files, done), c, q) <==> Hangs(files, c, q)
  {
    if Hangs(files, c, q) {
      forall k | |c| <= k < |q| ensures q[..k] in Remaining(files, done) {
        assert AtOrBelow(c, q[..k]);
        ChildApart(files, p, done, c, q[..k]);
      }
    }
  }

  lemma HangsFromStep(files: map<Path, Row>, done: set<Path>, c: Path, q: Path)
    ensures HangsFrom(files, done + {c}, q) <==> HangsFrom(files, done, q) || Hangs(files, c, q)
  {
    hide Hangs;
    if HangsFrom(files, done, q) { var d :| d in done && Hangs(files, d, q); assert d in done + {c}; }
    if Hangs(files, c, q) { assert c in done + {c}; }
  }

  lemma RemainingStep(files: map<Path, Row>, p: Path, done: set<Path>, c: Path)
    requires Siblings(p, done + {c}) && c !in done
    ensures Unhung(Remaining(files, done), c) == Remaining(files, done + {c})
  {
    hide HangsFrom, Hangs, Siblings;
    forall q
      ensures HangsFrom(files, done + {c}, q) <==> HangsFrom(files, done, q) || Hangs(files, c, q)
      ensures Hangs(Remaining(files, done), c, q) <==> Hangs(files, c, q)
    {
      HangsFromStep(files, done, c, q);
      HangsStill(files, p, done, c, q);
    }
  }

  lemma GoneStep(w: World, p: Path, done: set<Path>, c: Path)
    requires Siblings(p, done + {c}) && c !in done
    ensures GoneLocations(w, p, done + {c}) == GoneLocations(w, p, done) + HangingLocations(Remaining(w.files, done), c)
  {
    hide HangsFrom, Hangs, Siblings;
    var rest := Remaining(w.files, done);
    forall l | l in GoneLocations(w, p, done + {c})
      ensures l in GoneLocations(w, p, done) + HangingLocations(rest, c)
    {
      if l != LocationAt(w, p) {
        var q :| q in w.files && HangsFrom(w.files, done + {c}, q) && w.files[q].location == l;
        HangsFromStep(w.files, done, c, q);
        HangsStill(w.files, p, done, c, q);
        if !HangsFrom(w.files, done, q) { assert q in rest && Hangs(rest, c, q); }
      }
    }
    forall l | l in GoneLocations(w, p, done) + HangingLocations(rest, c)
      ensures l in GoneLocations(w, p, done + {c})
    {
      if l in HangingLocations(rest, c) {
        var q :| q in rest && Hangs(rest, c, q) && rest[q].location == l;
        HangsFromStep(w.files, done, c, q);
        HangsStill(w.files, p, done, c, q);
      } else if l != LocationAt(w, p) {
        var q :| q in w.files && HangsFrom(w.files, done, q) && w.files[q].location == l;
        HangsFromStep(w.files, done, c, q);
      }
    }
  }

  lemma PartlyStep(w: World, p: Path, done: set<Path>, c: Path)
    requires Siblings(p, done + {c}) && c !in done && c in w.files
    ensures DeletePath(Partly(w, p, done), c) == Partly(w, p, done + {c})
  {
    assert c in Partly(w, p, done).files by { assert AtOrBelow(c, c); ChildApart(w.files, p, done, c, c); }
    hide HangsFrom, Hangs, Siblings;
    RemainingStep(w.files, p, done, c);
    GoneStep(w, p, done, c);
    hide GoneLocations, HangingLocations, Remaining, Unhung;
    DropTwice(w.objects, GoneLocations(w, p, done), HangingLocations(Remaining(w.files, done), c));
  }

  lemma DropTwice(objects: Bucket, a: set<Location>, b: set<Location>)
    ensures DropLocations(DropLocations(objects, a), b) == DropLocations(objects, a + b)
  {
  }

  /** From p hang exactly p and, if that is a directory, what hangs from its children. */
  lemma HangsExactly(files: map<Path, Row>, p: Path, q: Path)
    requires p in files && q in files
    ensures Hangs(files, p, q) <==> q == p || (files[p].IsDir() && HangsFrom(files, Children(files, p), q))
  {
    if Hangs(files, p, q) && q != p {
      var c := q[..|p| + 1];
      assert q[..|p|] == p && Parent(c) == p;
      assert c in files by { if |q| == |p| + 1 { assert c == q; } }
      assert c in Children(files, p) && Hangs(files, c, q);
    }
    if files[p].IsDir() && HangsFrom(files, Children(files, p), q) {
      var c :| c in Children(files, p) && Hangs(files, c, q);
      assert q[..|c|] == c && q[..|p|] == p;
    }
  }

  /** The children that the recursion goes to. */
  function Visited(files: map<Path, Row>, p: Path): set<Path>
    requires p in files
  {
    if files[p].IsDir() then Children(files, p) else {}
  }

  lemma DoneFiles(files: map<Path, Row>, p: Path, done: set<Path>)
    requires forall q | q in files :: Hangs(files, p, q) <==> q == p || HangsFrom(files, done, q)
    ensures Remaining(files, done) - {p} == Unhung(files, p)
  {
    hide Hangs, HangsFrom;
  }

  lemma DoneLocations(w: World, p: Path, done: set<Path>)
    requires p in w.files
    requires forall q | q in w.files :: Hangs(w.files, p, q) <==> q == p || HangsFrom(w.files, done, q)
    ensures GoneLocations(w, p, done) == HangingLocations(w.files, p)
  {
    hide Hangs, HangsFrom;
    forall l | l in HangingLocations(w.files, p) ensures l in GoneLocations(w, p, done) {
      var q :| q in w.files && Hangs(w.files, p, q) && w.files[q].location == l;
    }
    forall l | l in GoneLocations(w, p, done) ensures l in HangingLocations(w.files, p) {}
  }

  lemma PartlyDone(w: World, p: Path)
    requires p in w.files
    ensures var w' := Partly(w, p, Visited(w.files, p));
      w'.(files := w'.files - {p}) == DeletePath(w, p)
  {
    var done := Visited(w.files, p);
    hide Hangs, HangsFrom, GoneLocations, HangingLocations, Remaining, DropLocations, Unhung;
    forall q | q in w.files ensures Hangs(w.files, p, q) <==> q == p || HangsFrom(w.files, done, q) {
      HangsExactly(w.files, p, q);
      NoTops(w.files, q);
    }
    DoneFiles(w.files, p, done);
    DoneLocations(w, p, done);
  }

  lemma NoTops(files: map<Path, Row>, q: Path)
    ensures !HangsFrom(files, {}, q)
  {
  }

  lemma NoChildren(files: map<Path, Row>, p: Path)
    requires Tree(files) && p in files && !files[p].IsDir()
    ensures Children(files, p) == {}
  {
    // A row with a parent other than the root hangs below a directory row.
  }

  /* ---------- wherever the deletion stops ---------- */

  /** Nothing was lost outside of the tree at top, and nothing was changed. */
  ghost predicate Shrunk(w: World, w': World, top: Path) {
    && w'.segments == w.segments && w'.live == w.live
    && (forall q | q in w'.files :: q in w.files && w'.files[q] == w.files[q])
    && (forall q | q in w.files :: q in w'.files || AtOrBelow(top, q))
    && (forall n | n in w'.objects :: n in w.objects && w'.objects[n] == w.objects[n])
    && (forall n | n in w.objects :: n in w'.objects || n.location in LocationsIn(w.files, top))
  }

  lemma ShrunkTransitive(w: World, w1: World, w2: World, top: Path, c: Path)
    requires Shrunk(w, w1, top) && Shrunk(w1, w2, c) && AtOrBelow(top, c)
    ensures Shrunk(w, w2, top)
  {
    forall q | AtOrBelow(c, q) ensures AtOrBelow(top, q) { AtOrBelowTransitive(top, c, q); }
    hide AtOrBelow;
    forall l | l in LocationsIn(w1.files, c) ensures l in LocationsIn(w.files, top) {
      var q :| q in w1.files && AtOrBelow(c, q) && w1.files[q].location == l;
      assert q in w.files && AtOrBelow(top, q);
    }
  }

  /** Everything outside of the tree still means what it meant, also after a deletion that failed. */
  lemma ShrunkKeeps(w: World, w': World, top: Path, q: Path)
    requires Good(w) && Shrunk(w, w', top) && q in w.files && !AtOrBelow(top, q)
    ensures Kept(w, q, w', q)
  {
    hide Tree, RowIntact, WriterIntact;
    GoodRow(w, q);
    assert LocationAt(w, q) !in LocationsIn(w.files, top);
    RowFrame(w, q, w', q);
  }

  /** What holds whenever a deletion of the tree at top stops: rows stay isolated, nothing leaks, the
      tree stays whole, and nothing outside of it is touched. */
  ghost predicate Deleting(w: World, w': World, top: Path) {
    && Shrunk(w, w', top)
    && (Isolated(w) ==> Isolated(w'))
    && (NoLeak(w) ==> NoLeak(w'))
    && (Tree(w.files) ==> Tree(w'.files))
  }

  predicate NothingAt(objects: Bucket, location: Location) {
    forall n | n in objects :: location == "" || n.location != location
  }

  lemma FewerObjects(w: World, objects: Bucket)
    requires NoLeak(w) && forall n | n in objects :: n in w.objects
    ensures NoLeak(w.(objects := objects))
  {
    forall n | n in objects ensures Referenced(w.(objects := objects), n.location) {
      assert Referenced(w, n.location);
    }
  }

  /** Deleting the blobs of one row, completely or not, is a deletion within its tree. */
  lemma BlobsGone(w: World, w': World, p: Path)
    requires p in w.files && w' == w.(objects := w'.objects)
    requires forall n | n in w'.objects :: n in w.objects && w'.objects[n] == w.objects[n]
    requires forall n | n in w.objects && (LocationAt(w, p) == "" || n.location != LocationAt(w, p)) :: n in w'.objects
    ensures Deleting(w, w', p)
  {
    assert AtOrBelow(p, p);
    if NoLeak(w) { FewerObjects(w, w'.objects); }
  }

  lemma BlobsGoneExactly(w: World, w': World, p: Path)
    requires w' == w.(objects := w'.objects)
    requires w'.objects == if LocationAt(w, p) == "" then w.objects else DropLocations(w.objects, {LocationAt(w, p)})
    ensures Partly(w, p, {}) == w' && NothingAt(w'.objects, LocationAt(w, p))
  {
    PartlyStart(w, p);
  }

  lemma DeletingChild(w: World, w1: World, w2: World, p: Path, c: Path)
    requires Deleting(w, w1, p) && Deleting(w1, w2, c) && c in Children(w1.files, p)
    ensures Deleting(w, w2, p)
    ensures forall location | NothingAt(w1.objects, location) :: NothingAt(w2.objects, location)
    ensures forall q | q in w1.files && (q == p || (q in Children(w1.files, p) && q != c)) ::
      q in w2.files && w2.files[q] == w1.files[q]
  {
    hide Isolated, NoLeak, Tree;
    assert AtOrBelow(p, c);
    ShrunkTransitive(w, w1, w2, p, c);
    forall q | q in w1.files && (q == p || (q in Children(w1.files, p) && q != c))
      ensures q in w2.files && w2.files[q] == w1.files[q]
    {
      if AtOrBelow(c, q) { AboveIsLinear(c, q, q); }
    }
  }

  /** A row may go once nothing is stored at its location and nothing hangs below it. */
  lemma DeletingRow(w: World, w1: World, p: Path)
    requires Deleting(w, w1, p) && p in w1.files
    requires NothingAt(w1.objects, LocationAt(w1, p))
    requires Tree(w.files) ==> Children(w1.files, p) == {}
    ensures Deleting(w, w1.(files := w1.files - {p}), p)
  {
    hide NoLeak, Tree, NothingAt, Shrunk, Isolated, Children;
    if NoLeak(w) { RowGone(w1, p); }
    if Tree(w.files) { ChildlessRowTree(w1.files, p); }
    if Isolated(w) { RowGoneIsolated(w1, p); }
    RowGoneShrunk(w, w1, p);
  }

  lemma RowGoneIsolated(w: World, p: Path)
    requires Isolated(w)
    ensures Isolated(w.(files := w.files - {p}))
  {
  }

  lemma RowGoneShrunk(w: World, w1: World, p: Path)
    requires Shrunk(w, w1, p)
    ensures Shrunk(w, w1.(files := w1.files - {p}), p)
  {
    hide AtOrBelow, LocationsIn;
    AtOrBelowItself(p);
  }

  lemma RowGone(w: World, p: Path)
    requires NoLeak(w) && NothingAt(w.objects, LocationAt(w, p))
    ensures NoLeak(w.(files := w.files - {p}))
  {
    var w' := w.(files := w.files - {p});
    forall n | n in w'.objects ensures Referenced(w', n.location) {
      assert Referenced(w, n.location);
      if q :| q in w.files && w.files[q].location == n.location {
        assert q in w'.files && w'.files[q] == w.files[q];
      }
    }
  }

  lemma ChildlessRowTree(files: map<Path, Row>, p: Path)
    requires Tree(files) && Children(files, p) == {}
    ensures Tree(files - {p})
  {
    forall q | q in files - {p} && |q| != 1 ensures Parent(q) in files - {p} {
      assert q !in Children(files, p);
    }
  }

  lemma PartlyChildless(w: World, p: Path)
    requires p in w.files
    ensures w.files[p].IsDir() || Tree(w.files) ==> Children(Partly(w, p, Visited(w.files, p)).files, p) == {}
  {
    if w.files[p].IsDir() {
      var done := Children(w.files, p);
      forall q | q in done ensures HangsFrom(w.files, done, q) { assert Hangs(w.files, q, q); }
    } else if Tree(w.files) {
      NoChildren(w.files, p);
    }
  }

  /** One turn of the loop over p's children. */
  lemma ChildDone(w: World, w1: World, w2: World, p: Path, rows: set<Path>, rest: set<Path>, c: Path, ok: bool)
    requires rows == Children(w.files, p) && rest <= rows && c in rest
    requires Deleting(w, w1, p) && Deleting(w1, w2, c)
    requires forall q | q in rest :: q in w1.files
    requires w1 == Partly(w, p, rows - rest)
    requires ok ==> w2 == DeletePath(w1, c)
    ensures Deleting(w, w2, p)
    ensures forall location | NothingAt(w1.objects, location) :: NothingAt(w2.objects, location)
    ensures forall q | q in w1.files && (q == p || (q in rest && q != c)) :: q in w2.files && w2.files[q] == w1.files[q]
    ensures ok ==> w2 == Partly(w, p, rows - (rest - {c}))
  {
    hide DeletePath, Partly, Deleting, NothingAt;
    DeletingChild(w, w1, w2, p, c);
    PartlyStep(w, p, rows - rest, c);
    assert rows - rest + {c} == rows - (rest - {c});
  }

  /* ---------- when everything below goes ---------- */

  /** Every row strictly below top hangs below a directory row. */
  predicate TreeBelow(files: map<Path, Row>, top: Path) {
    forall q | q in files && AtOrBelow(top, q) && q != top :: Parent(q) in files && files[Parent(q)].IsDir()
  }

  lemma {:induction false} TreeBelowHangs(files: map<Path, Row>, top: Path, q: Path)
    requires TreeBelow(files, top) && top in files && q in files && AtOrBelow(top, q)
    ensures Hangs(files, top, q)
    decreases |q|
  {
    if q != top {
      AtOrBelowParent(top, q);
      TreeBelowHangs(files, top, Parent(q));
      forall k | |top| <= k < |q| ensures q[..k] in files && files[q[..k]].IsDir() {
        assert k < |Parent(q)| ==> q[..k] == Parent(q)[..k];
      }
    }
  }

  /** A successful deletion takes along everything below the path exactly if every row down there
      hangs below a directory row. */
  lemma DeleteExactly(w: World, p: Path)
    requires p in w.files
    ensures DeletePath(w, p) == DeleteTree(w, p) <==> TreeBelow(w.files, p)
    ensures DeletePath(w, p).files == RemoveTree(w.files, p) <==> TreeBelow(w.files, p)
  {
    if TreeBelow(w.files, p) {
      hide TreeBelow;
      forall q | q in w.files ensures Hangs(w.files, p, q) <==> AtOrBelow(p, q) {
        if AtOrBelow(p, q) { TreeBelowHangs(w.files, p, q); }
      }
      hide Hangs, AtOrBelow;
      assert Unhung(w.files, p) == RemoveTree(w.files, p);
      assert HangingLocations(w.files, p) == LocationsIn(w.files, p);
    }
    if DeletePath(w, p).files == RemoveTree(w.files, p) { AllGone(w.files, p); }
  }

  lemma AllGone(files: map<Path, Row>, p: Path)
    requires Unhung(files, p) == RemoveTree(files, p)
    ensures TreeBelow(files, p)
  {
    forall q | q in files && AtOrBelow(p, q) && q != p ensures Parent(q) in files && files[Parent(q)].IsDir() {
      assert q !in RemoveTree(files, p);
      assert Hangs(files, p, q) && Parent(q) == q[..|q| - 1];
    }
  }
}
