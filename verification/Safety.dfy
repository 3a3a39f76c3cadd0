/** What holds whenever PutContent, Move or the writing of a row stops half-way. */
module Safety {
  import opened Paths
  import opened Storage
  import opened FileSystem
  import opened World
  import opened Refinement
  import opened Steps
  import opened Runs
  import opened Damage
  import opened Deletion

  /** The call has the specified effect on what clients see. */
  ghost predicate Does(w: World, w': World, op: Op) {
    Good(w) && Legal(View(w), op) ==> Good(w') && View(w') == Apply(View(w), op)
  }

  /** Locations stay isolated and nothing leaks. */
  ghost predicate Safe(w: World, w': World) {
    && (Isolated(w) ==> Isolated(w'))
    && (Isolated(w) && NoLeak(w) ==> NoLeak(w'))
  }

  /** The row at q and everything that is stored for it are as before. */
  ghost predicate Untouched(w: World, w': World, q: Path) {
    && w'.live == w.live
    && q in w'.files && q in w.files && w'.files[q] == w.files[q]
    && (LocationAt(w, q) != "" ==> Agree(w, w', LocationAt(w, q)))
  }

  lemma UntouchedKept(w: World, w': World, q: Path)
    requires Good(w) && q in w.files && Untouched(w, w', q)
    ensures Kept(w, q, w', q)
  {
    hide RowIntact, Tree, Isolated, WriterIntact, Agree;
    GoodRow(w, q);
    RowFrame(w, q, w', q);
  }

  lemma DeletingIsSafe(w: World, w': World, top: Path)
    requires Deleting(w, w', top)
    ensures Safe(w, w')
    ensures Isolated(w) ==> forall q | q in w.files && !AtOrBelow(top, q) :: Untouched(w, w', q)
  {
    hide NoLeak, Tree;
    if Isolated(w) {
      forall q | q in w.files && !AtOrBelow(top, q) ensures Untouched(w, w', q) {
        assert LocationAt(w, q) !in LocationsIn(w.files, top);
      }
    }
  }

  /* ---------- Move ---------- */

  /** The row of p renamed to target, with the directories above it from depth k downwards. */
  function RenamedAt(w1: World, p: Path, target: Path, k: nat): World
    requires p in w1.files && target != []
  {
    w1.(files := Interrupted(w1.files - {p}, target, w1.files[p], k))
  }

  /** Wherever a move of p stops: in the deletion of the target, or behind that with the row renamed. */
  ghost predicate MoveStopped(w: World, w': World, p: Path, target: Path)
    requires p in w.files && target != []
  {
    || Deleting(w, w', target)
    || (p in DeletePath(w, target).files
        && exists k | 0 < k <= |target| :: w' == RenamedAt(DeletePath(w, target), p, target, k))
  }

  /* ---------- PutContent ---------- */

  /** PutContent so far: the old blobs of p may be gone, and p may have its new row already. */
  ghost predicate Putting(w: World, w': World, p: Path) {
    && w'.segments == w.segments && w'.live == w.live
    && OthersKept(w.files, w'.files, p)
    && (forall n | n in w'.objects :: n in w.objects && w'.objects[n] == w.objects[n])
    && (forall n | n in w.objects && (LocationAt(w, p) == "" || n.location != LocationAt(w, p)) :: n in w'.objects)
  }

  lemma PuttingUntouched(w: World, w': World, p: Path, q: Path)
    requires Putting(w, w', p) && Isolated(w) && q in w.files && q != p
    ensures Untouched(w, w', q)
  {
  }

  lemma OldBlobsGone(w: World, w': World, p: Path)
    requires Putting(w, w', p) && w'.files == w.files
    ensures Safe(w, w')
  {
    if NoLeak(w) {
      FewerObjects(w, w'.objects);
      assert w' == w.(objects := w'.objects);
    }
  }

  lemma NewRowNoLeak(w: World, w': World, p: Path, row: Row)
    requires Putting(w, w', p) && NothingAt(w'.objects, LocationAt(w, p))
    requires p in w'.files && w'.files[p] == row
    ensures NoLeak(w) ==> NoLeak(w')
  {
    if NoLeak(w) {
      forall n | n in w'.objects ensures Referenced(w', n.location) {
        assert Referenced(w, n.location);
        if q :| q in w.files && w.files[q].location == n.location {
          assert q != p;
          assert q in w'.files && w'.files[q] == w.files[q];
        }
      }
    }
  }

  /** Uploading an object to the location of p's row. */
  lemma UploadSafe(w: World, w': World, p: Path, name: ObjectName, o: Object)
    requires w' == w.(objects := w.objects[name := o])
    requires name.location != "" && p in w.files && w.files[p].location == name.location
    ensures Safe(w, w')
    ensures Isolated(w) ==> forall q | q in w.files && q != p :: Untouched(w, w', q)
  {
    if NoLeak(w) {
      forall n | n in w'.objects ensures Referenced(w', n.location) {
        if n != name { assert Referenced(w, n.location); }
      }
    }
  }

  lemma SafeTransitive(w: World, w1: World, w2: World)
    requires Safe(w, w1) && Safe(w1, w2)
    ensures Safe(w, w2)
  {
  }

  lemma UntouchedTransitive(w: World, w1: World, w2: World, q: Path)
    requires Untouched(w, w1, q) && Untouched(w1, w2, q)
    ensures Untouched(w, w2, q)
  {
  }

  /** Trees that have nothing to do with the damage at p are in order. */
  lemma DamageTreeBelow(w: World, p: Path, top: Path)
    requires GoodExcept(w, p) && Unrelated(top, p)
    ensures TreeBelow(w.files, top)
  {
    var h := Healed(w, p);
    GoodIsTree(h);
    HealedFrame(w, p);
    hide Good, Isolated, Healed;
    forall q | q in w.files && AtOrBelow(top, q) && q != top
      ensures Parent(q) in w.files && w.files[Parent(q)].IsDir()
    {
      AtOrBelowParent(top, q);
      NotAbove(h, w, p, top, Parent(q));
    }
  }

  lemma NotAbove(h: World, w: World, p: Path, top: Path, d: Path)
    requires h == Healed(w, p) && AtOrBelow(top, d) && Unrelated(top, p)
    ensures d in h.files ==> d in w.files && h.files[d] == w.files[d]
  {
    if AtOrBelow(d, p) { AtOrBelowTransitive(top, d, p); }
    if AtOrBelow(d, Parent'(p)) { AtOrBelowTransitive(d, Parent'(p), p); }
  }
}
