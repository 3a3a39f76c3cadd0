/** Clients find files by listing directories, starting at the root. */
module Reachability {
  import opened Paths
  import opened Storage
  import opened World
  import opened Deletion

  /** What is found after some rounds of listing all directories found so far. */
  function Listed(files: map<Path, Row>, rounds: nat): set<Path> {
    if rounds == 0 then {[]}
    else
      set d, q | d in Listed(files, rounds - 1) && (d == [] || (d in files && files[d].IsDir()))
                 && q in Children(files, d) :: q
  }

  lemma {:induction false} FoundAtDepth(files: map<Path, Row>, p: Path)
    requires Tree(files) && p in files
    ensures p in Listed(files, |p|)
    decreases |p|
  {
    var d := Parent(p);
    assert p in Children(files, d);
    if d != [] { FoundAtDepth(files, d); }
  }

  /** The tree invariant is exactly what makes every row reachable from the root. */
  lemma TreeIsReachable(files: map<Path, Row>)
    ensures Tree(files) <==> forall p | p in files :: p != [] && p in Listed(files, |p|)
  {
    if Tree(files) {
      forall p | p in files ensures p != [] && p in Listed(files, |p|) { FoundAtDepth(files, p); }
    }
    if forall p | p in files :: p != [] && p in Listed(files, |p|) {
      forall p | p in files ensures p != [] && (|p| == 1 || (Parent(p) in files && files[Parent(p)].IsDir())) {
        assert p in Listed(files, |p|);
      }
    }
  }
}
