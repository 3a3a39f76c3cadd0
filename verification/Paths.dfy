/** Absolute paths as sequences of components (the root is the empty sequence), and the two
    bulk edits that a hierarchical store makes on a table keyed by paths. */
module Paths {

  type Path = seq<string>

  /** p is top itself or lies somewhere below it. */
  predicate AtOrBelow(top: Path, p: Path) {
    top <= p
  }

  function Parent(p: Path): Path
    requires p != []
  {
    p[..|p| - 1]
  }

  function Parent'(p: Path): Path {
    if p == [] then [] else Parent(p)
  }

  /** p and every directory above it, without the root. */
  function SelfAndAbove(p: Path): (s: set<Path>)
    ensures forall q :: q in s <==> q != [] && AtOrBelow(q, p)
  {
    if p == [] then {}
    else
      var above := SelfAndAbove(Parent(p));
      assert forall q :: q != p && AtOrBelow(q, p) ==> AtOrBelow(q, Parent(p));
      {p} + above
  }

  lemma NotAboveItself(p: Path)
    ensures p !in SelfAndAbove(Parent'(p))
  {
    assert p != [] ==> |Parent'(p)| < |p|;
  }

  /** The table with the missing rows of the given paths set to dir. */
  function AddAll<V>(m: map<Path, V>, paths: set<Path>, dir: V): (r: map<Path, V>)
    ensures r.Keys == m.Keys + paths
    ensures forall q :: q in m ==> r[q] == m[q]
    ensures forall q :: q in r && q !in m ==> r[q] == dir
  {
    map q | q in m.Keys + paths :: if q in m then m[q] else dir
  }

  /** Writing one row with its directories, and removing another one that has its own. */
  lemma AddAllCommute<V>(m: map<Path, V>, a: set<Path>, b: set<Path>, p: Path, q: Path, v: V, dir: V)
    requires p !in b && q !in a && p != q
    ensures AddAll(AddAll(m - {p}, a, dir)[q := v], b, dir) == AddAll(AddAll(m[q := v], b, dir) - {p}, a, dir)
  {
  }

  lemma AddAllTwice<V>(m: map<Path, V>, a: set<Path>, b: set<Path>, p: Path, dir: V)
    requires p !in b
    ensures AddAll(AddAll(m - {p}, a, dir), b, dir) == AddAll(AddAll(m, b, dir) - {p}, a, dir)
  {
  }

  lemma AddAllWithout<V>(m: map<Path, V>, a: set<Path>, p: Path, s: Path, dir: V)
    requires s !in a
    ensures AddAll(m - {p}, a, dir) - {s} == AddAll(m - {s} - {p}, a, dir)
  {
  }

  /** The table with the missing rows of p and of everything above p set to dir. */
  function AddDirs<V>(m: map<Path, V>, p: Path, dir: V): (r: map<Path, V>)
    ensures r.Keys == m.Keys + SelfAndAbove(p)
    ensures forall q :: q in m ==> r[q] == m[q]
    ensures forall q :: q in r && q !in m ==> r[q] == dir
  {
    AddAll(m, SelfAndAbove(p), dir)
  }

  /** The same interrupted: directories were created upwards from p, but not above depth k yet. */
  function AddDirsFrom<V>(m: map<Path, V>, p: Path, k: nat, dir: V): (r: map<Path, V>)
    ensures forall q :: q in r <==> q in m || (q != [] && AtOrBelow(q, p) && k <= |q|)
    ensures forall q | q in r :: r[q] == if q in m then m[q] else dir
  {
    map q | q in m.Keys + (set d | d in SelfAndAbove(p) && k <= |d|) :: if q in m then m[q] else dir
  }

  /** The table without top and everything below it. */
  function RemoveTree<V>(m: map<Path, V>, top: Path): (r: map<Path, V>)
    ensures forall q :: q in r <==> q in m && !AtOrBelow(top, q)
    ensures forall q :: q in r ==> r[q] == m[q]
  {
    map q | q in m && !AtOrBelow(top, q) :: m[q]
  }

  lemma AtOrBelowItself(q: Path)
    ensures AtOrBelow(q, q)
  {
  }

  lemma AtOrBelowParent(top: Path, p: Path)
    requires p != [] && AtOrBelow(top, p) && top != p
    ensures AtOrBelow(top, Parent(p))
  {
  }

  lemma AtOrBelowTransitive(a: Path, b: Path, c: Path)
    requires AtOrBelow(a, b) && AtOrBelow(b, c)
    ensures AtOrBelow(a, c)
  {
  }

  /** Two directories above the same path: the shorter one is above the longer one. */
  lemma AboveIsLinear(a: Path, b: Path, p: Path)
    requires AtOrBelow(a, p) && AtOrBelow(b, p) && |a| <= |b|
    ensures AtOrBelow(a, b) && (|a| == |b| ==> a == b)
  {
    assert a == p[..|a|] && b == p[..|b|];
  }
}
