/** The three pieces of state behind the swift-plus driver: the `files` table, the `segments`
    table and the Swift container, and how bytes are read back from them. */
module Storage {
  newtype byte = b: int | 0 <= b < 0x100
  type Bytes = seq<byte>

  // A location groups the objects of one file; "" stands for "none".
  type Location = string

  datatype Segment = Segment(location: Location, number: nat, size: nat)

  datatype ObjectName = ContentName(location: Location) | SegmentName(location: Location, number: nat)
  datatype Object = Blob(data: Bytes) | Manifest(segments: seq<Segment>)
  type Bucket = map<ObjectName, Object>

  // Rows of the `files` table, without their primary key; a negative size marks a directory.
  datatype Row = Row(size: int, content: Bytes, location: Location) {
    predicate IsDir() { size < 0 }
  }
  const DIRECTORY := Row(-1, [], "")
  const MAX_INLINE_SIZE := 256

  datatype SegmentKey = SegmentKey(location: Location, number: nat)
  type SegmentTable = map<SegmentKey, nat>

  /* ---------- segments ---------- */

  function NumbersAt(rows: SegmentTable, location: Location): (s: set<nat>)
    ensures forall k :: k in s <==> SegmentKey(location, k) in rows
  {
    set key | key in rows && key.location == location :: key.number
  }

  predicate IsLeast(s: set<nat>, m: nat) {
    m in s && forall k | k in s :: m <= k
  }

  lemma LeastExists(s: set<nat>, x: nat)
    requires x in s
    ensures exists m | m in s :: IsLeast(s, m)
    decreases x
  {
    if y: nat :| y in s && y < x {
      LeastExists(s, y);
    } else {
      assert IsLeast(s, x);
    }
  }

  function Least(s: set<nat>): (m: nat)
    requires s != {}
    ensures IsLeast(s, m)
  {
    assert exists m | m in s :: IsLeast(s, m) by { var x :| x in s; LeastExists(s, x); }
    var m :| m in s && IsLeast(s, m);
    m
  }

  predicate Ascending(r: seq<nat>) {
    forall i, j | 0 <= i < j < |r| :: r[i] < r[j]
  }

  /** The elements of s in ascending order. */
  function InOrder(s: set<nat>): (r: seq<nat>)
    ensures forall k :: k in r <==> k in s
    ensures Ascending(r)
  {
    if s == {} then []
    else
      var m := Least(s);
      [m] + InOrder(s - {m})
  }

  /** What the query for the segments of a location, ordered by number, returns. */
  function SegmentRows(rows: SegmentTable, location: Location): (r: seq<Segment>)
  {
    var numbers := InOrder(NumbersAt(rows, location));
    seq(|numbers|, i requires 0 <= i < |numbers| =>
      assert numbers[i] in numbers;
      Segment(location, numbers[i], rows[SegmentKey(location, numbers[i])]))
  }

  /** The segments of one location, numbered 1, 2, 3, ... without a gap. */
  predicate Numbered(segments: seq<Segment>, location: Location) {
    forall i | 0 <= i < |segments| :: segments[i].location == location && segments[i].number == i + 1
  }

  predicate SegmentStored(objects: Bucket, s: Segment) {
    var name := SegmentName(s.location, s.number);
    name in objects && objects[name].Blob? && |objects[name].data| == s.size
  }

  /** Every segment is an uploaded blob of the recorded size. */
  predicate Stored(objects: Bucket, segments: seq<Segment>) {
    forall i | 0 <= i < |segments| :: SegmentStored(objects, segments[i])
  }

  function BlobData(objects: Bucket, name: ObjectName): Bytes {
    if name in objects && objects[name].Blob? then objects[name].data else []
  }

  /** The bytes of the segments, one after the other. */
  function Joined(objects: Bucket, segments: seq<Segment>): Bytes {
    if segments == [] then []
    else
      var last := segments[|segments| - 1];
      Joined(objects, segments[..|segments| - 1]) + BlobData(objects, SegmentName(last.location, last.number))
  }

  function TotalSize(segments: seq<Segment>): nat {
    if segments == [] then 0
    else TotalSize(segments[..|segments| - 1]) + segments[|segments| - 1].size
  }

  lemma {:induction false} JoinedLength(objects: Bucket, segments: seq<Segment>)
    requires Stored(objects, segments)
    ensures |Joined(objects, segments)| == TotalSize(segments)
  {
    if segments == [] {
    } else {
      assert SegmentStored(objects, segments[|segments| - 1]);
      JoinedLength(objects, segments[..|segments| - 1]);
    }
  }

  lemma {:induction false} JoinedConcat(objects: Bucket, a: seq<Segment>, b: seq<Segment>)
    ensures Joined(objects, a + b) == Joined(objects, a) + Joined(objects, b)
  {
    if b == [] {
      assert a + b == a;
    } else {
      assert (a + b)[..|a + b| - 1] == a + b[..|b| - 1];
      JoinedConcat(objects, a, b[..|b| - 1]);
    }
  }

  /* ---------- objects ---------- */

  /** A download succeeds if the object exists and, for a manifest, all its segments are in place. */
  predicate Readable(objects: Bucket, name: ObjectName) {
    name in objects && (objects[name].Manifest? ==> Stored(objects, objects[name].segments))
  }

  function ObjectBytes(objects: Bucket, name: ObjectName): Bytes
    requires name in objects
  {
    match objects[name]
    case Blob(data) => data
    case Manifest(segments) => Joined(objects, segments)
  }

  /** The container without everything stored under the given locations. */
  function DropLocations(objects: Bucket, locations: set<Location>): (r: Bucket)
    ensures forall n :: n in r <==> n in objects && n.location !in locations
    ensures forall n :: n in r ==> r[n] == objects[n]
  {
    map n | n in objects && n.location !in locations :: objects[n]
  }

  /* ---------- what depends on one location only ---------- */

  ghost predicate ObjectsAgree(a: Bucket, b: Bucket, location: Location) {
    forall n: ObjectName | n.location == location :: (n in a <==> n in b) && (n in a ==> a[n] == b[n])
  }

  ghost predicate SegmentsAgree(a: SegmentTable, b: SegmentTable, location: Location) {
    forall k: SegmentKey | k.location == location :: (k in a <==> k in b) && (k in a ==> a[k] == b[k])
  }

  lemma {:induction false} JoinedFrame(a: Bucket, b: Bucket, segments: seq<Segment>)
    requires forall i | 0 <= i < |segments| ::
      var n := SegmentName(segments[i].location, segments[i].number); BlobData(a, n) == BlobData(b, n)
    ensures Joined(a, segments) == Joined(b, segments)
  {
    if segments == [] {
    } else {
      var s := segments[..|segments| - 1];
      assert forall i | 0 <= i < |s| :: s[i] == segments[i];
      JoinedFrame(a, b, s);
    }
  }

  lemma SegmentRowsFrame(a: SegmentTable, b: SegmentTable, location: Location)
    requires SegmentsAgree(a, b, location)
    ensures SegmentRows(a, location) == SegmentRows(b, location)
  {
    assert forall k: nat :: SegmentKey(location, k).location == location;
    assert NumbersAt(a, location) == NumbersAt(b, location);
  }

  /* ---------- numbering ---------- */

  /** s is exactly the numbers lo .. lo + n - 1. */
  ghost predicate IsRange(s: set<nat>, lo: nat, n: nat) {
    forall k: nat :: k in s <==> lo <= k < lo + n
  }

  lemma {:induction false} InOrderRange(s: set<nat>, lo: nat, n: nat)
    requires IsRange(s, lo, n)
    ensures |InOrder(s)| == n
    ensures forall i | 0 <= i < n :: InOrder(s)[i] == lo + i
    decreases n
  {
    if n == 0 {
      assert s == {};
    } else {
      assert lo in s;
      assert Least(s) == lo;
      InOrderRange(s - {lo}, lo + 1, n - 1);
    }
  }

  /** The rows of a location are exactly those of the given segments. */
  ghost predicate RowsAre(rows: SegmentTable, location: Location, segments: seq<Segment>) {
    forall k: nat ::
      && (SegmentKey(location, k) in rows <==> 1 <= k <= |segments|)
      && (SegmentKey(location, k) in rows ==> rows[SegmentKey(location, k)] == segments[k - 1].size)
  }

  lemma RowsReadBack(rows: SegmentTable, location: Location, segments: seq<Segment>)
    requires Numbered(segments, location) && RowsAre(rows, location, segments)
    ensures SegmentRows(rows, location) == segments
  {
    var s := NumbersAt(rows, location);
    assert IsRange(s, 1, |segments|);
    InOrderRange(s, 1, |segments|);
    var r := SegmentRows(rows, location);
    forall i | 0 <= i < |segments| ensures r[i] == segments[i] {
      assert InOrder(s)[i] == i + 1;
    }
  }

  lemma ReadBackNumbers(rows: SegmentTable, location: Location)
    requires Numbered(SegmentRows(rows, location), location)
    ensures var numbers := InOrder(NumbersAt(rows, location));
      |numbers| == |SegmentRows(rows, location)| && forall i | 0 <= i < |numbers| :: numbers[i] == i + 1
  {
    var numbers := InOrder(NumbersAt(rows, location));
    var r := SegmentRows(rows, location);
    forall i | 0 <= i < |numbers| ensures numbers[i] == i + 1 {
      assert r[i].number == numbers[i];
    }
  }

  lemma ReadBackRow(rows: SegmentTable, location: Location, k: nat)
    requires Numbered(SegmentRows(rows, location), location)
    ensures SegmentKey(location, k) in rows <==> 1 <= k <= |SegmentRows(rows, location)|
    ensures SegmentKey(location, k) in rows ==> rows[SegmentKey(location, k)] == SegmentRows(rows, location)[k - 1].size
  {
    ReadBackNumbers(rows, location);
    hide Numbered, InOrder, NumbersAt;
    var numbers := InOrder(NumbersAt(rows, location));
    if SegmentKey(location, k) in rows { assert k in numbers; }
    if 1 <= k <= |numbers| { assert numbers[k - 1] in numbers; }
  }

  lemma ReadBackRows(rows: SegmentTable, location: Location)
    requires Numbered(SegmentRows(rows, location), location)
    ensures RowsAre(rows, location, SegmentRows(rows, location))
  {
    hide SegmentRows, Numbered;
    forall k: nat
      ensures SegmentKey(location, k) in rows <==> 1 <= k <= |SegmentRows(rows, location)|
      ensures SegmentKey(location, k) in rows ==>
          rows[SegmentKey(location, k)] == SegmentRows(rows, location)[k - 1].size
    {
      ReadBackRow(rows, location, k);
    }
  }

  /** Numbered segments are what is read back iff the rows of the location are theirs. */
  lemma SegmentRowsExact(rows: SegmentTable, location: Location, segments: seq<Segment>)
    requires Numbered(segments, location)
    ensures RowsAre(rows, location, segments) <==> SegmentRows(rows, location) == segments
  {
    if RowsAre(rows, location, segments) {
      RowsReadBack(rows, location, segments);
    }
    if SegmentRows(rows, location) == segments {
      ReadBackRows(rows, location);
    }
  }

  /** Recording the next number extends what is read back by one segment. */
  lemma SegmentRowsAppend(rows: SegmentTable, location: Location, segments: seq<Segment>, size: nat)
    requires SegmentRows(rows, location) == segments && Numbered(segments, location)
    ensures SegmentRows(rows[SegmentKey(location, |segments| + 1) := size], location)
            == segments + [Segment(location, |segments| + 1, size)]
  {
    SegmentRowsExact(rows, location, segments);
    RowsAreAppend(rows, location, segments, size);
    SegmentRowsExact(rows[SegmentKey(location, |segments| + 1) := size], location,
                     segments + [Segment(location, |segments| + 1, size)]);
  }

  lemma RowsAreAppend(rows: SegmentTable, location: Location, segments: seq<Segment>, size: nat)
    requires RowsAre(rows, location, segments)
    ensures RowsAre(rows[SegmentKey(location, |segments| + 1) := size], location,
                    segments + [Segment(location, |segments| + 1, size)])
  {
  }
}
