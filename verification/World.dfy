/** The state of the driver and of its open writers, the invariants that hold in it, and what each
    call of the storage driver interface does to it when no backend call fails. */
module World {
  import opened Paths
  import opened Storage
  import opened FileSystem

  // What an open writer remembers: its location and the segments uploaded so far.
  datatype Writer = Writer(location: Location, segments: seq<Segment>)

  datatype World = World(
    files: map<Path, Row>,
    segments: SegmentTable,
    objects: Bucket,
    live: map<Path, Writer>)

  /* ---------- invariants ---------- */

  /** Every row hangs below the root or below a directory row. */
  predicate Tree(files: map<Path, Row>) {
    forall p | p in files :: p != [] && (|p| == 1 || (Parent(p) in files && files[Parent(p)].IsDir()))
  }

  function LocationAt(w: World, p: Path): Location {
    if p in w.files then w.files[p].location else ""
  }

  /** No two rows, no two writers, and no row and writer of different paths share a location; and the
      writer of a path uses the location of the row at that path, if that has one. */
  predicate Isolated(w: World) {
    && (forall p, q | p in w.files && q in w.files && p != q ::
         w.files[p].location == w.files[q].location ==> w.files[p].location == "")
    && (forall p, q | p in w.live && q in w.live && p != q :: w.live[p].location != w.live[q].location)
    && (forall p, q | p in w.files && q in w.live && p != q :: w.files[p].location != w.live[q].location)
    && (forall p | p in w.files && p in w.live ::
         w.files[p].location == "" || w.files[p].location == w.live[p].location)
    && (forall p | p in w.live :: w.live[p].location != "")
  }

  predicate Referenced(w: World, location: Location) {
    location != "" &&
    ((exists p | p in w.files :: w.files[p].location == location)
     || exists p | p in w.live :: w.live[p].location == location)
  }

  /** Every object lies under the location of a file row or of an open writer. */
  predicate NoLeak(w: World) {
    forall n | n in w.objects :: Referenced(w, n.location)
  }

  predicate ContentIntact(w: World, row: Row) {
    var content := ContentName(row.location);
    var rows := SegmentRows(w.segments, row.location);
    && row.content == []
    && Numbered(rows, row.location)
    && Stored(w.objects, rows)
    && content in w.objects
    && match w.objects[content]
       case Blob(data) => |data| == row.size
       case Manifest(segments) => segments <= rows && TotalSize(segments) == row.size
  }

  /** The row at p agrees with what is stored for it in the other two places. */
  predicate RowIntact(w: World, p: Path)
    requires p in w.files
  {
    var row := w.files[p];
    if row.IsDir() then row == DIRECTORY
    else if row.location == "" then row.size == |row.content| <= MAX_INLINE_SIZE
    else ContentIntact(w, row)
  }

  /** The segments remembered by the writer of p are exactly the rows of its location. */
  predicate WriterIntact(w: World, p: Path)
    requires p in w.live
  {
    var writer := w.live[p];
    && p != []
    && writer.segments == SegmentRows(w.segments, writer.location)
    && Numbered(writer.segments, writer.location)
    && Stored(w.objects, writer.segments)
  }

  predicate Good(w: World) {
    && Tree(w.files)
    && Isolated(w)
    && (forall p | p in w.files :: RowIntact(w, p))
    && (forall p | p in w.live :: WriterIntact(w, p))
  }

  /** A location that plusRandLocation may return: it occurs nowhere. */
  ghost predicate Fresh(w: World, location: Location) {
    && location != ""
    && (forall p | p in w.files :: w.files[p].location != location)
    && (forall p | p in w.live :: w.live[p].location != location)
    && (forall n | n in w.objects :: n.location != location)
    && (forall k | k in w.segments :: k.location != location)
  }

  /* ---------- the file system that a world stands for ---------- */

  function RowNode(w: World, row: Row): Node {
    if row.IsDir() then Directory
    else if row.location == "" then File(row.content)
    else if ContentName(row.location) !in w.objects then File([])
    else File(ObjectBytes(w.objects, ContentName(row.location)))
  }

  function Resumable(w: World, location: Location): Bytes {
    Joined(w.objects, SegmentRows(w.segments, location))
  }

  function Nodes(w: World): (r: map<Path, Node>)
    ensures r.Keys == w.files.Keys
  {
    map p | p in w.files :: RowNode(w, w.files[p])
  }

  function Pending(w: World): (r: map<Path, Bytes>)
    ensures r.Keys == w.live.Keys
  {
    map p | p in w.live :: Joined(w.objects, w.live[p].segments)
  }

  function Resume(w: World): (r: map<Path, Bytes>)
    ensures forall p :: p in r <==> p in w.files && w.files[p].location != ""
  {
    map p | p in w.files && w.files[p].location != "" :: Resumable(w, w.files[p].location)
  }

  function View(w: World): Fs {
    Fs(Nodes(w), Pending(w), Resume(w))
  }

  /* ---------- the operations ---------- */

  function LocationsIn(files: map<Path, Row>, top: Path): (s: set<Location>)
    ensures forall q | q in files && AtOrBelow(top, q) && files[q].location != "" :: files[q].location in s
    ensures forall l | l in s :: l != "" && exists q | q in files && AtOrBelow(top, q) :: files[q].location == l
  {
    set q | q in files && AtOrBelow(top, q) && files[q].location != "" :: files[q].location
  }

  /** All rows at and below top are gone, and with them all objects of their locations. */
  function DeleteTree(w: World, top: Path): World {
    w.(files := RemoveTree(w.files, top), objects := DropLocations(w.objects, LocationsIn(w.files, top)))
  }

  /** The table after writing a row at p and the directories above it. */
  function WriteRow(files: map<Path, Row>, p: Path, row: Row): (r: map<Path, Row>)
  {
    AddDirs(files[p := row], Parent'(p), DIRECTORY)
  }

  /** The same interrupted: the row is there, and of the directories those from depth k downwards. */
  function Interrupted(files: map<Path, Row>, p: Path, row: Row, k: nat): (r: map<Path, Row>)
    requires p != []
  {
    AddDirsFrom(files[p := row], Parent(p), k, DIRECTORY)
  }

  function PutFile(w: World, p: Path, bytes: Bytes, location: Location): World {
    var kept := if LocationAt(w, p) == "" then w.objects else DropLocations(w.objects, {LocationAt(w, p)});
    if |bytes| > MAX_INLINE_SIZE then
      w.(files := WriteRow(w.files, p, Row(|bytes|, [], location)),
         objects := kept[ContentName(location) := Blob(bytes)])
    else
      w.(files := WriteRow(w.files, p, Row(|bytes|, bytes, "")), objects := kept)
  }

  /** There is a directory row at top and at every path between top and q: a deletion that goes from
      directory to directory gets from top to q. */
  predicate Hangs(files: map<Path, Row>, top: Path, q: Path) {
    AtOrBelow(top, q) && forall k | |top| <= k < |q| :: q[..k] in files && files[q[..k]].IsDir()
  }

  function Unhung(files: map<Path, Row>, top: Path): (r: map<Path, Row>)
    ensures forall q :: q in r <==> q in files && !Hangs(files, top, q)
    ensures forall q | q in r :: r[q] == files[q]
  {
    map q | q in files && !Hangs(files, top, q) :: files[q]
  }

  function HangingLocations(files: map<Path, Row>, top: Path): (s: set<Location>)
    ensures forall q | q in files && Hangs(files, top, q) && files[q].location != "" :: files[q].location in s
    ensures forall l | l in s :: l != "" && exists q | q in files && Hangs(files, top, q) :: files[q].location == l
  {
    set q | q in files && Hangs(files, top, q) && files[q].location != "" :: files[q].location
  }

  /** What a successful deletion does, whatever the table looks like. */
  function DeletePath(w: World, p: Path): World {
    if p !in w.files then w
    else w.(files := Unhung(w.files, p), objects := DropLocations(w.objects, HangingLocations(w.files, p)))
  }

  function MoveFile(w: World, p: Path, target: Path): World {
    if p !in w.files then w
    else
      var w1 := DeletePath(w, target);
      // If p lay at or below target its row is gone by now, and the update finds nothing to rename.
      if p in w1.files then w1.(files := WriteRow(w1.files - {p}, target, w.files[p]))
      else w1.(files := AddDirs(w1.files, Parent'(target), DIRECTORY))
  }

  function OpenWriter(w: World, p: Path, append: bool, location: Location): World {
    if append && p in w.files then
      var own := if LocationAt(w, p) == "" then location else LocationAt(w, p);
      w.(live := w.live[p := Writer(own, SegmentRows(w.segments, own))])
    else
      var w1 := DeletePath(w, p);
      w1.(live := w.live[p := Writer(location, [])])
  }

  function WriteSegment(w: World, p: Path, bytes: Bytes): (w': World)
    requires p in w.live
    ensures p in w'.live
  {
    var Writer(location, segments) := w.live[p];
    var s := Segment(location, |segments| + 1, |bytes|);
    w.(objects := w.objects[SegmentName(location, s.number) := Blob(bytes)],
       segments := w.segments[SegmentKey(location, s.number) := s.size],
       live := w.live[p := Writer(location, segments + [s])])
  }

  function CommitWriter(w: World, p: Path): World
    requires p in w.live
  {
    var Writer(location, segments) := w.live[p];
    w.(objects := w.objects[ContentName(location) := Manifest(segments)],
       files := WriteRow(w.files, p, Row(TotalSize(segments), [], location)),
       live := w.live - {p})
  }

  function CancelWriter(w: World, p: Path): World {
    DeletePath(w, p).(live := w.live - {p})
  }

  /** One call of the interface; location is what the random source offers during it. */
  function Step(w: World, op: Op, location: Location): World {
    match op
    case Put(p, bytes) => PutFile(w, p, bytes, location)
    case Delete(p) => DeletePath(w, p)
    case Move(p, target) => MoveFile(w, p, target)
    case Open(p, append) => OpenWriter(w, p, append, location)
    case Extend(p, bytes) => if p in w.live then WriteSegment(w, p, bytes) else w
    case Commit(p) => if p in w.live then CommitWriter(w, p) else w
    case Cancel(p) => CancelWriter(w, p)
    case Abandon(p) => w.(live := w.live - {p})
  }
}
