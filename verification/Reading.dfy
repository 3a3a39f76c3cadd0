/** What clients that read files and ask for their sizes are told: after every supported call, and
    where a put or a commit stops half-way. */
module Reading {
  import opened Paths
  import opened Storage
  import opened FileSystem
  import opened World
  import opened Refinement
  import opened Steps
  import opened Runs
  import opened Swift

  datatype ReadResult = Content(bytes: Bytes) | PathNotFound | BackendError

  // A negative size stands for a directory.
  datatype StatResult = Info(size: int) | NoSuchPath

  function Downloaded(objects: Bucket, name: ObjectName, offset: nat): ReadResult {
    if name !in objects then PathNotFound
    else if !Readable(objects, name) then BackendError
    else Content(FromOffset(ObjectBytes(objects, name), offset))
  }

  /** What GetContent answers when no call fails, whatever state the row is in. */
  function Answer(w: World, p: Path): ReadResult {
    if p !in w.files || w.files[p].IsDir() then PathNotFound
    else
      var Row(size, content, location) := w.files[p];
      if size == 0 then Content([])
      else if content != [] then Content(content)
      else Downloaded(w.objects, ContentName(location), 0)
  }

  /** The same for Reader, which looks at the location instead of the content. */
  function AnswerFrom(w: World, p: Path, offset: nat): ReadResult {
    if p !in w.files || w.files[p].IsDir() then PathNotFound
    else
      var Row(size, content, location) := w.files[p];
      if offset > size then Content([])
      else if location == "" then Content(FromOffset(content, offset))
      else Downloaded(w.objects, ContentName(location), offset)
  }

  /** The root is always reported to be a directory, whatever the table says. */
  function StatAnswer(w: World, p: Path): StatResult {
    if p == [] then Info(-1)
    else if p in w.files then Info(w.files[p].size)
    else NoSuchPath
  }

  /* ---------- intact rows ---------- */

  /** A file's row says how long the file is and where its bytes are. */
  lemma RowBytes(w: World, p: Path)
    requires p in w.files && RowIntact(w, p) && !w.files[p].IsDir()
    ensures var row := w.files[p];
      var node := View(w).nodes[p];
      && node.File? && |node.bytes| == row.size
      && (row.location == "" ==> row.content == node.bytes)
      && (row.location != "" ==>
            && row.content == []
            && Readable(w.objects, ContentName(row.location))
            && ObjectBytes(w.objects, ContentName(row.location)) == node.bytes)
  {
    var row := w.files[p];
    hide SegmentRows, Joined, TotalSize;
    if row.location != "" && w.objects[ContentName(row.location)].Manifest? {
      var segments := w.objects[ContentName(row.location)].segments;
      PrefixStored(w.objects, segments, SegmentRows(w.segments, row.location), row.location);
      JoinedLength(w.objects, segments);
    }
  }

  /** Both ways to read an intact row give the bytes that the file system has there, from the offset
      on, and not found exactly if there is no file. */
  lemma IntactAnswer(w: World, p: Path, offset: nat)
    requires p in w.files ==> RowIntact(w, p)
    ensures Answer(w, p) == if IsFile(View(w), p) then Content(View(w).nodes[p].bytes) else PathNotFound
    ensures AnswerFrom(w, p, offset) == if IsFile(View(w), p)
                                        then Content(FromOffset(View(w).nodes[p].bytes, offset)) else PathNotFound
    ensures StatAnswer(w, p) == if p == [] then Info(-1)
                                else if p !in View(w).nodes then NoSuchPath
                                else if IsFile(View(w), p) then Info(|View(w).nodes[p].bytes|) else Info(-1)
  {
    if p in w.files && !w.files[p].IsDir() {
      RowBytes(w, p);
      hide RowIntact, RowNode;
    }
  }

  /* ---------- after every supported call ---------- */

  function NodeAnswer(nodes: map<Path, Node>, p: Path): ReadResult {
    if p in nodes && nodes[p].File? then Content(nodes[p].bytes) else PathNotFound
  }

  function NodeStat(nodes: map<Path, Node>, p: Path): StatResult {
    if p == [] then Info(-1)
    else if p !in nodes then NoSuchPath
    else if nodes[p].File? then Info(|nodes[p].bytes|) else Info(-1)
  }

  lemma GoodAnswer(w: World, p: Path)
    requires Good(w)
    ensures Answer(w, p) == NodeAnswer(View(w).nodes, p)
    ensures StatAnswer(w, p) == NodeStat(View(w).nodes, p)
  {
    if p in w.files { GoodRow(w, p); }
    hide Good, RowIntact, Answer, StatAnswer, AnswerFrom;
    IntactAnswer(w, p, 0);
  }

  /** What a read of any path q gives after one supported call, compared with a read before it. */
  lemma ReadersSee(w: World, c: Call, q: Path)
    requires Good(w) && LegalCall(w, c)
    ensures Answer(Step(w, c.op, c.location), q) ==
      match c.op
      case Put(p, bytes) => if q == p then Content(bytes) else Answer(w, q)
      case Delete(p) => if AtOrBelow(p, q) then PathNotFound else Answer(w, q)
      case Move(p, target) =>
        if p !in w.files then Answer(w, q)
        else if q == target then Answer(w, p)
        else if q == p || AtOrBelow(target, q) then PathNotFound
        else Answer(w, q)
      case Open(p, append) => if !append && AtOrBelow(p, q) then PathNotFound else Answer(w, q)
      case Extend(_, _) => Answer(w, q)
      case Commit(p) => if q == p then Content(Pending(w)[p]) else Answer(w, q)
      case Cancel(p) => if AtOrBelow(p, q) then PathNotFound else Answer(w, q)
      case Abandon(_) => Answer(w, q)
  {
    hide Good, Step, Answer, StatAnswer;
    StepRefines(w, c);
    GoodAnswer(w, q);
    GoodAnswer(Step(w, c.op, c.location), q);
    if c.op.Move? { GoodAnswer(w, c.op.path); }
    LegalNodes(w, c);
    hide Nodes, Pending, Resume, LegalCall;
    NodesRead(View(w), c.op, q);
  }

  lemma LegalNodes(w: World, c: Call)
    requires LegalCall(w, c)
    ensures Legal(View(w), c.op) && View(w).nodes.Keys == w.files.Keys && View(w).pending == Pending(w)
  {
    hide Legal, Fresh;
  }

  lemma NodesRead(fs: Fs, op: Op, q: Path)
    requires Legal(fs, op)
    ensures NodeAnswer(Apply(fs, op).nodes, q) ==
      match op
      case Put(p, bytes) => if q == p then Content(bytes) else NodeAnswer(fs.nodes, q)
      case Delete(p) => if AtOrBelow(p, q) then PathNotFound else NodeAnswer(fs.nodes, q)
      case Move(p, target) =>
        if p !in fs.nodes then NodeAnswer(fs.nodes, q)
        else if q == target then NodeAnswer(fs.nodes, p)
        else if q == p || AtOrBelow(target, q) then PathNotFound
        else NodeAnswer(fs.nodes, q)
      case Open(p, append) => if !append && AtOrBelow(p, q) then PathNotFound else NodeAnswer(fs.nodes, q)
      case Extend(_, _) => NodeAnswer(fs.nodes, q)
      case Commit(p) => if q == p then Content(fs.pending[p]) else NodeAnswer(fs.nodes, q)
      case Cancel(p) => if AtOrBelow(p, q) then PathNotFound else NodeAnswer(fs.nodes, q)
      case Abandon(_) => NodeAnswer(fs.nodes, q)
  {
    AtOrBelowItself(q);
  }

  /** The same for Stat: sizes of files, and which paths are directories or nothing at all. */
  lemma StatsSee(w: World, c: Call, q: Path)
    requires Good(w) && LegalCall(w, c)
    ensures StatAnswer(Step(w, c.op, c.location), q) ==
      match c.op
      case Put(p, bytes) =>
        if q == p then Info(|bytes|) else if AtOrBelow(q, p) then Info(-1) else StatAnswer(w, q)
      case Delete(p) => if AtOrBelow(p, q) then NoSuchPath else StatAnswer(w, q)
      case Move(p, target) =>
        if p !in w.files then StatAnswer(w, q)
        else if q == target then StatAnswer(w, p)
        else if AtOrBelow(q, target) then Info(-1)
        else if q == p || AtOrBelow(target, q) then NoSuchPath
        else StatAnswer(w, q)
      case Open(p, append) => if !append && AtOrBelow(p, q) then NoSuchPath else StatAnswer(w, q)
      case Extend(_, _) => StatAnswer(w, q)
      case Commit(p) =>
        if q == p then Info(|Pending(w)[p]|) else if AtOrBelow(q, p) then Info(-1) else StatAnswer(w, q)
      case Cancel(p) => if AtOrBelow(p, q) then NoSuchPath else StatAnswer(w, q)
      case Abandon(_) => StatAnswer(w, q)
  {
    hide Good, Step, Answer, StatAnswer;
    StepRefines(w, c);
    GoodAnswer(w, q);
    GoodAnswer(Step(w, c.op, c.location), q);
    if c.op.Move? { GoodAnswer(w, c.op.path); }
    LegalNodes(w, c);
    NoRootRow(w);
    hide Nodes, Pending, Resume, LegalCall;
    NodesStat(View(w), c.op, q);
  }

  lemma NoRootRow(w: World)
    requires Good(w)
    ensures [] !in w.files
    ensures forall p | p in View(w).pending :: p != []
  {
    forall p | p in w.live ensures p != [] { GoodWriter(w, p); }
  }

  lemma NodesStat(fs: Fs, op: Op, q: Path)
    requires Legal(fs, op) && [] !in fs.nodes && forall p | p in fs.pending :: p != []
    ensures NodeStat(Apply(fs, op).nodes, q) ==
      match op
      case Put(p, bytes) =>
        if q == p then Info(|bytes|) else if AtOrBelow(q, p) then Info(-1) else NodeStat(fs.nodes, q)
      case Delete(p) => if AtOrBelow(p, q) then NoSuchPath else NodeStat(fs.nodes, q)
      case Move(p, target) =>
        if p !in fs.nodes then NodeStat(fs.nodes, q)
        else if q == target then NodeStat(fs.nodes, p)
        else if AtOrBelow(q, target) then Info(-1)
        else if q == p || AtOrBelow(target, q) then NoSuchPath
        else NodeStat(fs.nodes, q)
      case Open(p, append) => if !append && AtOrBelow(p, q) then NoSuchPath else NodeStat(fs.nodes, q)
      case Extend(_, _) => NodeStat(fs.nodes, q)
      case Commit(p) =>
        if q == p then Info(|fs.pending[p]|) else if AtOrBelow(q, p) then Info(-1) else NodeStat(fs.nodes, q)
      case Cancel(p) => if AtOrBelow(p, q) then NoSuchPath else NodeStat(fs.nodes, q)
      case Abandon(_) => NodeStat(fs.nodes, q)
  {
    AtOrBelowItself(q);
    forall p | q != p && AtOrBelow(q, p) ensures AtOrBelow(q, Parent'(p)) { AtOrBelowParent(q, p); }
  }

  /** What was put or committed is what is read, until a call concerns the path again. */
  lemma LastWriteIsRead(w: World, c: Call, calls: seq<Call>, p: Path)
    requires Good(w) && LegalRun(w, [c] + calls) && (c.op.Put? || c.op.Commit?) && c.op.path == p
    requires forall d | d in calls ::
      Invisible(d.op) || (Unrelated(d.op.path, p) && (d.op.Move? ==> Unrelated(d.op.target, p)))
    ensures p in w.live || c.op.Put?
    ensures Answer(Run(w, [c] + calls), p) == Content(if c.op.Put? then c.op.bytes else Pending(w)[p])
  {
    assert ([c] + calls)[1..] == calls;
    var w1 := Step(w, c.op, c.location);
    StepRefines(w, c);
    ReadersSee(w, c, p);
    LegalNodes(w, c);
    RunRefines(w1, calls);
    InvisibleUntilCommit(w1, calls, p);
    hide Good, View, Step, Answer, LegalCall;
    GoodAnswer(w1, p);
    GoodAnswer(Run(w1, calls), p);
  }

  /* ---------- where a put stops ---------- */

  function NewRow(contents: Bytes, location: Location): Row {
    if |contents| > 256 then Row(|contents|, [], location) else Row(|contents|, contents, "")
  }

  function WithoutOld(w: World, p: Path): Bucket {
    if LocationAt(w, p) == "" then w.objects else DropLocations(w.objects, {LocationAt(w, p)})
  }

  /** Some of the old blobs are gone. */
  ghost predicate BlobsStage(w: World, w': World, p: Path) {
    && w' == w.(objects := w'.objects)
    && (forall n | n in w'.objects :: n in w.objects && w'.objects[n] == w.objects[n])
    && (forall n | n in w.objects && (LocationAt(w, p) == "" || n.location != LocationAt(w, p)) :: n in w'.objects)
  }

  /** All old blobs are gone, and the row is there with the directories from depth k downwards. */
  ghost predicate RowStage(w: World, w': World, p: Path, contents: Bytes, location: Location, k: nat)
    requires p != []
  {
    && 0 < k <= |p|
    && w' == w.(files := Interrupted(w.files, p, NewRow(contents, location), k), objects := WithoutOld(w, p))
  }

  /** Large contents are uploaded last. */
  ghost predicate UploadStage(w: World, w': World, p: Path, contents: Bytes, location: Location) {
    && |contents| > 256
    && w' == w.(files := WriteRow(w.files, p, NewRow(contents, location)),
                objects := WithoutOld(w, p)[ContentName(location) := Blob(contents)])
  }

  /** All the states in which a put may stop, with or without an error. */
  ghost predicate PutStage(w: World, w': World, p: Path, contents: Bytes, location: Location)
    requires p != []
  {
    || BlobsStage(w, w', p)
    || (exists k :: RowStage(w, w', p, contents, location, k))
    || UploadStage(w, w', p, contents, location)
  }

  lemma BlobsGoneAnswer(w: World, w': World, p: Path)
    requires BlobsStage(w, w', p)
    ensures Answer(w', p) == Answer(w, p) || Answer(w', p) == PathNotFound || Answer(w', p) == BackendError
  {
    if p in w.files {
      var name := ContentName(w.files[p].location);
      if Readable(w'.objects, name) {
        hide Joined, BlobData;
        SubsetReadable(w.objects, w'.objects, name);
      }
    }
  }

  lemma SubsetReadable(a: Bucket, b: Bucket, name: ObjectName)
    requires Readable(b, name) && forall n | n in b :: n in a && b[n] == a[n]
    ensures Readable(a, name) && ObjectBytes(a, name) == ObjectBytes(b, name)
  {
    if b[name].Manifest? {
      var segments := b[name].segments;
      forall i | 0 <= i < |segments|
        ensures SegmentStored(a, segments[i])
        ensures var n := SegmentName(segments[i].location, segments[i].number); BlobData(a, n) == BlobData(b, n)
      {
        assert SegmentStored(b, segments[i]);
      }
      JoinedFrame(a, b, segments);
    }
  }

  /** Stopped between its row and its upload, a put of large contents leaves a file of full size that
      is not found when it is read; small contents are readable as soon as the row is there. */
  lemma StoppedBeforeUpload(w: World, w': World, p: Path, contents: Bytes, location: Location, k: nat)
    requires p != [] && RowStage(w, w', p, contents, location, k) && (|contents| > 256 ==> Fresh(w, location))
    ensures Answer(w', p) == if |contents| > 256 then PathNotFound else Content(contents)
    ensures StatAnswer(w', p) == Info(|contents|)
    ensures forall offset: nat ::
      AnswerFrom(w', p, offset) == if offset > |contents| then Content([])
                                   else if |contents| > 256 then PathNotFound
                                   else Content(FromOffset(contents, offset))
  {
    var row := NewRow(contents, location);
    assert p in w'.files && w'.files[p] == row;
    assert |contents| > 256 ==> ContentName(location) !in w'.objects;
  }

  lemma UploadedAnswer(w: World, w': World, p: Path, contents: Bytes, location: Location)
    requires p != [] && UploadStage(w, w', p, contents, location) && location != ""
    ensures Answer(w', p) == Content(contents) && StatAnswer(w', p) == Info(|contents|)
  {
    NotAboveItself(p);
    assert p in w'.files && w'.files[p] == NewRow(contents, location);
  }

  /** Wherever a put stops, a reader gets the old content, the new content or an error, and never
      anything else. */
  lemma PutNeverTorn(w: World, w': World, p: Path, contents: Bytes, location: Location)
    requires p != [] && PutStage(w, w', p, contents, location) && (|contents| > 256 ==> Fresh(w, location))
    ensures Answer(w', p) in {Answer(w, p), Content(contents), PathNotFound, BackendError}
  {
    hide Answer, BlobsStage, RowStage, UploadStage;
    if BlobsStage(w, w', p) { BlobsGoneAnswer(w, w', p); }
    if k :| RowStage(w, w', p, contents, location, k) { StoppedBeforeUpload(w, w', p, contents, location, k); }
    if UploadStage(w, w', p, contents, location) {
      assert |contents| > 256 by { UploadIsLarge(w, w', p, contents, location); }
      UploadedAnswer(w, w', p, contents, location);
    }
  }

  lemma UploadIsLarge(w: World, w': World, p: Path, contents: Bytes, location: Location)
    requires UploadStage(w, w', p, contents, location)
    ensures |contents| > 256
  {
  }

  /* ---------- where a commit stops ---------- */

  /** Whatever the tables look like: once the manifest is there, or with it the row, too, a reader gets
      the old content or all of the new one, and never a mixture. */
  lemma CommitNeverTorn(w: World, w': World, p: Path)
    requires p in w.live && w.live[p].location != ""
    requires var Writer(location, segments) := w.live[p];
      || (w'.objects == w.objects && w'.files == w.files)
      || (&& Stored(w.objects, segments)
          && w'.objects == w.objects[ContentName(location) := Manifest(segments)]
          && (w'.files == w.files || (p in w'.files && w'.files[p] == Row(TotalSize(segments), [], location))))
    ensures Answer(w', p) == Answer(w, p) || Answer(w', p) == Content(Pending(w)[p])
  {
    var Writer(location, segments) := w.live[p];
    if w'.objects != w.objects || w'.files != w.files {
      ManifestReadable(w.objects, location, segments);
      if p in w'.files && w'.files[p].location == location {
        JoinedLength(w.objects, segments);
      } else if p in w.files {
        ManifestElsewhere(w.objects, location, segments, ContentName(w.files[p].location));
      }
      hide Joined, TotalSize, Stored;
    }
  }

  lemma ManifestReadable(objects: Bucket, location: Location, segments: seq<Segment>)
    requires Stored(objects, segments)
    ensures var objects' := objects[ContentName(location) := Manifest(segments)];
      Readable(objects', ContentName(location))
      && ObjectBytes(objects', ContentName(location)) == Joined(objects, segments)
  {
    var objects' := objects[ContentName(location) := Manifest(segments)];
    forall i | 0 <= i < |segments| ensures SegmentStored(objects', segments[i]) {
      assert SegmentStored(objects, segments[i]);
    }
    JoinedFrame(objects, objects', segments);
  }

  lemma ManifestElsewhere(objects: Bucket, location: Location, segments: seq<Segment>, name: ObjectName)
    requires name != ContentName(location)
    ensures var objects' := objects[ContentName(location) := Manifest(segments)];
      Downloaded(objects', name, 0) == Downloaded(objects, name, 0)
  {
    var objects' := objects[ContentName(location) := Manifest(segments)];
    if name in objects && objects[name].Manifest? {
      var s := objects[name].segments;
      assert forall i | 0 <= i < |s| :: SegmentStored(objects', s[i]) <==> SegmentStored(objects, s[i]);
      JoinedFrame(objects, objects', s);
    }
  }
}
