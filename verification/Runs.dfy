/** Runs of the driver: any sequence of supported calls, by any number of writers, in any order. */
module Runs {
  import opened Paths
  import opened Storage
  import opened FileSystem
  import opened World
  import opened Refinement
  import opened Steps

  // One call of the interface together with the location that the random source offers to it.
  datatype Call = Call(op: Op, location: Location)

  predicate NeedsLocation(op: Op) {
    op.Open? || (op.Put? && |op.bytes| > MAX_INLINE_SIZE)
  }

  ghost predicate LegalCall(w: World, c: Call) {
    Legal(View(w), c.op) && (NeedsLocation(c.op) ==> Fresh(w, c.location))
  }

  function Run(w: World, calls: seq<Call>): World
    decreases |calls|
  {
    if calls == [] then w else Run(Step(w, calls[0].op, calls[0].location), calls[1..])
  }

  ghost predicate LegalRun(w: World, calls: seq<Call>)
    decreases |calls|
  {
    calls == [] || (LegalCall(w, calls[0]) && LegalRun(Step(w, calls[0].op, calls[0].location), calls[1..]))
  }

  /** The specification of a run, without tables, objects and locations. */
  function ApplyAll(fs: Fs, calls: seq<Call>): Fs
    decreases |calls|
  {
    if calls == [] then fs else ApplyAll(Apply(fs, calls[0].op), calls[1..])
  }

  const NEW := World(map[], map[], map[], map[])

  lemma NewIsGood()
    ensures Good(NEW) && View(NEW) == Fs(map[], map[], map[])
  {
    assert Nodes(NEW) == map[] && Pending(NEW) == map[] && Resume(NEW) == map[];
  }

  /** One supported call keeps the invariants and acts on what clients see as specified. */
  lemma StepRefines(w: World, c: Call)
    requires Good(w) && LegalCall(w, c)
    ensures Good(Step(w, c.op, c.location))
    ensures View(Step(w, c.op, c.location)) == Apply(View(w), c.op)
  {
    hide Good, Fresh, PutFile, DeletePath, MoveFile, OpenWriter, WriteSegment, CommitWriter, CancelWriter, Nodes,
        Resume, Pending;
    match c.op
    case Put(p, bytes) => PutRefines(w, p, bytes, c.location);
    case Delete(p) => DeleteRefines(w, p);
    case Move(p, target) => MoveRefines(w, p, target);
    case Open(p, append) => OpenRefines(w, p, append, c.location);
    case Extend(p, bytes) => ExtendRefines(w, p, bytes);
    case Commit(p) => CommitRefines(w, p);
    case Cancel(p) => CancelRefines(w, p);
    case Abandon(p) => DetachGood(w, p); DetachView(w, p);
  }

  /** Whatever storage forms and locations are behind it, after any run of supported calls clients
      see exactly the specified file system. */
  lemma {:induction false} RunRefines(w: World, calls: seq<Call>)
    requires Good(w) && LegalRun(w, calls)
    ensures Good(Run(w, calls))
    ensures View(Run(w, calls)) == ApplyAll(View(w), calls)
    decreases |calls|
  {
    hide Good, View, Apply, Step, LegalCall;
    if calls != [] {
      StepRefines(w, calls[0]);
      RunRefines(Step(w, calls[0].op, calls[0].location), calls[1..]);
    }
  }

  /* ---------- uploads in several sessions ---------- */

  predicate Unrelated(p: Path, q: Path) {
    !AtOrBelow(p, q) && !AtOrBelow(q, p)
  }

  /** A call that is part of an upload to p (open, write, commit) or has nothing to do with p. */
  predicate UploadsTo(op: Op, p: Path) {
    || (op.path == p && (op.Open? || op.Extend? || op.Commit?))
    || (Unrelated(op.path, p) && (op.Move? ==> Unrelated(op.target, p)))
  }

  /** All bytes written to p since it was last opened without append. */
  function Uploaded(calls: seq<Call>, p: Path, before: Bytes): Bytes
    decreases |calls|
  {
    if calls == [] then before
    else
      var op := calls[0].op;
      Uploaded(calls[1..], p,
               if op.path != p then before
               else if op.Open? && !op.append then []
               else if op.Extend? then before + op.bytes
               else before)
  }

  /** The writer of p, or else the file at p, holds exactly the given bytes, and an append session
      would continue with them. */
  predicate Holds(fs: Fs, p: Path, bytes: Bytes) {
    && (p in fs.pending ==> fs.pending[p] == bytes)
    && (p in fs.nodes ==> fs.nodes[p].File? && p in fs.resume && fs.resume[p] == bytes)
    && (p in fs.nodes && p !in fs.pending ==> fs.nodes[p] == File(bytes))
    && (p !in fs.nodes ==> p !in fs.resume)
    && (p !in fs.nodes && p !in fs.pending ==> bytes == [])
  }

  lemma UnrelatedKeeps(fs: Fs, op: Op, p: Path)
    requires Unrelated(op.path, p) && (op.Move? ==> Unrelated(op.target, p))
    ensures var fs' := Apply(fs, op);
      && (p in fs'.nodes <==> p in fs.nodes) && (p in fs.nodes ==> fs'.nodes[p] == fs.nodes[p])
      && (p in fs'.pending <==> p in fs.pending) && (p in fs.pending ==> fs'.pending[p] == fs.pending[p])
      && (p in fs'.resume <==> p in fs.resume) && (p in fs.resume ==> fs'.resume[p] == fs.resume[p])
  {
    AboveOfUnrelated(op.path, p);
    if op.Move? { AboveOfUnrelated(op.target, p); }
  }

  lemma AboveOfUnrelated(q: Path, p: Path)
    requires Unrelated(q, p)
    ensures p !in SelfAndAbove(Parent'(q)) && p != q
  {
    if AtOrBelow(p, Parent'(q)) { AtOrBelowTransitive(p, Parent'(q), q); }
  }

  lemma UploadStep(fs: Fs, c: Call, p: Path, before: Bytes)
    requires Holds(fs, p, before) && Legal(fs, c.op) && UploadsTo(c.op, p)
    ensures Holds(Apply(fs, c.op), p, Uploaded([c], p, before))
  {
    hide AddDirs;
    assert Uploaded([c], p, before) == Uploaded([], p, Uploaded([c], p, before));
    if c.op.path != p {
      hide Apply, Legal;
      UnrelatedKeeps(fs, c.op, p);
    } else {
      assert p !in SelfAndAbove(Parent'(p));
    }
  }

  /** Any number of upload sessions on p, mixed in any way with calls elsewhere: p ends up with the
      concatenation of everything written to it, and the segments of an unfinished session are
      numbered 1, 2, 3, ... and are exactly the rows that are read back. */
  lemma {:induction false} ResumedUpload(w: World, calls: seq<Call>, p: Path, before: Bytes)
    requires Good(w) && LegalRun(w, calls) && Holds(View(w), p, before)
    requires forall c | c in calls :: UploadsTo(c.op, p)
    ensures var w' := Run(w, calls);
      && Good(w')
      && Holds(View(w'), p, Uploaded(calls, p, before))
      && (p in w'.live ==> SegmentsInOrder(w', p))
    decreases |calls|
  {
    hide Good, View, Apply, Step, LegalCall, Legal, Holds, UploadsTo, SegmentsInOrder;
    if calls == [] {
      if p in w.live { LiveInOrder(w, p); }
    } else {
      var c := calls[0];
      StepRefines(w, c);
      assert Legal(View(w), c.op) by { LegalCallIsLegal(w, c); }
      UploadStep(View(w), c, p, before);
      ResumedUpload(Step(w, c.op, c.location), calls[1..], p, Uploaded([c], p, before));
    }
  }

  /** The segments of a session are numbered 1, 2, 3, ... and are exactly the rows read back. */
  predicate SegmentsInOrder(w: World, p: Path)
    requires p in w.live
  {
    var Writer(location, segments) := w.live[p];
    Numbered(segments, location) && segments == SegmentRows(w.segments, location)
  }

  lemma LiveInOrder(w: World, p: Path)
    requires Good(w) && p in w.live
    ensures SegmentsInOrder(w, p)
  {
    GoodWriter(w, p);
  }

  lemma LegalCallIsLegal(w: World, c: Call)
    requires LegalCall(w, c)
    ensures Legal(View(w), c.op)
  {
  }

  /** A call that is part of an append session, wherever that is, but publishes nothing. */
  predicate Invisible(op: Op) {
    op.Extend? || op.Abandon? || (op.Open? && op.append)
  }

  lemma InvisibleStep(fs: Fs, op: Op)
    requires Invisible(op)
    ensures Apply(fs, op).nodes == fs.nodes
  {
  }

  /** Until a commit nothing that append sessions do is visible to readers: whatever else happens
      elsewhere in between, the node at p stays as it is. */
  lemma {:induction false} InvisibleUntilCommit(w: World, calls: seq<Call>, p: Path)
    requires Good(w) && LegalRun(w, calls)
    requires forall c | c in calls ::
      Invisible(c.op) || (Unrelated(c.op.path, p) && (c.op.Move? ==> Unrelated(c.op.target, p)))
    ensures var nodes, nodes' := View(w).nodes, View(Run(w, calls)).nodes;
      (p in nodes' <==> p in nodes) && (p in nodes ==> nodes'[p] == nodes[p])
    decreases |calls|
  {
    if calls != [] {
      hide Good, View, Step, Apply, LegalCall, Unrelated;
      var c := calls[0];
      StepRefines(w, c);
      if Invisible(c.op) { InvisibleStep(View(w), c.op); } else { UnrelatedKeeps(View(w), c.op, p); }
      InvisibleUntilCommit(Step(w, c.op, c.location), calls[1..], p);
    }
  }

  /** What a Commit publishes is the list of segments recorded in the table. */
  lemma CommitPublishesRows(w: World, p: Path)
    requires Good(w) && p in w.live
    ensures var w' := CommitWriter(w, p);
      var location := w.live[p].location;
      && p in w'.files && w'.files[p].location == location
      && w'.objects[ContentName(location)] == Manifest(SegmentRows(w'.segments, location))
      && Numbered(SegmentRows(w'.segments, location), location)
  {
    hide RowIntact, Isolated, Tree;
    assert WriterIntact(w, p);
  }
}
