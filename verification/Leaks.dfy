/** Which calls leave objects behind in Swift that nothing refers to any more. */
module Leaks {
  import opened Paths
  import opened Storage
  import opened FileSystem
  import opened World
  import opened Steps
  import opened Runs

  /** A writer can go away without a trace: nothing is stored at its location, or its location is that
      of the row at its path. */
  predicate CleanEnd(w: World, p: Path)
    requires p in w.live
  {
    LocationAt(w, p) == w.live[p].location || forall n | n in w.objects :: n.location != w.live[p].location
  }

  /** An object that nothing refers to. */
  predicate Lost(w: World, n: ObjectName) {
    n in w.objects && !Referenced(w, n.location)
  }

  lemma NoLeakIsNoneLost(w: World)
    ensures NoLeak(w) <==> forall n | n in w.objects :: !Lost(w, n)
  {
  }

  /* ---------- what a step does to references ---------- */

  /** Nothing that is referred to is lost by the step, and nothing that was lost before comes back or
      is deleted. */
  ghost predicate Careful(w: World, w': World, added: Location) {
    && (forall n | n in w'.objects :: (n in w.objects && !Referenced(w, n.location)) || Referenced(w', n.location))
    && Forgetful(w, w', added)
  }

  ghost predicate Forgetful(w: World, w': World, added: Location) {
    && (forall l | Referenced(w', l) :: Referenced(w, l) || l == added)
    && (forall n | n in w.objects && !Referenced(w, n.location) :: n in w'.objects)
  }

  lemma ByRow(w: World, p: Path)
    requires p in w.files && w.files[p].location != ""
    ensures Referenced(w, w.files[p].location)
  {
  }

  lemma ByWriter(w: World, p: Path)
    requires p in w.live && w.live[p].location != ""
    ensures Referenced(w, w.live[p].location)
  {
  }

  /** References survive if every row and writer that had them has a successor. */
  lemma StillReferenced(w: World, w': World, l: Location)
    requires Referenced(w, l)
    requires forall q | q in w.files && w.files[q].location == l :: Referenced(w', l)
    requires forall q | q in w.live && w.live[q].location == l :: Referenced(w', l)
    ensures Referenced(w', l)
  {
  }

  lemma ReferencedFrom(w: World, w': World, added: Location)
    requires forall q | q in w'.files && w'.files[q].location != "" ::
      Referenced(w, w'.files[q].location) || w'.files[q].location == added
    requires forall q | q in w'.live :: Referenced(w, w'.live[q].location) || w'.live[q].location == added
    ensures forall l | Referenced(w', l) :: Referenced(w, l) || l == added
  {
  }

  lemma PutCareful(w: World, p: Path, bytes: Bytes, location: Location)
    requires Isolated(w) && p !in w.live && (|bytes| > MAX_INLINE_SIZE ==> Fresh(w, location))
    ensures Careful(w, PutFile(w, p, bytes, location), if |bytes| > MAX_INLINE_SIZE then location else "")
  {
    PutReferences(w, p, bytes, location);
    PutForgetful(w, p, bytes, location);
    hide *;
    CarefulIf(w, PutFile(w, p, bytes, location), if |bytes| > MAX_INLINE_SIZE then location else "");
  }

  lemma CarefulIf(w: World, w': World, added: Location)
    requires Forgetful(w, w', added)
    requires forall n | n in w'.objects :: (n in w.objects && !Referenced(w, n.location)) || Referenced(w', n.location)
    ensures Careful(w, w', added)
  {
    hide Referenced, Forgetful;
  }

  lemma PutReferences(w: World, p: Path, bytes: Bytes, location: Location)
    requires p !in w.live && (|bytes| > MAX_INLINE_SIZE ==> Fresh(w, location))
    ensures var w' := PutFile(w, p, bytes, location);
      forall n | n in w'.objects :: (n in w.objects && !Referenced(w, n.location)) || Referenced(w', n.location)
  {
    var w' := PutFile(w, p, bytes, location);
    assert p !in SelfAndAbove(Parent'(p));
    hide AtOrBelow;
    forall n | n in w'.objects ensures (n in w.objects && !Referenced(w, n.location)) || Referenced(w', n.location) {
      if |bytes| > MAX_INLINE_SIZE && n == ContentName(location) {
        ByRow(w', p);
      } else if Referenced(w, n.location) {
        PutSuccessors(w, p, bytes, location, n);
        hide PutFile;
        StillReferenced(w, w', n.location);
      }
    }
  }

  lemma PutForgetful(w: World, p: Path, bytes: Bytes, location: Location)
    requires Isolated(w) && p !in w.live && (|bytes| > MAX_INLINE_SIZE ==> Fresh(w, location))
    ensures Forgetful(w, PutFile(w, p, bytes, location), if |bytes| > MAX_INLINE_SIZE then location else "")
  {
    var w' := PutFile(w, p, bytes, location);
    var added := if |bytes| > MAX_INLINE_SIZE then location else "";
    AllReferenced(w);
    PutObjects(w, p, bytes, location);
    hide Isolated, Referenced, Fresh, PutFile, WriteRow;
    PutFrame(w, p, bytes, location);
    WriteRowKept(w.files, p, if |bytes| > MAX_INLINE_SIZE then Row(|bytes|, [], location) else Row(|bytes|, bytes, ""));
    forall q | q in w'.files && w'.files[q].location != ""
      ensures Referenced(w, w'.files[q].location) || w'.files[q].location == added
    {
      if q != p { assert q in w.files; }
    }
    ReferencedFrom(w, w', added);
  }

  lemma PutObjects(w: World, p: Path, bytes: Bytes, location: Location)
    ensures forall n | n in w.objects && (LocationAt(w, p) == "" || n.location != LocationAt(w, p)) ::
      n in PutFile(w, p, bytes, location).objects
  {
    hide WriteRow;
  }

  lemma AllReferenced(w: World)
    requires Isolated(w)
    ensures forall q | q in w.files && w.files[q].location != "" :: Referenced(w, w.files[q].location)
    ensures forall q | q in w.live :: Referenced(w, w.live[q].location)
  {
    forall q | q in w.files && w.files[q].location != "" ensures Referenced(w, w.files[q].location) { ByRow(w, q); }
    forall q | q in w.live ensures Referenced(w, w.live[q].location) { ByWriter(w, q); }
    hide Referenced;
  }

  lemma PutSuccessors(w: World, p: Path, bytes: Bytes, location: Location, n: ObjectName)
    requires p !in w.live && n in w.objects && n.location != ""
    requires LocationAt(w, p) == "" || n.location != LocationAt(w, p)
    ensures var w' := PutFile(w, p, bytes, location);
      && (forall q | q in w.files && w.files[q].location == n.location :: Referenced(w', n.location))
      && (forall q | q in w.live && w.live[q].location == n.location :: Referenced(w', n.location))
  {
    var w' := PutFile(w, p, bytes, location);
    forall q | q in w.files && w.files[q].location == n.location ensures Referenced(w', n.location) {
      assert q in w'.files && w'.files[q] == w.files[q];
    }
  }

  lemma DeleteCareful(w: World, p: Path)
    requires Isolated(w)
    ensures Careful(w, DeletePath(w, p), "")
  {
    var w' := DeletePath(w, p);
    hide AtOrBelow;
    forall n | n in w'.objects ensures (n in w.objects && !Referenced(w, n.location)) || Referenced(w', n.location) {
      if q :| q in w.files && w.files[q].location == n.location && n.location != "" {
        assert q in w'.files && w'.files[q] == w.files[q];
      }
    }
    AllReferenced(w);
    hide Isolated, Referenced;
    ReferencedFrom(w, w', "");
  }

  /** Renaming a row changes no reference. */
  lemma SameReferences(w1: World, w2: World)
    requires w2.objects == w1.objects
    requires forall l :: Referenced(w1, l) <==> Referenced(w2, l)
    ensures Careful(w1, w2, "")
  {
  }

  lemma CarefulTwice(w: World, w1: World, w2: World, added: Location)
    requires Careful(w, w1, "") && Careful(w1, w2, added)
    ensures Careful(w, w2, added)
  {
    hide Referenced;
    assert forall l | Referenced(w1, l) :: Referenced(w, l) || l == "" ;
    forall l | Referenced(w1, l) ensures Referenced(w, l) { EmptyNotReferenced(w1); }
  }

  lemma EmptyNotReferenced(w: World)
    ensures !Referenced(w, "")
  {
  }

  lemma MoveCareful(w: World, p: Path, target: Path)
    requires Isolated(w) && (p in w.files ==> !AtOrBelow(target, p))
    ensures Careful(w, MoveFile(w, p, target), "")
  {
    if p in w.files {
      var w1 := DeletePath(w, target);
      DeleteCareful(w, target);
      RenameReferences(w, p, target);
      SameReferences(w1, MoveFile(w, p, target));
      hide Careful, DeletePath, MoveFile, Isolated;
      CarefulTwice(w, w1, MoveFile(w, p, target), "");
    } else {
      SameReferences(w, w);
    }
  }

  lemma RenameReferences(w: World, p: Path, target: Path)
    requires p in w.files && !AtOrBelow(target, p)
    ensures var w1, w2 := DeletePath(w, target), MoveFile(w, p, target);
      w2.objects == w1.objects && forall l :: Referenced(w1, l) <==> Referenced(w2, l)
  {
    var w1, w2 := DeletePath(w, target), MoveFile(w, p, target);
    MovedRows(w, p, target);
    forall l ensures Referenced(w1, l) <==> Referenced(w2, l) {
      hide DeletePath, MoveFile, AtOrBelow;
      RenameOne(w1, w2, p, target, l);
    }
  }

  lemma MovedRows(w: World, p: Path, target: Path)
    requires p in w.files && !AtOrBelow(target, p)
    ensures var w1, w2 := DeletePath(w, target), MoveFile(w, p, target);
      && w2.live == w1.live && w2.objects == w1.objects && p in w1.files
      && target in w2.files && w2.files[target] == w1.files[p]
      && (forall q | q in w1.files && q != p && q != target :: q in w2.files && w2.files[q] == w1.files[q])
      && (target in w1.files ==> target == p)
      && (forall q | q in w2.files && q != target && !(q in w1.files && w2.files[q] == w1.files[q]) ::
           w2.files[q] == DIRECTORY)
  {
    assert target !in SelfAndAbove(Parent'(target)) && AtOrBelow(target, target);
    hide AtOrBelow;
  }

  lemma RenameOne(w1: World, w2: World, p: Path, target: Path, l: Location)
    requires w2.live == w1.live && p in w1.files && target in w2.files && w2.files[target] == w1.files[p]
    requires forall q | q in w1.files && q != p && q != target :: q in w2.files && w2.files[q] == w1.files[q]
    requires target in w1.files ==> target == p
    requires forall q | q in w2.files && q != target && !(q in w1.files && w2.files[q] == w1.files[q]) ::
      w2.files[q] == DIRECTORY
    ensures Referenced(w1, l) <==> Referenced(w2, l)
  {
    if l != "" {
      if q :| q in w1.files && w1.files[q].location == l {
        if q == p { assert w2.files[target].location == l; } else { assert w2.files[q].location == l; }
      }
      if q :| q in w2.files && w2.files[q].location == l {
        if q == target { assert w1.files[p].location == l; } else { assert w1.files[q].location == l; }
      }
    }
  }

  lemma OpenCareful(w: World, p: Path, append: bool, location: Location)
    requires Isolated(w) && p !in w.live && Fresh(w, location)
    ensures Careful(w, OpenWriter(w, p, append, location), location)
  {
    var w1 := if append && p in w.files then w else DeletePath(w, p);
    var w2 := OpenWriter(w, p, append, location);
    if append && p in w.files {
      SameReferences(w, w);
      if LocationAt(w, p) != "" { ByRow(w, p); }
    } else {
      DeleteCareful(w, p);
      DeletePathLives(w, p);
    }
    hide Careful, DeletePath, Isolated, Fresh, SegmentRows, Referenced;
    AttachCareful(w1, p, w2.live[p], location);
    CarefulTwice(w, w1, w2, location);
  }

  lemma AttachCareful(w: World, p: Path, writer: Writer, location: Location)
    requires p !in w.live && (writer.location == location || Referenced(w, writer.location))
    ensures Careful(w, w.(live := w.live[p := writer]), location)
  {
    var w' := w.(live := w.live[p := writer]);
    forall l | Referenced(w, l) ensures Referenced(w', l) {
      if q :| q in w.live && w.live[q].location == l { assert w'.live[q] == w.live[q]; }
    }
    forall l | Referenced(w', l) ensures Referenced(w, l) || l == location {
      if q :| q in w'.live && w'.live[q].location == l {
        if q != p { assert w.live[q] == w'.live[q]; }
      }
    }
  }

  lemma ExtendCareful(w: World, p: Path, bytes: Bytes)
    requires p in w.live && w.live[p].location != ""
    ensures Careful(w, WriteSegment(w, p, bytes), "")
  {
    var w' := WriteSegment(w, p, bytes);
    forall l ensures Referenced(w, l) <==> Referenced(w', l) {
      if q :| q in w.live && w.live[q].location == l { assert w'.live[q].location == l; }
      if q :| q in w'.live && w'.live[q].location == l { assert w.live[q].location == l; }
    }
    ByWriter(w', p);
  }

  lemma CommitCareful(w: World, p: Path)
    requires Isolated(w) && p in w.live
    ensures Careful(w, CommitWriter(w, p), "")
  {
    var w' := CommitWriter(w, p);
    CommitReferences(w, p);
    ByRow(w', p) by { assert p !in SelfAndAbove(Parent'(p)); }
    hide Isolated, Referenced, TotalSize, WriteRow;
  }

  lemma CommitReferences(w: World, p: Path)
    requires Isolated(w) && p in w.live
    ensures forall l :: Referenced(w, l) <==> Referenced(CommitWriter(w, p), l)
  {
    var w' := CommitWriter(w, p);
    assert p !in SelfAndAbove(Parent'(p));
    hide AtOrBelow, TotalSize;
    forall l ensures Referenced(w, l) <==> Referenced(w', l) {
      if l != "" {
        if q :| q in w.files && w.files[q].location == l { assert w'.files[q].location == l; }
        if q :| q in w.live && w.live[q].location == l {
          if q == p { assert w'.files[p].location == l; } else { assert w'.live[q].location == l; }
        }
      }
    }
  }

  lemma DetachForgetful(w: World, p: Path)
    ensures Forgetful(w, w.(live := w.live - {p}), "")
    ensures forall l | Referenced(w, l) && (p in w.live ==> l != w.live[p].location) ::
      Referenced(w.(live := w.live - {p}), l)
    ensures LocationAt(w, p) != "" ==> Referenced(w.(live := w.live - {p}), LocationAt(w, p))
  {
    var w' := w.(live := w.live - {p});
    forall l | Referenced(w, l) && (p in w.live ==> l != w.live[p].location) ensures Referenced(w', l) {
      if q :| q in w.live && w.live[q].location == l { assert q in w'.live && w'.live[q] == w.live[q]; }
    }
  }

  /* ---------- the end of a writer ---------- */

  /** The writer is gone, and whatever was at its path is gone, too, or not. */
  ghost predicate Ended(w: World, w': World, p: Path)
    requires p in w.live
  {
    && w'.live == w.live - {p}
    && (w' == w.(live := w.live - {p}) || w' == DeletePath(w, p).(live := w.live - {p}))
  }

  lemma EndForgetful(w: World, w': World, p: Path)
    requires Isolated(w) && p in w.live && Ended(w, w', p)
    ensures Forgetful(w, w', "")
  {
    DetachForgetful(w, p);
    DeleteCareful(w, p);
    var w1 := DeletePath(w, p);
    DeletePathLives(w, p);
    DetachForgetful(w1, p);
    hide DeletePath, Isolated, Referenced;
    EmptyNotReferenced(w1);
    EmptyNotReferenced(w);
  }

  lemma CleanKeeps(w: World, w': World, p: Path)
    requires Isolated(w) && NoLeak(w) && p in w.live && Ended(w, w', p) && CleanEnd(w, p)
    ensures NoLeak(w')
  {
    var w1 := w'.(live := w.live);
    DeleteCareful(w, p);
    DeletePathLives(w, p);
    assert w1 == w || w1 == DeletePath(w, p);
    assert NoLeak(w1);
    DetachForgetful(w1, p);
    forall n | n in w'.objects ensures Referenced(w', n.location) {
      if n.location == w.live[p].location { OwnStays(w, w1, p, n); }
    }
  }

  /** What is still at the writer's location is under the row at its path. */
  lemma OwnStays(w: World, w1: World, p: Path, n: ObjectName)
    requires p in w.live && w.live[p].location != "" && CleanEnd(w, p)
    requires n in w1.objects && n.location == w.live[p].location
    requires w1 == w || w1 == DeletePath(w, p)
    ensures LocationAt(w1, p) == n.location
  {
    assert AtOrBelow(p, p);
  }

  lemma UncleanLoses(w: World, w': World, p: Path) returns (n: ObjectName)
    requires Isolated(w) && p in w.live && Ended(w, w', p) && !CleanEnd(w, p)
    ensures Lost(w', n)
  {
    n :| n in w.objects && n.location == w.live[p].location;
    NotAtRows(w, p);
    EndedFrame(w, w', p);
    hide Isolated, Ended, AtOrBelow;
    assert forall q | q in w'.live :: q in w.live && q != p && w'.live[q] == w.live[q];
  }

  /** The location of an unclean writer is nobody else's. */
  lemma NotAtRows(w: World, p: Path)
    requires Isolated(w) && p in w.live && !CleanEnd(w, p)
    ensures w.live[p].location != ""
    ensures forall q | q in w.files :: w.files[q].location != w.live[p].location
    ensures forall q | q in w.live && q != p :: w.live[q].location != w.live[p].location
  {
  }

  lemma EndedFrame(w: World, w': World, p: Path)
    requires p in w.live && Ended(w, w', p)
    ensures forall q | q in w'.files :: q in w.files && w'.files[q] == w.files[q]
    ensures forall n | n in w.objects && (forall q | q in w.files :: w.files[q].location != n.location) ::
      n in w'.objects
  {
    hide AtOrBelow;
  }

  /** Exactly a clean end leaves nothing behind, whether the writer is cancelled or dropped. */
  lemma EndExactly(w: World, w': World, p: Path)
    requires Isolated(w) && NoLeak(w) && p in w.live && Ended(w, w', p)
    ensures NoLeak(w') <==> CleanEnd(w, p)
  {
    hide Isolated, CleanEnd, Ended;
    if CleanEnd(w, p) {
      CleanKeeps(w, w', p);
    } else {
      var n := UncleanLoses(w, w', p);
      NoLeakIsNoneLost(w');
    }
  }

  /* ---------- all calls ---------- */

  predicate EndsWriter(op: Op) {
    op.Cancel? || op.Abandon?
  }

  function NewLocation(c: Call): Location {
    if NeedsLocation(c.op) then c.location else ""
  }

  lemma StepCareful(w: World, c: Call)
    requires Good(w) && LegalCall(w, c)
    ensures if EndsWriter(c.op) then c.op.path in w.live && Ended(w, Step(w, c.op, c.location), c.op.path)
            else Careful(w, Step(w, c.op, c.location), NewLocation(c))
  {
    hide Good, View, LegalCall, Careful, Ended, Step, NewLocation;
    match c.op
    case Put(_, _) => FileCallCareful(w, c);
    case Delete(_) => FileCallCareful(w, c);
    case Move(_, _) => FileCallCareful(w, c);
    case Open(_, _) => WriterCallCareful(w, c);
    case Extend(_, _) => WriterCallCareful(w, c);
    case Commit(_) => WriterCallCareful(w, c);
    case Cancel(_) => EndingCall(w, c);
    case Abandon(_) => EndingCall(w, c);
  }

  lemma FileCallCareful(w: World, c: Call)
    requires Good(w) && LegalCall(w, c) && (c.op.Put? || c.op.Delete? || c.op.Move?)
    ensures Careful(w, Step(w, c.op, c.location), NewLocation(c))
  {
    LegalPlaces(w, c.op);
    LegalLocation(w, c);
    GoodIsolated(w);
    StepIs(w, c);
    hide *;
    match c.op
    case Put(p, bytes) => PutCareful(w, p, bytes, c.location);
    case Delete(p) => DeleteCareful(w, p);
    case Move(p, target) => MoveCareful(w, p, target);
  }

  lemma WriterCallCareful(w: World, c: Call)
    requires Good(w) && LegalCall(w, c) && (c.op.Open? || c.op.Extend? || c.op.Commit?)
    ensures Careful(w, Step(w, c.op, c.location), NewLocation(c))
  {
    LegalPlaces(w, c.op);
    LegalLocation(w, c);
    GoodIsolated(w);
    StepIs(w, c);
    hide *;
    match c.op
    case Open(p, append) => OpenCareful(w, p, append, c.location);
    case Extend(p, bytes) => ExtendCareful(w, p, bytes);
    case Commit(p) => CommitCareful(w, p);
  }

  lemma EndingCall(w: World, c: Call)
    requires Good(w) && LegalCall(w, c) && EndsWriter(c.op)
    ensures c.op.path in w.live && Ended(w, Step(w, c.op, c.location), c.op.path)
  {
    LegalPlaces(w, c.op);
    hide Good, LegalCall, Ended, Step;
    StepIs(w, c);
  }

  lemma LegalLocation(w: World, c: Call)
    requires LegalCall(w, c)
    ensures NeedsLocation(c.op) ==> Fresh(w, c.location)
    ensures c.op.Put? && |c.op.bytes| > MAX_INLINE_SIZE ==> Fresh(w, c.location)
    ensures c.op.Open? ==> Fresh(w, c.location)
  {
  }

  lemma StepIs(w: World, c: Call)
    ensures var w' := Step(w, c.op, c.location);
      match c.op
      case Put(p, bytes) =>
        && w' == PutFile(w, p, bytes, c.location)
        && NewLocation(c) == if |bytes| > MAX_INLINE_SIZE then c.location else ""
      case Delete(p) => w' == DeletePath(w, p) && NewLocation(c) == ""
      case Move(p, target) => w' == MoveFile(w, p, target) && NewLocation(c) == ""
      case Open(p, append) => w' == OpenWriter(w, p, append, c.location) && NewLocation(c) == c.location
      case Extend(p, bytes) => (p in w.live ==> w' == WriteSegment(w, p, bytes)) && NewLocation(c) == ""
      case Commit(p) => (p in w.live ==> w' == CommitWriter(w, p)) && NewLocation(c) == ""
      case Cancel(p) => p in w.live ==> Ended(w, w', p)
      case Abandon(p) => p in w.live ==> Ended(w, w', p)
  {
    DeletePathLives(w, c.op.path);
    hide PutFile, DeletePath, MoveFile, OpenWriter, WriteSegment, CommitWriter;
  }

  lemma GoodIsolated(w: World)
    requires Good(w)
    ensures Isolated(w)
  {
  }

  lemma LegalPlaces(w: World, op: Op)
    requires Good(w) && Legal(View(w), op)
    ensures op.Put? || op.Open? ==> op.path !in w.live
    ensures op.Move? && op.path in w.files ==> !AtOrBelow(op.target, op.path)
    ensures op.Extend? || op.Commit? || op.Cancel? || op.Abandon? ==>
      op.path in w.live && w.live[op.path].location != ""
  {
    hide Tree, WriterIntact, AtOrBelow, RowNode, Resumable, Joined, ContentIntact;
  }

  /** Of all supported calls exactly the unclean end of a writer leaks. */
  lemma LeakExactly(w: World, c: Call)
    requires Good(w) && NoLeak(w) && LegalCall(w, c)
    ensures NoLeak(Step(w, c.op, c.location)) <==> (EndsWriter(c.op) ==> CleanEnd(w, c.op.path))
  {
    StepCareful(w, c);
    GoodIsolated(w);
    hide Good, Isolated, LegalCall, Step, CleanEnd, Ended, Referenced;
    if EndsWriter(c.op) { EndExactly(w, Step(w, c.op, c.location), c.op.path); }
  }

  /** What is lost stays lost and is never deleted. */
  lemma LostForever(w: World, c: Call, n: ObjectName)
    requires Good(w) && LegalCall(w, c) && Lost(w, n)
    ensures Lost(Step(w, c.op, c.location), n)
  {
    var w' := Step(w, c.op, c.location);
    StepCareful(w, c);
    GoodIsolated(w);
    hide Good, Isolated, Step, Ended, Referenced, View, Legal;
    if EndsWriter(c.op) { EndForgetful(w, w', c.op.path); }
    assert NeedsLocation(c.op) ==> n.location != c.location;
    EmptyNotReferenced(w');
  }

  lemma {:induction false} LostForeverRun(w: World, calls: seq<Call>, n: ObjectName)
    requires Good(w) && LegalRun(w, calls) && Lost(w, n)
    ensures Lost(Run(w, calls), n)
    decreases |calls|
  {
    hide Good, Step, LegalCall, Lost;
    if calls != [] {
      StepRefines(w, calls[0]);
      LostForever(w, calls[0], n);
      LostForeverRun(Step(w, calls[0].op, calls[0].location), calls[1..], n);
    }
  }

  /** Every writer that is cancelled or dropped ends cleanly. */
  predicate CleanRun(w: World, calls: seq<Call>)
    decreases |calls|
  {
    calls == [] ||
    (var op := calls[0].op;
     && (EndsWriter(op) && op.path in w.live ==> CleanEnd(w, op.path))
     && CleanRun(Step(w, op, calls[0].location), calls[1..]))
  }

  /** Over a whole run: nothing is left behind exactly if every writer that does not commit ends
      cleanly. */
  lemma {:induction false} RunLeaksExactly(w: World, calls: seq<Call>)
    requires Good(w) && NoLeak(w) && LegalRun(w, calls)
    ensures NoLeak(Run(w, calls)) <==> CleanRun(w, calls)
    decreases |calls|
  {
    hide Good, Step, NoLeak, CleanEnd, LegalCall, Lost;
    if calls != [] {
      var c := calls[0];
      var w1 := Step(w, c.op, c.location);
      StepRefines(w, c);
      LeakExactly(w, c);
      EndsLive(w, c);
      if NoLeak(w1) {
        RunLeaksExactly(w1, calls[1..]);
      } else {
        NoLeakIsNoneLost(w1);
        var n :| n in w1.objects && Lost(w1, n);
        LostForeverRun(w1, calls[1..], n);
        LostIsLeak(Run(w1, calls[1..]), n);
      }
    }
  }

  lemma EndsLive(w: World, c: Call)
    requires Good(w) && LegalCall(w, c)
    ensures EndsWriter(c.op) ==> c.op.path in w.live
  {
    hide Good;
    LegalPlaces(w, c.op);
  }

  lemma LostIsLeak(w: World, n: ObjectName)
    requires Lost(w, n)
    ensures !NoLeak(w)
  {
  }
}
