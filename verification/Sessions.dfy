/** Whole sessions of a buffered writer: from the bytes a client writes to the bytes readers see. */
module Sessions {
  import opened Paths
  import opened Storage
  import opened FileSystem
  import opened World
  import opened Refinement
  import opened Steps
  import opened Buffering

  /** The writer of p uploads the pieces, one segment each. */
  function WritePieces(w: World, p: Path, pieces: seq<Bytes>): (w': World)
    requires p in w.live
    ensures p in w'.live
    decreases |pieces|
  {
    if pieces == [] then w else WritePieces(WriteSegment(w, p, pieces[0]), p, pieces[1..])
  }

  /** The last piece of a session, which may be missing. */
  function WriteRest(w: World, p: Path, buffer: Bytes): World
    requires p in w.live
  {
    if buffer == [] then w else WriteSegment(w, p, buffer)
  }

  lemma {:induction false} WritePiecesAppend(w: World, p: Path, a: seq<Bytes>, piece: Bytes)
    requires p in w.live
    ensures WritePieces(w, p, a + [piece]) == WriteSegment(WritePieces(w, p, a), p, piece)
    decreases |a|
  {
    hide WriteSegment;
    if a == [] {
      assert [piece][1..] == [];
      assert WritePieces(w, p, a + [piece]) == WritePieces(WriteSegment(w, p, piece), p, []);
    } else {
      assert (a + [piece])[1..] == a[1..] + [piece];
      WritePiecesAppend(WriteSegment(w, p, a[0]), p, a[1..], piece);
    }
  }

  /** The pieces are collected in order, and nobody but the writer notices. */
  lemma {:induction false} PiecesCollected(w: World, p: Path, pieces: seq<Bytes>)
    requires Good(w) && p in w.live
    ensures var w' := WritePieces(w, p, pieces);
      && Good(w')
      && View(w').nodes == View(w).nodes
      && View(w').pending == View(w).pending[p := View(w).pending[p] + Concat(pieces)]
    decreases |pieces|
  {
    hide Good, View, WriteSegment;
    PendingOf(w, p);
    if pieces == [] {
      NothingAdded(View(w).pending, p);
    } else {
      var w1 := WriteSegment(w, p, pieces[0]);
      PieceCollected(w, p, pieces[0]);
      PiecesCollected(w1, p, pieces[1..]);
      AddedTwice(View(w).pending, p, pieces[0], Concat(pieces[1..]));
    }
  }

  lemma PendingOf(w: World, p: Path)
    requires p in w.live
    ensures p in View(w).pending
  {
  }

  lemma NothingAdded(pending: map<Path, Bytes>, p: Path)
    requires p in pending
    ensures pending[p := pending[p] + []] == pending
  {
    assert pending[p] + [] == pending[p];
  }

  lemma AddedTwice(pending: map<Path, Bytes>, p: Path, a: Bytes, b: Bytes)
    requires p in pending
    ensures pending[p := pending[p] + a][p := pending[p] + a + b] == pending[p := pending[p] + (a + b)]
  {
    assert pending[p] + a + b == pending[p] + (a + b);
  }

  lemma PieceCollected(w: World, p: Path, piece: Bytes)
    requires Good(w) && p in w.live
    ensures var w' := WriteSegment(w, p, piece);
      && Good(w') && p in w'.live && p in View(w).pending
      && View(w').nodes == View(w).nodes
      && View(w').pending == View(w).pending[p := View(w).pending[p] + piece]
  {
    hide Good, Nodes, Resume, Pending, WriteSegment;
    ExtendRefines(w, p, piece);
    ExtendFrame(w, p, piece);
  }

  /** A session that writes, in any portions, and then commits or closes: the file holds what the
      writer had resumed followed by all bytes written. Until the commit nothing was visible. */
  lemma SessionPublishes(w: World, p: Path, size: nat, writes: seq<Bytes>)
    requires Good(w) && p in w.live && CanHold(View(w), p) && size > 0
    ensures var w1 := WritePieces(w, p, Final(WriteAllThrough(size, [], writes)));
      && Good(w1) && View(w1).nodes == View(w).nodes
      && Good(CommitWriter(w1, p))
      && View(CommitWriter(w1, p)).nodes
         == AddDirs(View(w).nodes[p := File(View(w).pending[p] + Concat(writes))], Parent(p), Directory)
  {
    hide Good, View, CommitWriter, WriteAllThrough, Final, WritePieces, CanHold, Apply, Legal;
    var pieces := Final(WriteAllThrough(size, [], writes));
    BufferConserves(size, [], writes);
    assert Concat(pieces) == Concat(writes);
    PiecesCollected(w, p, pieces);
    PendingOf(w, p);
    var w1 := WritePieces(w, p, pieces);
    SameHolds(View(w), View(w1), p);
    CommitPublishes(w1, p);
  }

  lemma CommitPublishes(w: World, p: Path)
    requires Good(w) && p in w.live && CanHold(View(w), p)
    ensures Good(CommitWriter(w, p)) && p in View(w).pending
    ensures View(CommitWriter(w, p)).nodes ==
        AddDirs(View(w).nodes[p := File(View(w).pending[p])], Parent(p), Directory)
  {
    hide Good, Nodes, Resume, Pending, CommitWriter, AddDirs;
    CommitRefines(w, p);
  }

  lemma SameHolds(a: Fs, b: Fs, p: Path)
    requires a.nodes == b.nodes && CanHold(a, p)
    ensures CanHold(b, p)
  {
  }

  /** Size() during a session: what was resumed plus what was written, flushed or not. */
  lemma SizeCounts(w: World, p: Path, size: nat, writes: seq<Bytes>)
    requires Good(w) && p in w.live && size > 0
    ensures var f := WriteAllThrough(size, [], writes);
      TotalSize(WritePieces(w, p, f.pieces).live[p].segments) + |f.buffer|
      == |View(w).pending[p]| + |Concat(writes)|
  {
    hide Tree, Isolated, RowIntact, Nodes, Resume;
    var f := WriteAllThrough(size, [], writes);
    BufferConserves(size, [], writes);
    PiecesCollected(w, p, f.pieces);
    PendingSize(WritePieces(w, p, f.pieces), p);
  }

  lemma PendingSize(w: World, p: Path)
    requires Good(w) && p in w.live
    ensures |View(w).pending[p]| == TotalSize(w.live[p].segments)
  {
    GoodWriter(w, p);
    JoinedLength(w.objects, w.live[p].segments);
  }

  /* ---------- one segment, whether it comes through or not ---------- */

  /** The writer of p is open and its segments are those recorded. */
  ghost predicate Intact(w: World, p: Path) {
    p in w.live && WriterIntact(w, p)
  }

  /** Uploaded and recorded, or else reported as failed: with or without the upload done. */
  ghost predicate SegmentTried(w: World, w': World, p: Path, bytes: Bytes, ok: bool)
    requires p in w.live
  {
    w' == WriteSegment(w, p, bytes) || (!ok && (w' == w || w' == Unrecorded(w, p, bytes)))
  }

  /** Readers see no difference at any path that was readable. */
  ghost predicate Unseen(w: World, w': World) {
    && w'.files == w.files
    && (Isolated(w) ==> forall q | q in w.files && RowIntact(w, q) ::
         RowIntact(w', q) && RowNode(w', w.files[q]) == RowNode(w, w.files[q]))
  }

  lemma ExtendUnseen(w: World, p: Path, bytes: Bytes, q: Path)
    requires Isolated(w) && p in w.live && WriterIntact(w, p) && q in w.files && RowIntact(w, q)
    ensures var w' := WriteSegment(w, p, bytes);
      w'.files == w.files && RowIntact(w', q) && RowNode(w', w.files[q]) == RowNode(w, w.files[q])
  {
    var w' := WriteSegment(w, p, bytes);
    ExtendFrame(w, p, bytes);
    if q == p && LocationAt(w, p) != "" {
      assert LocationAt(w, p) == w.live[p].location;
      ExtendOwnRow(w, p, bytes);
    } else {
      hide RowIntact, WriterIntact, WriteSegment, Agree, RowNode;
      if LocationAt(w, q) != "" { ExtendAgree(w, p, bytes, LocationAt(w, q)); }
      RowFrame(w, q, w', q);
    }
  }

  lemma UnrecordedUnseen(w: World, p: Path, bytes: Bytes, q: Path)
    requires Isolated(w) && p in w.live && WriterIntact(w, p) && q in w.files && RowIntact(w, q)
    ensures var w' := Unrecorded(w, p, bytes);
      RowIntact(w', q) && RowNode(w', w.files[q]) == RowNode(w, w.files[q])
  {
    var w' := Unrecorded(w, p, bytes);
    if q == p && LocationAt(w, p) != "" {
      assert LocationAt(w, p) == w.live[p].location;
      hide RowIntact, WriterIntact, RowNode, Unrecorded;
      UnrecordedOwnRow(w, p, bytes);
    } else {
      hide RowIntact, WriterIntact, Agree, RowNode;
      if LocationAt(w, q) != "" { UnrecordedAgree(w, p, bytes, LocationAt(w, q)); }
      RowFrame(w, q, w', q);
    }
  }

  lemma UnrecordedIntact(w: World, p: Path, bytes: Bytes)
    requires Intact(w, p)
    ensures Intact(Unrecorded(w, p, bytes), p)
  {
    hide SegmentRows, Joined, Numbered, Stored;
    var Writer(location, segments) := w.live[p];
    SegmentBeyond(w.objects, segments, location, |segments| + 1, bytes);
  }

  lemma UnseenItself(w: World)
    ensures Unseen(w, w)
  {
  }

  lemma UnseenTwice(w: World, w1: World, w2: World)
    requires Unseen(w, w1) && Unseen(w1, w2) && (Isolated(w) ==> Isolated(w1))
    ensures Unseen(w, w2)
  {
    hide Isolated, RowIntact, RowNode;
  }

  lemma UnseenNodes(w: World, w': World)
    requires Good(w) && Unseen(w, w')
    ensures View(w').nodes == View(w).nodes
  {
    assert Isolated(w);
    hide Isolated, RowIntact, RowNode, Tree;
  }

  /** However the attempt ends, the writer can go on, and readers notice nothing. */
  lemma SegmentKeeps(w: World, w': World, p: Path, bytes: Bytes, ok: bool)
    requires Intact(w, p) && SegmentTried(w, w', p, bytes, ok)
    ensures Intact(w', p) && Unseen(w, w')
  {
    ExtendWriter(w, p, bytes);
    UnrecordedIntact(w, p, bytes);
    hide WriterIntact, Isolated, RowIntact, RowNode;
    ExtendFrame(w, p, bytes);
    hide WriteSegment;
    if Isolated(w) {
      forall q | q in w.files && RowIntact(w, q)
        ensures RowIntact(w', q) && RowNode(w', w.files[q]) == RowNode(w, w.files[q])
      {
        ExtendUnseen(w, p, bytes, q);
        UnrecordedUnseen(w, p, bytes, q);
      }
    }
  }

  lemma SegmentGood(w: World, w': World, p: Path, bytes: Bytes, ok: bool)
    requires Good(w) && p in w.live && SegmentTried(w, w', p, bytes, ok)
    ensures Good(w') && (w' == WriteSegment(w, p, bytes) || View(w') == View(w))
  {
    hide Good, View, WriteSegment, Unrecorded;
    ExtendGood(w, p, bytes);
    UnrecordedInvisible(w, p, bytes);
  }

  lemma GoodIntact(w: World, p: Path)
    requires Good(w) && p in w.live
    ensures Intact(w, p)
  {
    GoodWriter(w, p);
  }

  /* ---------- one buffered write, piece by piece ---------- */

  /** From w, the pieces in done have led to w1; buffer and rest are still to be passed on. */
  ghost predicate SoFar(w: World, w1: World, p: Path, size: nat, before: Bytes, data: Bytes,
                        done: seq<Bytes>, buffer: Bytes, rest: Bytes)
  {
    && p in w.live && size > 0 && |before| <= size && |buffer| <= size
    && w1 == WritePieces(w, p, done)
    && var f := WriteThrough(size, buffer, rest);
       WriteThrough(size, before, data) == Flushed(done + f.pieces, f.buffer)
  }

  lemma NothingWritten(w: World, p: Path, size: nat, before: Bytes, data: Bytes)
    requires p in w.live && size > 0 && |before| <= size
    ensures SoFar(w, w, p, size, before, data, [], before, data)
  {
    var f := WriteThrough(size, before, data);
    assert [] + f.pieces == f.pieces;
  }

  lemma PieceDone(w: World, w1: World, w2: World, p: Path, size: nat, before: Bytes, data: Bytes,
                  done: seq<Bytes>, buffer: Bytes, rest: Bytes)
    requires SoFar(w, w1, p, size, before, data, done, buffer, rest) && |rest| > size - |buffer|
    requires var m := if buffer == [] then |rest| else size - |buffer|;
      w2 == WriteSegment(w1, p, buffer + rest[..m])
    ensures var m := if buffer == [] then |rest| else size - |buffer|;
      SoFar(w, w2, p, size, before, data, done + [buffer + rest[..m]], [], rest[m..])
    ensures Good(w1) ==> View(w2).nodes == View(w1).nodes
  {
    hide WriteSegment, Good, View;
    var m := if buffer == [] then |rest| else size - |buffer|;
    var piece := buffer + rest[..m];
    WritePiecesAppend(w, p, done, piece);
    if Good(w1) { PieceCollected(w1, p, piece); }
    hide WritePieces;
    PieceNext(size, buffer, rest);
    var f := WriteThrough(size, [], rest[m..]);
    assert done + ([piece] + f.pieces) == done + [piece] + f.pieces;
  }

  lemma PieceNext(size: nat, buffer: Bytes, rest: Bytes)
    requires size > 0 && |buffer| <= size && |rest| > size - |buffer|
    ensures var m := if buffer == [] then |rest| else size - |buffer|;
      var f := WriteThrough(size, [], rest[m..]);
      WriteThrough(size, buffer, rest) == Flushed([buffer + rest[..m]] + f.pieces, f.buffer)
  {
    if buffer == [] {
      assert rest[..|rest|] == rest && [] + rest == rest;
      assert [rest] + [] == [rest];
    }
  }

  lemma AllDone(w: World, w1: World, p: Path, size: nat, before: Bytes, data: Bytes,
                done: seq<Bytes>, buffer: Bytes, rest: Bytes)
    requires SoFar(w, w1, p, size, before, data, done, buffer, rest) && |rest| <= size - |buffer|
    ensures WriteThrough(size, before, data) == Flushed(done, buffer + rest)
    ensures w1 == WritePieces(w, p, done)
  {
    assert done + [] == done;
  }
}
