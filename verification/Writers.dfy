/** The two layers of writers: one uploads segments, the other collects bytes into large ones. */
module Writers {
  import opened Paths
  import opened Storage
  import opened FileSystem
  import opened World
  import opened Refinement
  import opened Steps
  import opened Deletion
  import opened Safety
  import opened Damage
  import opened PlusDriver
  import opened Buffering
  import opened Sessions
  import opened Reading

  datatype Outcome = Done | ErrCancelled | ErrCommitted | ErrBackend

  class PlusWriter {
    const p: PlusDriver
    const fullPath: Path
    const location: Location
    var segments: seq<Segment>
    var cancelled: bool
    var committed: bool

    constructor (p: PlusDriver, fullPath: Path, location: Location, segments: seq<Segment>)
      ensures this.p == p && this.fullPath == fullPath && this.location == location && this.segments == segments
      ensures !cancelled && !committed
    {
      this.p, this.fullPath, this.location, this.segments := p, fullPath, location, segments;
      cancelled, committed := false, false;
    }

    /** The writer is one of the driver's open writers, and its segments are those recorded. */
    ghost predicate Attached()
      reads this, p
    {
      && !cancelled && !committed
      && fullPath in p.live && p.live[fullPath] == Writer(location, segments)
    }

    /** Records an uploaded segment; the row may be there although the driver is told otherwise. */
    method Record(s: Segment) returns (ok: bool)
      requires fullPath in p.live && s.location == location
      modifies this`segments, p`segments, p`live, p`fuse
      ensures segments == old(segments) + [s]
      ensures
        || (p.segments == old(p.segments)[SegmentKey(location, s.number) := s.size]
            && p.live == old(p.live)[fullPath := Writer(location, segments)])
        || (!ok && p.segments == old(p.segments) && p.live == old(p.live))
      ensures ok ==> p.live[fullPath] == Writer(location, segments)
      ensures old(p.fuse) < 0 ==> (ok <==> SegmentKey(location, s.number) !in old(p.segments)) && p.fuse < 0
    {
      ghost var table := p.segments;
      segments := segments + [s];
      ok := p.InsertSegment(s);
      if p.segments != table { p.live := p.live[fullPath := Writer(location, segments)]; }
    }

    /** Uploads one segment and records it. */
    method Write(buf: Bytes) returns (n: nat, ok: bool)
      requires Attached() && location != ""
      modifies this`segments, p`segments, p`live, p`fuse, p.swift
      ensures n == |buf| || (n == 0 && !ok && segments == old(segments))
      ensures TotalSize(segments) == old(TotalSize(segments)) + n
      ensures ok ==> n == |buf| && Attached()
      ensures old(Intact(p.W(), fullPath)) ==>
        && SegmentTried(old(p.W()), p.W(), fullPath, buf, ok)
        && Intact(p.W(), fullPath) && Unseen(old(p.W()), p.W())
      ensures old(Good(p.W())) ==>
        Good(p.W()) && (p.W() == WriteSegment(old(p.W()), fullPath, buf) || View(p.W()) == old(View(p.W())))
      ensures Safe(old(p.W()), p.W())
      ensures old(Intact(p.W(), fullPath) && p.Steady()) ==> ok && p.Steady()
    {
      hide Good, View, Safe, Unseen, Intact, SegmentTried, WriteSegment, Unrecorded, TotalSize;
      ghost var w := p.W();
      SafeItself(w);
      var s := Segment(location, 1, |buf|);
      if |segments| > 0 {
        s := s.(number := segments[|segments| - 1].number + 1);
      }
      if Intact(w, fullPath) { NextNumber(w, fullPath); }
      ok := p.swift.Write(SegmentName(s.location, s.number), buf);
      ghost var w1 := p.W();
      SegmentSafe(w, w1, fullPath, SegmentName(s.location, s.number), Blob(buf));
      if Intact(w, fullPath) { UnrecordedIs(w, w1, fullPath, buf); }
      n := 0;
      if ok {
        ok := Record(s);
        OneMore(old(segments), s);
        n := |buf|;
        SegmentSafe(w, p.W(), fullPath, SegmentName(s.location, s.number), Blob(buf));
        if Intact(w, fullPath) { SegmentIs(w, w1, p.W(), fullPath, buf, ok); }
      }
      SegmentOutcome(w, p.W(), fullPath, buf, ok);
    }

    method Size() returns (n: nat)
      ensures n == TotalSize(segments)
    {
      n := 0;
      for i := 0 to |segments|
        invariant n == TotalSize(segments[..i])
      {
        assert segments[..i + 1][..i] == segments[..i];
        n := n + segments[i].size;
      }
      assert segments[..|segments|] == segments;
    }

    /** Publishes the segments written so far as the content of the file. */
    method Commit() returns (r: Outcome)
      requires fullPath != []
      requires !cancelled && !committed ==> Attached() && location != ""
      modifies this`committed, p`files, p`live, p`fuse, p.swift
      ensures old(cancelled) ==> r == ErrCancelled
      ensures old(!cancelled && committed) ==> r == ErrCommitted
      ensures old(!cancelled && !committed) ==> r == Done || r == ErrBackend
      ensures old(cancelled || committed) ==> p.W() == old(p.W())
      ensures r == Done ==> old(Attached()) && committed && p.W() == CommitWriter(old(p.W()), fullPath)
      ensures r == Done ==> Does(old(p.W()), p.W(), FileSystem.Commit(fullPath))
      ensures r == Done ==> Heals(old(p.W()), p.W(), FileSystem.Commit(fullPath))
      ensures r != Done ==> committed == old(committed) && p.live == old(p.live)
      ensures r != Done ==> CommitStopped(old(p.W()), p.W(), fullPath)
      ensures old(Attached()) ==>
        var before, now := old(Answer(p.W(), fullPath)), Answer(p.W(), fullPath);
        now == before || now == Content(Pending(old(p.W()))[fullPath])
      ensures Safe(old(p.W()), p.W())
      ensures old(Attached() && Intact(p.W(), fullPath) && p.Steady()) ==> r == Done && p.Steady()
    {
      hide Good, View, Safe, Does, Heals, CommitWriter, CommitStopped, Committing, RowBegun, Answer, Pending;
      ghost var w := p.W();
      SafeItself(w);
      SameStopped(w, fullPath);
      if cancelled { return ErrCancelled; }
      if committed { return ErrCommitted; }
      var size := Size();
      assert Intact(w, fullPath) ==> Stored(w.objects, segments);
      var ok := p.swift.WriteSLO(ContentName(location), segments);
      ManifestCommitting(w, p.W(), fullPath);
      CommitSafe(w, p.W(), fullPath);
      CommittingAnswer(w, p.W(), fullPath);
      if !ok { return ErrBackend; }
      ghost var w1 := p.W();
      ok := p.WriteFileInfo(fullPath, Row(size, [], location));
      RowCommitting(w, w1, p.W(), fullPath, size);
      CommitSafe(w, p.W(), fullPath);
      CommittingAnswer(w, p.W(), fullPath);
      if !ok { return ErrBackend; }
      committed := true;
      ghost var w2 := p.W();
      p.live := p.live - {fullPath};
      DoneCommitting(w, w2, p.W(), fullPath);
      CommitSafe(w, p.W(), fullPath);
      CommittingAnswer(w, p.W(), fullPath);
      CommitIs(w, p.W(), fullPath);
      CommitDoes(w, p.W(), fullPath);
      return Done;
    }

    method Close() returns (r: Outcome)
      requires fullPath != []
      requires !cancelled && !committed ==> Attached() && location != ""
      modifies this`committed, p`files, p`live, p`fuse, p.swift
      ensures r == Done || r == ErrBackend
      ensures old(cancelled || committed) ==> r == Done && p.W() == old(p.W()) && committed == old(committed)
      ensures old(!cancelled && !committed) && r == Done ==>
        && committed && p.W() == CommitWriter(old(p.W()), fullPath)
        && Does(old(p.W()), p.W(), FileSystem.Commit(fullPath))
        && Heals(old(p.W()), p.W(), FileSystem.Commit(fullPath))
      ensures r != Done ==> committed == old(committed) && p.live == old(p.live)
      ensures r != Done ==> CommitStopped(old(p.W()), p.W(), fullPath)
      ensures old(Attached()) ==>
        var before, now := old(Answer(p.W(), fullPath)), Answer(p.W(), fullPath);
        now == before || now == Content(Pending(old(p.W()))[fullPath])
      ensures Safe(old(p.W()), p.W())
      ensures old(Attached() && Intact(p.W(), fullPath) && p.Steady()) ==> r == Done && p.Steady()
    {
      hide Safe, Does, Heals, CommitWriter, CommitStopped, Answer, Pending;
      SafeItself(p.W());
      if !committed && !cancelled {
        r := Commit();
      } else {
        r := Done;
      }
    }

    method Cancel() returns (r: Outcome)
      modifies this`segments, this`cancelled, p`files, p`live, p`fuse, p.swift
      ensures cancelled && segments == []
      ensures r == Done || r == ErrBackend
      ensures r == Done ==> p.W() == CancelWriter(old(p.W()), fullPath) && fullPath !in p.files
      ensures p.live == old(p.live) - {fullPath}
      ensures Deleting(old(p.W()), p.W().(live := old(p.live)), fullPath)
      ensures r == Done ==> Does(old(p.W()), p.W(), FileSystem.Cancel(fullPath))
      ensures old(p.Steady()) ==> r == Done && p.Steady()
    {
      hide Good, View, Legal, Apply, Does, Deleting;
      ghost var w := p.W();
      cancelled := true;
      var ok := p.Delete(fullPath);
      segments := [];
      ghost var w1 := p.W();
      p.live := p.live - {fullPath};
      SameLive(w, w1, p.W(), fullPath);
      if ok { CancelDoes(w, p.W(), fullPath); }
      r := if ok then Done else ErrBackend;
    }
  }

  /** Collects bytes in a buffer and passes them on in large pieces. An error is never forgotten. */
  class BufferedWriter {
    const fw: PlusWriter
    const size: nat
    var buffer: Bytes
    var err: bool

    constructor (fw: PlusWriter, size: nat)
      requires size > 0
      ensures this.fw == fw && this.size == size && buffer == [] && !err
    {
      this.fw, this.size, buffer, err := fw, size, [], false;
    }

    /** Ready for use: no error so far, and the writer below has not come to its end. */
    ghost predicate Ready()
      reads this, fw, fw.p
    {
      && size > 0 && |buffer| <= size
      && !err && fw.Attached() && fw.location != "" && fw.fullPath != []
    }

    ghost function W(): World
      reads fw.p, fw.p.swift
    {
      fw.p.W()
    }

    method Flush() returns (ok: bool)
      requires buffer != [] && !err ==> Ready()
      modifies this`buffer, this`err, fw`segments, fw.p`segments, fw.p`live, fw.p`fuse, fw.p.swift
      ensures ok <==> !err
      ensures ok ==> buffer == []
      ensures old(err) ==> err && buffer == old(buffer) && W() == old(W())
      ensures old(Ready()) && ok ==> Ready()
      ensures old(!err && buffer == []) ==> ok && W() == old(W()) && (old(fw.p.Steady()) ==> fw.p.Steady())
      ensures old(!err && buffer != [] && Intact(W(), fw.fullPath)) ==>
        SegmentTried(old(W()), W(), fw.fullPath, old(buffer), ok)
      ensures old(Intact(W(), fw.fullPath)) ==> Intact(W(), fw.fullPath) && Unseen(old(W()), W())
      ensures old(Good(W())) ==>
        Good(W()) && (ok || View(W()) == old(View(W())) || W() == WriteSegment(old(W()), fw.fullPath, old(buffer)))
      ensures Safe(old(W()), W())
      ensures |buffer| <= |old(buffer)|
      ensures TotalSize(fw.segments) + |buffer| == old(TotalSize(fw.segments) + |buffer|)
      ensures old(Intact(W(), fw.fullPath) && Ready() && fw.p.Steady()) ==> ok && fw.p.Steady()
    {
      hide Good, View, Safe, Unseen, Intact, SegmentTried, WriteSegment, TotalSize;
      SafeItself(W());
      UnseenItself(W());
      if err { return false; }
      if buffer == [] { return true; }
      var n;
      n, ok := fw.Write(buffer);
      if !ok {
        err := true;
        buffer := buffer[n..];
        return;
      }
      buffer := [];
    }

    /** Passes on one piece: the filled-up buffer, or all of a large rest if the buffer is empty. */
    method PassOn(rest: Bytes) returns (m: nat)
      requires Ready() && |rest| > size - |buffer|
      modifies this`buffer, this`err, fw`segments, fw.p`segments, fw.p`live, fw.p`fuse, fw.p.swift
      ensures m <= |rest|
      ensures TotalSize(fw.segments) + |buffer| == old(TotalSize(fw.segments) + |buffer|) + m
      ensures !err ==> Ready() && buffer == [] && m == if old(buffer) == [] then |rest| else size - |old(buffer)|
      ensures !err && old(Intact(W(), fw.fullPath)) ==>
        W() == WriteSegment(old(W()), fw.fullPath, old(buffer) + rest[..m])
      ensures old(Intact(W(), fw.fullPath)) ==> Intact(W(), fw.fullPath) && Unseen(old(W()), W())
      ensures old(Good(W())) ==> Good(W())
      ensures Safe(old(W()), W())
      ensures old(Intact(W(), fw.fullPath) && fw.p.Steady()) ==> !err && fw.p.Steady()
    {
      hide Good, View, WriteSegment, Unrecorded, Safe, Unseen, Intact, TotalSize;
      if buffer == [] {
        var ok;
        m, ok := fw.Write(rest);
        err := !ok;
        assert [] + rest[..|rest|] == rest;
      } else {
        m := size - |buffer|;
        buffer := buffer + rest[..m];
        var _ := Flush();
      }
    }

    /** The writer so far, after the call has started in w with the buffer before. */
    ghost predicate Progress(w: World, before: Bytes, data: Bytes, done: seq<Bytes>, rest: Bytes)
      reads this, fw, fw.p, fw.p.swift
    {
      && (!err ==> Ready())
      && Safe(w, W())
      && (Good(w) ==> Good(W()))
      && (Intact(w, fw.fullPath) ==> Intact(W(), fw.fullPath) && Unseen(w, W()))
      && (Intact(w, fw.fullPath) && !err ==> SoFar(w, W(), fw.fullPath, size, before, data, done, buffer, rest))
    }

    /** Takes over data, passing on whatever no longer fits. Also after an error n says how much of the data
        was taken over. */
    method Write(data: Bytes) returns (n: nat, ok: bool)
      requires !err ==> Ready()
      modifies this`buffer, this`err, fw`segments, fw.p`segments, fw.p`live, fw.p`fuse, fw.p.swift
      ensures ok <==> !err
      ensures n <= |data| && TotalSize(fw.segments) + |buffer| == old(TotalSize(fw.segments) + |buffer|) + n
      ensures old(err) ==> W() == old(W()) && n == 0
      ensures ok ==> n == |data| && Ready()
      ensures ok && old(Ready() && Intact(W(), fw.fullPath)) ==>
        var f := WriteThrough(size, old(buffer), data);
        buffer == f.buffer && W() == WritePieces(old(W()), fw.fullPath, f.pieces)
      ensures old(Intact(W(), fw.fullPath)) ==> Intact(W(), fw.fullPath) && Unseen(old(W()), W())
      ensures old(Good(W()) && !err) ==> Good(W()) && View(W()).nodes == old(View(W())).nodes
      ensures Safe(old(W()), W())
      ensures old(Intact(W(), fw.fullPath) && !err && fw.p.Steady()) ==> ok && fw.p.Steady()
    {
      hide Good, View, Safe, Unseen, Intact, WriteThrough, WriteSegment, WritePieces, SoFar, TotalSize;
      SafeItself(W());
      UnseenItself(W());
      n, ok := 0, false;
      if err { return; }
      ghost var w, before, done := W(), buffer, [];
      var rest := data;
      if Good(w) { GoodIntact(w, fw.fullPath); }
      NothingWritten(w, fw.fullPath, size, before, data);
      while |rest| > size - |buffer| && !err
        invariant Progress(w, before, data, done, rest)
        invariant n + |rest| == |data|
        invariant TotalSize(fw.segments) + |buffer| == old(TotalSize(fw.segments) + |buffer|) + n
        invariant old(Intact(W(), fw.fullPath) && fw.p.Steady()) ==> !err && fw.p.Steady()
        decreases if err then 0 else 1, |rest|, |buffer|
      {
        ghost var w1, buffer1 := W(), buffer;
        var m := PassOn(rest);
        SafeTransitive(w, w1, W());
        if Intact(w, fw.fullPath) {
          UnseenThrough(w, w1, W());
          if !err { PieceDone(w, w1, W(), fw.fullPath, size, before, data, done, buffer1, rest); }
        }
        done := done + [buffer1 + rest[..m]];
        n := n + m;
        rest := rest[m..];
      }
      if Good(w) { UnseenNodes(w, W()); }
      if err { return; }
      if Intact(w, fw.fullPath) { AllDone(w, W(), fw.fullPath, size, before, data, done, buffer, rest); }
      buffer := buffer + rest;
      n := n + |rest|;
      ok := true;
    }

    method Size() returns (n: nat)
      ensures n == TotalSize(fw.segments) + |buffer|
    {
      var m := fw.Size();
      n := m + |buffer|;
    }

    /** Nothing is waiting in a writer that has come to its end. */
    ghost predicate Valid()
      reads this, fw, fw.p
    {
      && fw.fullPath != []
      && (buffer != [] && !err ==> Ready())
      && (!err && !fw.cancelled && !fw.committed ==> Ready())
    }

    /** Ready, and what is in the buffer, if anything, can become the next segment. */
    ghost predicate Sound()
      reads this, fw, fw.p, fw.p.swift
    {
      Ready() && (buffer == [] || Intact(W(), fw.fullPath))
    }

    method Commit() returns (r: Outcome)
      requires Valid()
      modifies this`buffer, this`err, fw`segments, fw`committed
      modifies fw.p`files, fw.p`segments, fw.p`live, fw.p`fuse, fw.p.swift
      ensures Valid()
      ensures old(err) ==> r == ErrBackend && W() == old(W())
      ensures old(!err && fw.cancelled && buffer == []) ==> r == ErrCancelled && W() == old(W())
      ensures old(!err && !fw.cancelled && fw.committed && buffer == []) ==> r == ErrCommitted && W() == old(W())
      ensures old(err) || old(!fw.cancelled && !fw.committed) ==> r == Done || r == ErrBackend
      ensures r != Done ==> fw.committed == old(fw.committed)
      ensures r == Done ==> old(Ready()) && fw.committed && buffer == []
      ensures r == Done && old(Sound()) ==>
        var w := WriteRest(old(W()), fw.fullPath, old(buffer));
        W() == CommitWriter(w, fw.fullPath) && Heals(w, W(), FileSystem.Commit(fw.fullPath))
      ensures r != Done && !err && old(Sound()) ==>
        CommitStopped(WriteRest(old(W()), fw.fullPath, old(buffer)), W(), fw.fullPath)
      ensures r != Done && err && old(Good(W())) ==> Good(W())
      ensures Safe(old(W()), W())
      ensures old(Ready() && Intact(W(), fw.fullPath) && fw.p.Steady()) ==> r == Done && fw.p.Steady()
    {
      hide Good, View, Safe, Unseen, Intact, Does, Heals, CommitStopped, CommitWriter, WriteSegment;
      ghost var w := W();
      var ok := Flush();
      if !ok { return ErrBackend; }
      ghost var w1 := W();
      r := fw.Commit();
      SafeTransitive(w, w1, W());
    }

    method Close() returns (r: Outcome)
      requires Valid()
      modifies this`buffer, this`err, fw`segments, fw`committed
      modifies fw.p`files, fw.p`segments, fw.p`live, fw.p`fuse, fw.p.swift
      ensures Valid()
      ensures r == Done || r == ErrBackend
      ensures old(err) ==> r == ErrBackend && W() == old(W())
      ensures old(!err && buffer == [] && (fw.cancelled || fw.committed)) ==>
        r == Done && W() == old(W()) && fw.committed == old(fw.committed)
      ensures r == Done && old(!fw.cancelled && !fw.committed) ==> old(Ready()) && fw.committed && buffer == []
      ensures r == Done && old(!fw.cancelled && !fw.committed && Sound()) ==>
        var w := WriteRest(old(W()), fw.fullPath, old(buffer));
        W() == CommitWriter(w, fw.fullPath) && Heals(w, W(), FileSystem.Commit(fw.fullPath))
      ensures r != Done && !err && old(Sound()) ==>
        CommitStopped(WriteRest(old(W()), fw.fullPath, old(buffer)), W(), fw.fullPath)
      ensures r != Done && err && old(Good(W())) ==> Good(W())
      ensures Safe(old(W()), W())
      ensures old(Ready() && Intact(W(), fw.fullPath) && fw.p.Steady()) ==> r == Done && fw.p.Steady()
    {
      hide Good, View, Safe, Unseen, Intact, Does, Heals, CommitStopped, CommitWriter, WriteSegment;
      ghost var w := W();
      var ok := Flush();
      if !ok { return ErrBackend; }
      ghost var w1 := W();
      r := fw.Close();
      SafeTransitive(w, w1, W());
    }

    /** Cancelling uploads what is left in the buffer, too, and does nothing after an error. Otherwise it
        deletes the path, also when the writer has committed or was cancelled before. */
    method Cancel() returns (r: Outcome)
      requires Valid()
      modifies this`buffer, this`err, fw`segments, fw`cancelled
      modifies fw.p`files, fw.p`segments, fw.p`live, fw.p`fuse, fw.p.swift
      ensures Valid()
      ensures old(err) ==> r == ErrBackend && W() == old(W()) && fw.cancelled == old(fw.cancelled)
      ensures r == Done || r == ErrBackend
      ensures r == Done ==> fw.cancelled && buffer == [] && fw.fullPath !in fw.p.files
      ensures old(!err && buffer == []) ==>
        && fw.cancelled && (r == Done ==> W() == CancelWriter(old(W()), fw.fullPath))
        && W().live == old(W().live) - {fw.fullPath}
        && Deleting(old(W()), W().(live := old(W().live)), fw.fullPath)
      ensures old(!err && buffer == [] && fw.p.Steady()) ==> r == Done && fw.p.Steady()
      ensures r == Done && old(Sound()) ==>
        W() == CancelWriter(WriteRest(old(W()), fw.fullPath, old(buffer)), fw.fullPath)
      ensures r != Done && err ==> Safe(old(W()), W()) && (old(Good(W())) ==> Good(W()))
      ensures !err && old(Sound()) ==>
        var w := WriteRest(old(W()), fw.fullPath, old(buffer));
        W().live == w.live - {fw.fullPath} && Deleting(w, W().(live := w.live), fw.fullPath)
      ensures old(Ready() && Intact(W(), fw.fullPath) && fw.p.Steady()) ==> r == Done && fw.p.Steady()
    {
      hide View, Safe, Unseen, Intact, Does, Good, Deleting, CancelWriter, WriteSegment;
      var ok := Flush();
      if !ok { return ErrBackend; }
      r := fw.Cancel();
    }
  }

  /** Driver.Writer: a writer for the path, with a buffer of the chunk size in front of it. */
  method OpenBuffered(p: PlusDriver, fullPath: Path, append: bool, chunkSize: nat,
      random: Location) returns (w: BufferedWriter?)
    requires fullPath != [] && fullPath !in p.live && Fresh(p.W(), random) && chunkSize > 0
    modifies p`files, p`live, p`fuse, p.swift
    ensures w != null ==> fresh(w) && fresh(w.fw) && w.fw.p == p && w.fw.fullPath == fullPath && w.size == chunkSize
    ensures w != null ==> w.buffer == [] && w.Ready() && w.Valid()
    ensures w != null ==> p.W() == OpenWriter(old(p.W()), fullPath, append, random)
    ensures w != null ==> Does(old(p.W()), p.W(), Open(fullPath, append))
    ensures w == null ==> Safe(old(p.W()), p.W())
    ensures old(p.Steady()) ==> w != null && p.Steady()
  {
    hide Good, View, Safe, Does, OpenWriter, Fresh;
    var fw := NewPlusWriter(p, fullPath, append, random);
    if fw == null { return null; }
    w := new BufferedWriter(fw, chunkSize);
  }

  /** newPlusWriter: drops what was there, or resumes it when appending. */
  method NewPlusWriter(p: PlusDriver, fullPath: Path, append: bool, random: Location) returns (w: PlusWriter?)
    requires fullPath != [] && fullPath !in p.live && Fresh(p.W(), random)
    modifies p`files, p`live, p`fuse, p.swift
    ensures w != null ==> fresh(w) && w.p == p && w.fullPath == fullPath && w.Attached() && w.location != ""
    ensures w != null ==> p.W() == OpenWriter(old(p.W()), fullPath, append, random)
    ensures w != null ==> Does(old(p.W()), p.W(), Open(fullPath, append))
    ensures w == null ==> Safe(old(p.W()), p.W())
    ensures old(p.Steady()) ==> w != null && p.Steady()
  {
    assert random != "";
    hide Good, View, Legal, Apply, Safe, Deleting, Fresh;
    ghost var w0 := p.W();
    var present := fullPath in p.files;
    var location := if present then p.files[fullPath].location else "";
    if present && !append {
      var ok := p.DeleteDownwards(fullPath, p.files[fullPath]);
      DeletingIsSafe(w0, p.W(), fullPath);
      if !ok { return null; }
      present := false;
    }
    ghost var w1 := p.W();
    if !present || location == "" { location := random; }
    var segments: seq<Segment> := [];
    if present && append { segments := p.ReadSegmentInfo(location); }
    w := new PlusWriter(p, fullPath, location, segments);
    p.live := p.live[fullPath := Writer(location, segments)];
    OpenIs(w0, w1, fullPath, append, random, location, segments);
    OpenDoes(w0, p.W(), fullPath, append, random);
  }

  lemma OpenIs(w: World, w1: World, p: Path, append: bool, random: Location, location: Location, segments: seq<Segment>)
    requires w1 == if p in w.files && !append then DeletePath(w, p) else w
    requires location == if p in w.files && append && LocationAt(w, p) != "" then LocationAt(w, p) else random
    requires segments == if p in w.files && append then SegmentRows(w.segments, location) else []
    ensures w1.(live := w1.live[p := Writer(location, segments)]) == OpenWriter(w, p, append, random)
  {
  }

  /** Whatever was done of uploading an object to the writer's location and recording it. */
  lemma SegmentSafe(w: World, w': World, p: Path, n: ObjectName, o: Object)
    requires p in w.live && n.location == w.live[p].location
    requires w' == World(w.files, w'.segments, w'.objects, w'.live)
    requires w'.objects == w.objects || w'.objects == w.objects[n := o]
    requires w'.live == w.live || (p in w'.live && w'.live == w.live[p := w'.live[p]]
                                   && w'.live[p].location == w.live[p].location)
    ensures Safe(w, w')
  {
    if Isolated(w) && NoLeak(w) {
      hide Isolated;
      forall m | m in w'.objects ensures Referenced(w', m.location) {
        if m in w.objects {
          assert Referenced(w, m.location);
          if q :| q in w.live && w.live[q].location == m.location { assert w'.live[q].location == m.location; }
        } else {
          assert w'.live[p].location == m.location;
        }
      }
    }
  }

  /** The upload of the next segment, whether it came through or not. */
  lemma UnrecordedIs(w: World, w1: World, p: Path, buf: Bytes)
    requires p in w.live && w1 == w.(objects := w1.objects)
    requires
      var n := SegmentName(w.live[p].location, |w.live[p].segments| + 1);
      w1.objects == w.objects || w1.objects == w.objects[n := Blob(buf)]
    ensures SegmentTried(w, w1, p, buf, false)
  {
  }

  lemma SegmentIs(w: World, w1: World, w2: World, p: Path, buf: Bytes, ok: bool)
    requires p in w.live
    requires
      var Writer(location, segments) := w.live[p];
      var s := Segment(location, |segments| + 1, |buf|);
      && w1 == w.(objects := w.objects[SegmentName(location, s.number) := Blob(buf)])
      && ((!ok && w2 == w1) || w2 == w1.(segments := w.segments[SegmentKey(location, s.number) := s.size],
                                         live := w.live[p := Writer(location, segments + [s])]))
    ensures SegmentTried(w, w2, p, buf, ok)
  {
  }

  lemma SegmentOutcome(w: World, w': World, p: Path, buf: Bytes, ok: bool)
    requires p in w.live && (Intact(w, p) ==> SegmentTried(w, w', p, buf, ok))
    ensures Intact(w, p) ==> Intact(w', p) && Unseen(w, w')
    ensures Good(w) ==> Good(w') && (w' == WriteSegment(w, p, buf) || View(w') == View(w))
  {
    hide Good, Intact, SegmentTried, Unseen, View, WriteSegment;
    if Intact(w, p) { SegmentKeeps(w, w', p, buf, ok); }
    if Good(w) {
      GoodIntact(w, p);
      SegmentGood(w, w', p, buf, ok);
    }
  }

  lemma OneMore(segments: seq<Segment>, s: Segment)
    ensures TotalSize(segments + [s]) == TotalSize(segments) + s.size
  {
    assert (segments + [s])[..|segments|] == segments;
  }

  lemma NextNumber(w: World, p: Path)
    requires Intact(w, p)
    ensures var segments := w.live[p].segments;
      && (segments != [] ==> segments[|segments| - 1].number + 1 == |segments| + 1)
      && SegmentKey(w.live[p].location, |segments| + 1) !in w.segments
  {
    SegmentRowsExact(w.segments, w.live[p].location, w.live[p].segments);
  }

  lemma SafeItself(w: World)
    ensures Safe(w, w)
  {
  }

  lemma CommitIs(w: World, w': World, p: Path)
    requires p in w.live
    requires var Writer(location, segments) := w.live[p];
      && w'.segments == w.segments && w'.live == w.live - {p}
      && w'.objects == w.objects[ContentName(location) := Manifest(segments)]
      && w'.files == WriteRow(w.files, p, Row(TotalSize(segments), [], location))
    ensures w' == CommitWriter(w, p)
  {
  }

  ghost predicate UploadedManifest(w: World, w': World, p: Path)
    requires p in w.live
  {
    var Writer(location, segments) := w.live[p];
    Stored(w.objects, segments) && w'.objects == w.objects[ContentName(location) := Manifest(segments)]
  }

  /** Wherever a Commit stops: the manifest may be there already, and so may the row. */
  ghost predicate Committing(w: World, w': World, p: Path)
    requires p in w.live
  {
    var Writer(location, segments) := w.live[p];
    var written := p in w'.files && w'.files[p] == Row(TotalSize(segments), [], location);
    && w'.segments == w.segments
    && (w'.objects == w.objects || UploadedManifest(w, w', p))
    && (w'.files == w.files || UploadedManifest(w, w', p))
    && (w'.live == w.live || (w'.live == w.live - {p} && written))
    && (w'.files == w.files || (OthersKept(w.files, w'.files, p) && written && !w'.files[p].IsDir()))
  }

  /** There is no damage but at p, and the writer is as it was, so that the commit can be repeated. */
  ghost predicate CommitStopped(w: World, w': World, p: Path) {
    && w'.live == w.live
    && (p in w.live && GoodExcept(w, p) ==> GoodExcept(w', p) && Healed(w', p) == Healed(w, p))
  }

  lemma SameStopped(w: World, p: Path)
    ensures CommitStopped(w, w, p)
  {
  }

  lemma ManifestCommitting(w: World, w': World, p: Path)
    requires p in w.live && w' == w.(objects := w'.objects)
    requires w'.objects == w.objects || UploadedManifest(w, w', p)
    ensures Committing(w, w', p)
  {
  }

  lemma RowCommitting(w: World, w1: World, w2: World, p: Path, size: nat)
    requires p in w.live && Committing(w, w1, p) && w1.live == w.live && w1.files == w.files && p != []
    requires UploadedManifest(w, w1, p) && size == TotalSize(w.live[p].segments)
    requires w2 == w1.(files := w2.files) && RowBegun(w1.files, w2.files, p, Row(size, [], w.live[p].location))
    ensures Committing(w, w2, p)
  {
    hide RowBegun, OthersKept, TotalSize, Stored;
    RowBegunKept(w1.files, w2.files, p, Row(size, [], w.live[p].location));
  }

  lemma DoneCommitting(w: World, w1: World, w2: World, p: Path)
    requires p in w.live && Committing(w, w1, p) && w1.live == w.live
    requires p in w1.files && w1.files[p] == Row(TotalSize(w.live[p].segments), [], w.live[p].location)
    requires w2 == w1.(live := w1.live - {p})
    ensures Committing(w, w2, p)
  {
    hide OthersKept, TotalSize, Stored;
  }

  lemma CommittingAnswer(w: World, w': World, p: Path)
    requires p in w.live && w.live[p].location != "" && Committing(w, w', p)
    ensures Answer(w', p) == Answer(w, p) || Answer(w', p) == Content(Pending(w)[p])
  {
    hide OthersKept, Answer, TotalSize, Stored;
    CommitNeverTorn(w, w', p);
  }

  lemma CommittingIsolated(w: World, w': World, p: Path)
    requires Isolated(w) && p in w.live && Committing(w, w', p)
    ensures Isolated(w')
  {
    hide AtOrBelow;
  }

  lemma CommittingNoLeak(w: World, w': World, p: Path)
    requires Isolated(w) && NoLeak(w) && p in w.live && Committing(w, w', p)
    ensures NoLeak(w')
  {
    forall n | n in w'.objects ensures Referenced(w', n.location) {
      if n.location == w.live[p].location {
        if p in w'.live { assert w'.live[p].location == n.location; }
        else { assert w'.files[p].location == n.location; }
      } else {
        assert Referenced(w, n.location);
        if q :| q in w.files && w.files[q].location == n.location {
          assert q != p;
          assert q in w'.files && w'.files[q] == w.files[q];
        } else {
          var q :| q in w.live && w.live[q].location == n.location;
          assert q in w'.live && w'.live[q].location == n.location;
        }
      }
    }
  }

  lemma CommitSafe(w: World, w': World, p: Path)
    requires p in w.live && Committing(w, w', p)
    ensures Safe(w, w')
    ensures w'.live == w.live ==> CommitStopped(w, w', p)
  {
    hide Isolated, NoLeak, Committing, Healed, Good, CanHoldRow;
    if Isolated(w) {
      CommittingIsolated(w, w', p);
      if NoLeak(w) { CommittingNoLeak(w, w', p); }
    }
    if w'.live == w.live && GoodExcept(w, p) { CommittingDamage(w, w', p); }
  }

  lemma CommittingDamage(w: World, w': World, p: Path)
    requires p in w.live && w'.live == w.live && Committing(w, w', p) && GoodExcept(w, p) && Isolated(w')
    ensures GoodExcept(w', p) && Healed(w', p) == Healed(w, p)
  {
    CommittingCanHold(w, w', p);
    CommittingHealed(w, w', p);
    hide CanHoldRow, Isolated, Good, Healed, Committing;
  }

  lemma CommittingCanHold(w: World, w': World, p: Path)
    requires p in w.live && Committing(w, w', p) && CanHoldRow(w.files, p)
    ensures CanHoldRow(w'.files, p)
  {
  }

  lemma CommittingHealed(w: World, w': World, p: Path)
    requires p in w.live && w'.live == w.live && Committing(w, w', p) && CanHoldRow(w.files, p)
    ensures Healed(w', p) == Healed(w, p)
  {
    if w'.files != w.files { StoppedFiles(w.files, w'.files, p); }
    hide AddDirs, OthersKept, CanHoldRow;
    assert Healed(w', p).objects == Healed(w, p).objects;
  }

  lemma CommitDoes(w: World, w': World, p: Path)
    requires p in w.live && w' == CommitWriter(w, p)
    ensures Does(w, w', FileSystem.Commit(p)) && Heals(w, w', FileSystem.Commit(p))
  {
    hide Good, GoodExcept, Legal, View, CommitWriter, Apply;
    if Good(w) && Legal(View(w), FileSystem.Commit(p)) { CommitRefines(w, p); }
    if GoodExcept(w, p) { CommitHeals(w, p); }
  }

  lemma UnseenThrough(w: World, w1: World, w2: World)
    requires Unseen(w, w1) && Unseen(w1, w2) && Safe(w, w1)
    ensures Unseen(w, w2)
  {
    hide Isolated, NoLeak, Unseen;
    UnseenTwice(w, w1, w2);
  }

  /** The deletion does not touch writers. */
  lemma SameLive(w: World, w1: World, w2: World, p: Path)
    requires Deleting(w, w1, p) && w2 == w1.(live := w2.live)
    ensures w1.live == w.live && w2.(live := w.live) == w1
  {
  }

  lemma CancelDoes(w: World, w': World, p: Path)
    requires w' == CancelWriter(w, p)
    ensures Does(w, w', FileSystem.Cancel(p))
  {
    hide Legal, View, Isolated, RowIntact, WriterIntact, CancelWriter;
    if Good(w) && Legal(View(w), FileSystem.Cancel(p)) { CancelRefines(w, p); }
  }

  lemma OpenDoes(w: World, w': World, p: Path, append: bool, location: Location)
    requires w' == OpenWriter(w, p, append, location)
    requires Fresh(w, location)
    ensures Does(w, w', Open(p, append))
  {
    hide Legal, View, Isolated, RowIntact, WriterIntact, OpenWriter, Fresh;
    if Good(w) && Legal(View(w), Open(p, append)) { OpenRefines(w, p, append, location); }
  }
}
