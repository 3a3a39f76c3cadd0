/** A client's upload, from opening the writer to committing it, through all layers. */
module Uploads {
  import opened Paths
  import opened Storage
  import opened FileSystem
  import opened World
  import opened Safety
  import opened PlusDriver
  import opened Buffering
  import opened Sessions
  import opened Writers

  lemma {:induction false} WritesAppend(size: nat, buffer: Bytes, writes: seq<Bytes>, data: Bytes)
    requires size > 0 && |buffer| <= size
    ensures |WriteAllThrough(size, buffer, writes).buffer| <= size
    ensures var f := WriteAllThrough(size, buffer, writes);
      var g := WriteThrough(size, f.buffer, data);
      WriteAllThrough(size, buffer, writes + [data]) == Flushed(f.pieces + g.pieces, g.buffer)
    decreases |writes|
  {
    hide WriteThrough;
    WritesSizes(size, buffer, writes);
    if writes == [] {
      assert [] + [data] == [data];
      WritesOne(size, buffer, data);
    } else {
      var first := WriteThrough(size, buffer, writes[0]);
      WriteThroughFits(size, buffer, writes[0]);
      assert (writes + [data])[1..] == writes[1..] + [data];
      WritesAppend(size, first.buffer, writes[1..], data);
      var rest := WriteAllThrough(size, first.buffer, writes[1..]);
      var g := WriteThrough(size, rest.buffer, data);
      assert first.pieces + (rest.pieces + g.pieces) == first.pieces + rest.pieces + g.pieces;
    }
  }

  lemma WritesOne(size: nat, buffer: Bytes, data: Bytes)
    requires size > 0 && |buffer| <= size
    ensures var g := WriteThrough(size, buffer, data);
      WriteAllThrough(size, buffer, [data]) == g && [] + g.pieces == g.pieces
  {
    hide WriteThrough;
    var g := WriteThrough(size, buffer, data);
    WriteThroughFits(size, buffer, data);
    assert [data][1..] == [];
    assert WriteAllThrough(size, g.buffer, []) == Flushed([], g.buffer);
    assert g.pieces + [] == g.pieces;
  }

  lemma {:induction false} PiecesConcat(w: World, p: Path, a: seq<Bytes>, b: seq<Bytes>)
    requires p in w.live
    ensures WritePieces(w, p, a + b) == WritePieces(WritePieces(w, p, a), p, b)
    decreases |a|
  {
    hide WriteSegment;
    if a == [] {
      assert a + b == b;
    } else {
      assert (a + b)[1..] == a[1..] + b;
      PiecesConcat(WriteSegment(w, p, a[0]), p, a[1..], b);
    }
  }

  /** After some of the writes of an upload that began in w. */
  ghost predicate Written(w: World, w': World, p: Path, size: nat, writes: seq<Bytes>, buffer: Bytes) {
    && p in w.live && size > 0
    && var f := WriteAllThrough(size, [], writes); w' == WritePieces(w, p, f.pieces) && buffer == f.buffer
  }

  lemma WrittenNone(w: World, p: Path, size: nat)
    requires p in w.live && size > 0
    ensures Written(w, w, p, size, [], [])
  {
  }

  lemma WrittenNext(w: World, w1: World, w2: World, p: Path, size: nat, writes: seq<Bytes>, buffer: Bytes, data: Bytes)
    requires Written(w, w1, p, size, writes, buffer) && |buffer| <= size
    requires w2 == WritePieces(w1, p, WriteThrough(size, buffer, data).pieces)
    ensures Written(w, w2, p, size, writes + [data], WriteThrough(size, buffer, data).buffer)
  {
    hide WritePieces, WriteAllThrough, WriteThrough;
    WritesAppend(size, [], writes, data);
    PiecesConcat(w, p, WriteAllThrough(size, [], writes).pieces, WriteThrough(size, buffer, data).pieces);
  }

  lemma WrittenAll(w: World, w1: World, p: Path, size: nat, writes: seq<Bytes>, buffer: Bytes)
    requires Written(w, w1, p, size, writes, buffer) && Good(w) && CanHold(View(w), p)
    ensures p in w1.live && p in View(w).pending
    ensures var w' := CommitWriter(WriteRest(w1, p, buffer), p);
      && Good(w')
      && View(w').nodes == AddDirs(View(w).nodes[p := File(View(w).pending[p] + Concat(writes))], Parent(p), Directory)
  {
    hide Good, View, CommitWriter, WriteAllThrough, CanHold, WriteSegment, WritePieces;
    PendingOf(w, p);
    SessionPublishes(w, p, size, writes);
    var f := WriteAllThrough(size, [], writes);
    if f.buffer != [] { WritePiecesAppend(w, p, f.pieces, f.buffer); }
  }

  /** Whatever portions a client writes, and whatever the chunk size: when all goes well, the file
      ends up with what the session had resumed followed by all the bytes written. */
  method Upload(d: PlusDriver, p: Path, append: bool, size: nat, random: Location,
      writes: seq<Bytes>) returns (ok: bool)
    requires size > 0 && p != [] && p !in d.live && Fresh(d.W(), random)
    requires Good(d.W()) && Legal(View(d.W()), Open(p, append)) && CanHold(Apply(View(d.W()), Open(p, append)), p)
    modifies d`files, d`segments, d`live, d`fuse, d.swift
    ensures ok ==> Good(d.W())
    ensures ok ==>
      var fs := Apply(View(old(d.W())), Open(p, append));
      && p in fs.pending
      && View(d.W()).nodes == AddDirs(fs.nodes[p := File(fs.pending[p] + Concat(writes))], Parent(p), Directory)
    ensures old(d.Steady()) ==> ok && d.Steady()
  {
    hide Good, View, Legal, Apply, Fresh, CanHold, OpenWriter, CommitWriter, Written, WriteRest, WritePieces,
        WriteThrough, Safe, Unseen, Intact, PlusWriter.Attached;
    var w := OpenBuffered(d, p, append, size, random);
    if w == null { return false; }
    Opened(old(d.W()), d.W(), p, append);
    ghost var w0 := d.W();
    ReadyIsLive(w);
    WrittenNone(w0, p, size);
    for i := 0 to |writes|
      invariant w.fw.p == d && w.fw.fullPath == p && w.size == size && fresh(w) && fresh(w.fw)
      invariant w.Ready() && Good(d.W())
      invariant Written(w0, d.W(), p, size, writes[..i], w.buffer)
      invariant old(d.Steady()) ==> d.Steady()
    {
      ghost var w1, buffer := d.W(), w.buffer;
      ReadyIsLive(w);
      GoodIntact(w1, p);
      var n;
      n, ok := w.Write(writes[i]);
      if !ok { return; }
      WrittenNext(w0, w1, d.W(), p, size, writes[..i], buffer, writes[i]);
      assert writes[..i] + [writes[i]] == writes[..i + 1];
    }
    assert writes[..|writes|] == writes;
    WrittenAll(w0, d.W(), p, size, writes, w.buffer);
    GoodIntact(d.W(), p);
    var r := w.Commit();
    ok := r == Done;
  }

  lemma ReadyIsLive(w: BufferedWriter)
    requires w.Ready()
    ensures w.fw.fullPath in w.W().live
  {
  }

  lemma Opened(w: World, w': World, p: Path, append: bool)
    requires Does(w, w', Open(p, append)) && Good(w) && Legal(View(w), Open(p, append))
    requires CanHold(Apply(View(w), Open(p, append)), p)
    ensures Good(w') && View(w') == Apply(View(w), Open(p, append)) && CanHold(View(w'), p)
  {
  }
}
