/** What clients of the storage driver are meant to see: a tree of paths, the bytes of each file,
    the bytes collected by each open writer, and the bytes an append session would resume from. */
module FileSystem {
  import opened Paths
  import opened Storage

  datatype Node = Directory | File(bytes: Bytes)

  // pending: the bytes collected by the open writer of a path, not visible to readers yet.
  // resume:  for every file stored outside of the table, the bytes an append session starts with.
  datatype Fs = Fs(nodes: map<Path, Node>, pending: map<Path, Bytes>, resume: map<Path, Bytes>)

  // One call of the storage driver interface. Extend is the write of one segment by a writer;
  // Abandon is a writer that its client drops without calling Close, Commit or Cancel.
  datatype Op =
    | Put(path: Path, bytes: Bytes)
    | Delete(path: Path)
    | Move(path: Path, target: Path)
    | Open(path: Path, append: bool)
    | Extend(path: Path, bytes: Bytes)
    | Commit(path: Path)
    | Cancel(path: Path)
    | Abandon(path: Path)

  predicate IsFile(fs: Fs, p: Path) {
    p in fs.nodes && fs.nodes[p].File?
  }

  /** A file can be stored at p: no directory is there and nothing above it is a file. */
  predicate CanHold(fs: Fs, p: Path) {
    && p != []
    && (p in fs.nodes ==> fs.nodes[p].File?)
    && forall q | q in fs.nodes && AtOrBelow(q, p) && q != p :: fs.nodes[q].Directory?
  }

  predicate NoWriterIn(fs: Fs, top: Path) {
    forall q | q in fs.pending :: !AtOrBelow(top, q)
  }

  predicate NoOtherWriterIn(fs: Fs, top: Path) {
    forall q | q in fs.pending && q != top :: !AtOrBelow(top, q)
  }

  /** The uses of the interface that the driver supports. */
  predicate Legal(fs: Fs, op: Op) {
    match op
    case Put(p, _) => CanHold(fs, p) && p !in fs.pending
    case Delete(p) => p != [] && (p in fs.nodes ==> NoWriterIn(fs, p))
    case Move(p, target) =>
      p in fs.nodes ==>
        && fs.nodes[p].File?
        && p !in fs.pending
        && target != []
        && !AtOrBelow(target, p)
        && target !in fs.pending
        && (target in fs.nodes ==> NoWriterIn(fs, target))
        && forall q | q in fs.nodes && AtOrBelow(q, target) && q != target && q != p :: fs.nodes[q].Directory?
    case Open(p, append) =>
      && p != []
      && p !in fs.pending
      && (p in fs.nodes ==> if append then fs.nodes[p].File? else NoWriterIn(fs, p))
    case Extend(p, _) => p in fs.pending
    case Commit(p) => p in fs.pending && CanHold(fs, p)
    case Cancel(p) => p in fs.pending && (p in fs.nodes ==> NoOtherWriterIn(fs, p))
    case Abandon(p) => p in fs.pending
  }

  /** The old file at p moved to target, over whatever was there. */
  function Moved(fs: Fs, p: Path, target: Path): Fs
    requires p in fs.nodes
  {
    var nodes := RemoveTree(fs.nodes, target);
    var resume := RemoveTree(fs.resume, target);
    Fs(AddDirs((nodes - {p})[target := fs.nodes[p]], Parent'(target), Directory),
       fs.pending,
       if p in fs.resume then (resume - {p})[target := fs.resume[p]] else resume)
  }

  function Apply(fs: Fs, op: Op): Fs
  {
    match op
    case Put(p, bytes) =>
      Fs(AddDirs(fs.nodes[p := File(bytes)], Parent'(p), Directory),
         fs.pending,
         if |bytes| > MAX_INLINE_SIZE then fs.resume[p := []] else fs.resume - {p})
    case Delete(p) =>
      Fs(RemoveTree(fs.nodes, p), fs.pending, RemoveTree(fs.resume, p))
    case Move(p, target) =>
      if p in fs.nodes then Moved(fs, p, target) else fs
    case Open(p, append) =>
      if append then fs.(pending := fs.pending[p := if p in fs.resume then fs.resume[p] else []])
      else Fs(RemoveTree(fs.nodes, p), fs.pending[p := []], RemoveTree(fs.resume, p))
    case Extend(p, bytes) =>
      if p !in fs.pending then fs
      else fs.(pending := fs.pending[p := fs.pending[p] + bytes],
               resume := if p in fs.resume then fs.resume[p := fs.resume[p] + bytes] else fs.resume)
    case Commit(p) =>
      if p !in fs.pending then fs
      else Fs(AddDirs(fs.nodes[p := File(fs.pending[p])], Parent'(p), Directory),
              fs.pending - {p},
              fs.resume[p := fs.pending[p]])
    case Cancel(p) =>
      Fs(RemoveTree(fs.nodes, p), fs.pending - {p}, RemoveTree(fs.resume, p))
    case Abandon(p) =>
      fs.(pending := fs.pending - {p})
  }
}
