/** The object store as the driver uses it. Every call may fail; a failed call reports it, but it may
    have taken effect all the same, when only the reply was lost. */
module Swift {
  import opened Storage

  datatype Download = Body(bytes: Bytes) | NotFound | Failure

  /** An open-ended range request (sections 2.1 and 4.4 of RFC 7233): the bytes from offset on, and
      none at all when the range starts at or behind the end. */
  function FromOffset(bytes: Bytes, offset: nat): (r: Bytes)
    ensures |r| == if offset <= |bytes| then |bytes| - offset else 0
    ensures forall i | 0 <= i < |r| :: r[i] == bytes[offset + i]
  {
    if offset <= |bytes| then bytes[offset..] else []
  }

  class SwiftInterface {
    var objects: Bucket
    // The number of calls that succeed before one fails; negative when none will.
    var fuse: int

    constructor ()
      ensures objects == map[] && fuse < 0
    {
      objects := map[];
      fuse := -1;
    }

    /** ok: the reply says so; done: the call takes effect. */
    method Attempt() returns (ok: bool, done: bool)
      modifies `fuse
      ensures ok ==> done
      ensures old(fuse) < 0 ==> ok && fuse < 0
    {
      ok := fuse != 0;
      fuse := fuse - 1;
      var replyLost: bool := *;
      done := ok || replyLost;
    }

    method Reader(name: ObjectName, offset: nat) returns (r: Download)
      modifies `fuse
      ensures name !in objects ==> r == NotFound || r == Failure
      ensures name in objects && !Readable(objects, name) ==> r == Failure
      ensures Readable(objects, name) ==> r == Failure || r == Body(FromOffset(ObjectBytes(objects, name), offset))
      ensures old(fuse) < 0 ==> fuse < 0
      ensures old(fuse) < 0 ==> (name !in objects ==> r == NotFound) && (Readable(objects, name) ==> r.Body?)
    {
      var ok, _ := Attempt();
      if !ok { return Failure; }
      if name !in objects { return NotFound; }
      if !Readable(objects, name) { return Failure; }
      var bytes := ObjectBytes(objects, name);
      if offset > 0 {
        if offset >= |bytes| {
          // 416 Range Not Satisfiable is answered with an empty reader.
          return Body([]);
        }
        return Body(bytes[offset..]);
      }
      return Body(bytes);
    }

    method Write(name: ObjectName, data: Bytes) returns (ok: bool)
      modifies this
      ensures objects == old(objects)[name := Blob(data)] || (!ok && objects == old(objects))
      ensures old(fuse) < 0 ==> ok && fuse < 0
    {
      var done;
      ok, done := Attempt();
      if done { objects := objects[name := Blob(data)]; }
    }

    /** Uploads a manifest. Swift refuses it unless every segment is there with the given size. */
    method WriteSLO(name: ObjectName, segments: seq<Segment>) returns (ok: bool)
      modifies this
      ensures objects == old(objects)[name := Manifest(segments)] || (!ok && objects == old(objects))
      ensures ok || objects != old(objects) ==> Stored(old(objects), segments)
      ensures old(fuse) < 0 ==> (ok <==> Stored(old(objects), segments)) && fuse < 0
    {
      var manifest: seq<Segment> := [];
      for i := 0 to |segments|
        invariant manifest == segments[..i]
      {
        manifest := manifest + [segments[i]];
      }
      assert manifest == segments;
      var done;
      ok, done := Attempt();
      if !Stored(objects, manifest) { return false; }
      if done { objects := objects[name := Manifest(manifest)]; }
    }

    /** Deletes everything below the prefix of one location. A failure may hit in the middle. */
    method DeleteAll(location: Location) returns (ok: bool)
      modifies this
      ensures ok ==> objects == DropLocations(old(objects), {location})
      ensures forall n | n in objects :: n in old(objects) && objects[n] == old(objects)[n]
      ensures forall n | n in old(objects) && n.location != location :: n in objects
      ensures old(fuse) < 0 ==> ok && fuse < 0
    {
      var done;
      ok, done := Attempt();
      if done {
        objects := DropLocations(objects, {location});
      } else {
        var survivors: set<ObjectName> := *;
        objects := map n | n in objects && (n.location != location || n in survivors) :: objects[n];
      }
    }
  }
}
