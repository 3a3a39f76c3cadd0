/** What bufio.Writer does to a sequence of writes: which pieces it passes on, and what it holds
    back. */
module Buffering {
  import opened Storage

  datatype Flushed = Flushed(pieces: seq<Bytes>, buffer: Bytes)

  function Concat(pieces: seq<Bytes>): Bytes {
    if pieces == [] then [] else pieces[0] + Concat(pieces[1..])
  }

  /** One write. What does not fit fills up the buffer, which is passed on; into an empty buffer a
      large rest is not copied but passed on directly. */
  function WriteThrough(size: nat, buffer: Bytes, data: Bytes): Flushed
    requires size > 0 && |buffer| <= size
    decreases |data|, |buffer|
  {
    if |data| <= size - |buffer| then Flushed([], buffer + data)
    else if buffer == [] then Flushed([data], [])
    else
      var n := size - |buffer|;
      var rest := WriteThrough(size, [], data[n..]);
      Flushed([buffer + data[..n]] + rest.pieces, rest.buffer)
  }

  function WriteAllThrough(size: nat, buffer: Bytes, writes: seq<Bytes>): Flushed
    requires size > 0 && |buffer| <= size
    decreases |writes|
  {
    if writes == [] then Flushed([], buffer)
    else
      var first := WriteThrough(size, buffer, writes[0]);
      WriteThroughFits(size, buffer, writes[0]);
      var rest := WriteAllThrough(size, first.buffer, writes[1..]);
      Flushed(first.pieces + rest.pieces, rest.buffer)
  }

  /** The final flush of Close, Commit or Cancel passes on what is left, if anything is. */
  function Final(f: Flushed): seq<Bytes> {
    if f.buffer == [] then f.pieces else f.pieces + [f.buffer]
  }

  lemma {:induction false} WriteThroughFits(size: nat, buffer: Bytes, data: Bytes)
    requires size > 0 && |buffer| <= size
    ensures |WriteThrough(size, buffer, data).buffer| <= size
    decreases |data|, |buffer|
  {
    if |data| > size - |buffer| && buffer != [] {
      WriteThroughFits(size, [], data[size - |buffer|..]);
    }
  }

  /** One write passes on at most two pieces: the buffer filled up to its size, and then all of a rest that
      is larger than the buffer. */
  lemma WriteThroughExactly(size: nat, buffer: Bytes, data: Bytes)
    requires size > 0 && |buffer| <= size
    ensures
      var n := if buffer == [] then 0 else size - |buffer|;
      WriteThrough(size, buffer, data) ==
      if |buffer| + |data| <= size then Flushed([], buffer + data)
      else if buffer == [] then Flushed([data], [])
      else if |data| - n <= size then Flushed([buffer + data[..n]], data[n..])
      else Flushed([buffer + data[..n], data[n..]], [])
  {
    if |buffer| + |data| > size && buffer != [] {
      var n := size - |buffer|;
      assert [] + data[n..] == data[n..];
      assert [buffer + data[..n]] + [data[n..]] == [buffer + data[..n], data[n..]];
    }
  }

  lemma {:induction false} ConcatAppend(a: seq<Bytes>, b: seq<Bytes>)
    ensures Concat(a + b) == Concat(a) + Concat(b)
  {
    if a == [] {
      assert a + b == b;
    } else {
      assert (a + b)[1..] == a[1..] + b;
      ConcatAppend(a[1..], b);
    }
  }

  lemma ConcatOne(piece: Bytes)
    ensures Concat([piece]) == piece
  {
    assert [piece][1..] == [];
  }

  lemma {:induction false} WriteThroughConserves(size: nat, buffer: Bytes, data: Bytes)
    requires size > 0 && |buffer| <= size
    ensures var f := WriteThrough(size, buffer, data); Concat(f.pieces) + f.buffer == buffer + data
    decreases |data|, |buffer|
  {
    if |data| > size - |buffer| {
      if buffer == [] {
        ConcatOne(data);
      } else {
        var n := size - |buffer|;
        var head, rest := buffer + data[..n], WriteThrough(size, [], data[n..]);
        calc {
          Concat([head] + rest.pieces) + rest.buffer;
          { ConcatAppend([head], rest.pieces); ConcatOne(head); }
          head + Concat(rest.pieces) + rest.buffer;
          head + (Concat(rest.pieces) + rest.buffer);
          { WriteThroughConserves(size, [], data[n..]); }
          head + ([] + data[n..]);
          buffer + data;
        }
      }
    }
  }

  lemma {:induction false} WriteThroughSizes(size: nat, buffer: Bytes, data: Bytes)
    requires size > 0 && |buffer| <= size
    ensures forall piece | piece in WriteThrough(size, buffer, data).pieces :: |piece| >= size
    decreases |data|, |buffer|
  {
    if |data| > size - |buffer| && buffer != [] {
      WriteThroughSizes(size, [], data[size - |buffer|..]);
    }
  }

  lemma {:induction false} WritesConserve(size: nat, buffer: Bytes, writes: seq<Bytes>)
    requires size > 0 && |buffer| <= size
    ensures var f := WriteAllThrough(size, buffer, writes); Concat(f.pieces) + f.buffer == buffer + Concat(writes)
    decreases |writes|
  {
    if writes != [] {
      var first := WriteThrough(size, buffer, writes[0]);
      WriteThroughFits(size, buffer, writes[0]);
      var rest := WriteAllThrough(size, first.buffer, writes[1..]);
      calc {
        Concat(first.pieces + rest.pieces) + rest.buffer;
        { ConcatAppend(first.pieces, rest.pieces); }
        Concat(first.pieces) + Concat(rest.pieces) + rest.buffer;
        Concat(first.pieces) + (Concat(rest.pieces) + rest.buffer);
        { WritesConserve(size, first.buffer, writes[1..]); }
        Concat(first.pieces) + (first.buffer + Concat(writes[1..]));
        Concat(first.pieces) + first.buffer + Concat(writes[1..]);
        { WriteThroughConserves(size, buffer, writes[0]); }
        buffer + writes[0] + Concat(writes[1..]);
        buffer + Concat(writes);
      }
    }
  }

  lemma {:induction false} WritesSizes(size: nat, buffer: Bytes, writes: seq<Bytes>)
    requires size > 0 && |buffer| <= size
    ensures var f := WriteAllThrough(size, buffer, writes);
      |f.buffer| <= size && forall piece | piece in f.pieces :: |piece| >= size
    decreases |writes|
  {
    if writes != [] {
      WriteThroughFits(size, buffer, writes[0]);
      WriteThroughSizes(size, buffer, writes[0]);
      WritesSizes(size, WriteThrough(size, buffer, writes[0]).buffer, writes[1..]);
    }
  }

  /** No byte is lost, repeated or reordered, no piece is empty, and every piece that is passed on
      before the final flush fills the buffer size. */
  lemma BufferConserves(size: nat, buffer: Bytes, writes: seq<Bytes>)
    requires size > 0 && |buffer| <= size
    ensures var f := WriteAllThrough(size, buffer, writes);
      && Concat(f.pieces) + f.buffer == buffer + Concat(writes)
      && Concat(Final(f)) == buffer + Concat(writes)
      && |f.buffer| <= size
      && (forall piece | piece in f.pieces :: |piece| >= size)
      && (forall piece | piece in Final(f) :: piece != [])
  {
    WritesConserve(size, buffer, writes);
    WritesSizes(size, buffer, writes);
    var f := WriteAllThrough(size, buffer, writes);
    ConcatAppend(f.pieces, [f.buffer]);
    ConcatOne(f.buffer);
  }
}
