/** Streams of bytes, and what reading from them and writing to them can come to. */
module Streams {
  import opened Bytes

  /** What was read, the count of bytes reported and the bytes left; or an error; or the end of the process. */
  datatype Reading<+T> = Done(value: T, count: nat, rest: seq<byte>) | Failed | Panic

  function Map<T, U>(r: Reading<T>, f: T -> U): Reading<U> {
    match r
    case Done(value, count, rest) => Done(f(value), count, rest)
    case Failed => Failed
    case Panic => Panic
  }

  datatype ReadResult<+T> = ReadOk(value: T, n: nat) | ReadError | ReadPanic

  /** What the method gives for what the specification reads. */
  predicate Agrees<T(==)>(r: ReadResult<T>, left: seq<byte>, read: Reading<T>) {
    match read
    case Done(v, n, rest) => r == ReadOk(v, n) && left == rest
    case Failed => r.ReadError?
    case Panic => r.ReadPanic?
  }

  function AsReading<T>(r: ReadResult<T>, left: seq<byte>): Reading<T> {
    match r
    case ReadOk(v, n) => Done(v, n, left)
    case ReadError => Failed
    case ReadPanic => Panic
  }

  lemma Agreed<T>(r: ReadResult<T>, left: seq<byte>, read: Reading<T>)
    requires Agrees(r, left, read)
    ensures read == AsReading(r, left)
  {
    match read
    case Done(_, _, _) =>
    case Failed =>
    case Panic =>
  }

  datatype Writing = Wrote(n: nat) | WriteError | WritePanic

  class Reader {
    var left: seq<byte>

    constructor (input: seq<byte>)
      ensures left == input
    {
      left := input;
    }

    /** Reads a number of bytes or fails, using up what there was. */
    method Read(n: nat) returns (ok: bool, bytes: seq<byte>)
      modifies this
      ensures ok <==> n <= |old(left)|
      ensures ok ==> bytes == old(left)[..n] && left == old(left)[n..]
      ensures !ok ==> left == []
    {
      if n <= |left| {
        ok, bytes, left := true, left[..n], left[n..];
      } else {
        ok, bytes, left := false, [], [];
      }
    }
  }

  class Buffer {
    var bytes: seq<byte>

    constructor ()
      ensures bytes == []
    {
      bytes := [];
    }

    method Write(more: seq<byte>)
      modifies this
      ensures bytes == old(bytes) + more
    {
      bytes := bytes + more;
    }
  }

  // ----- One thing after another

  /** The pieces of a stream one after the other. */
  function Flat(pieces: seq<seq<byte>>): seq<byte> {
    if pieces == [] then [] else pieces[0] + Flat(pieces[1..])
  }

  /** What is read uses something up. */
  ghost predicate Shortens<T>(read: seq<byte> -> Reading<T>) {
    forall input :: read(input).Done? ==> |read(input).rest| < |input|
  }

  function Prepend<T>(first: T, read: Reading<seq<T>>): Reading<seq<T>> {
    match read
    case Done(more, n, rest) => Done([first] + more, n, rest)
    case Failed => Failed
    case Panic => Panic
  }

  /** Reads until the running index is at the end or past it. The count is the index reached. */
  function ReadMany<T>(read: seq<byte> -> Reading<T>, input: seq<byte>, index: nat, end: nat): Reading<seq<T>>
    requires Shortens(read)
    decreases |input|
  {
    if index >= end then Done([], index, input)
    else match read(input)
      case Done(first, n, rest) => Prepend(first, ReadMany(read, rest, index + n, end))
      case Failed => Failed
      case Panic => Panic
  }

  /** Each piece, with whatever follows it, is read as its value. */
  ghost predicate EachReads<T>(read: seq<byte> -> Reading<T>, pieces: seq<seq<byte>>, values: seq<T>, sizes: seq<nat>,
        rest: seq<byte>)
  {
    && |pieces| == |values| == |sizes|
    && forall i :: 0 <= i < |pieces| ==>
         read(pieces[i] + (Flat(pieces[i + 1..]) + rest)) == Done(values[i], sizes[i], Flat(pieces[i + 1..]) + rest)
  }

  function Sum(sizes: seq<nat>): nat {
    if sizes == [] then 0 else sizes[0] + Sum(sizes[1..])
  }

  /** A stream of pieces is read as their values, if each piece is. */
  lemma {:induction false} ReadManyReadsEach<T>(
      read: seq<byte> -> Reading<T>, pieces: seq<seq<byte>>, values: seq<T>, sizes: seq<nat>, rest: seq<byte>,
          index: nat, end: nat)
    requires Shortens(read) && EachReads(read, pieces, values, sizes, rest)
    requires (forall i :: 0 <= i < |sizes| ==> sizes[i] > 0) && end == index + Sum(sizes)
    ensures ReadMany(read, Flat(pieces) + rest, index, end) == Done(values, end, rest)
    decreases |pieces|
  {
    if pieces == [] {
      assert Flat(pieces) + rest == rest;
    } else {
      var tail := Flat(pieces[1..]) + rest;
      assert Flat(pieces) + rest == pieces[0] + tail;
      assert read(pieces[0] + tail) == Done(values[0], sizes[0], tail);
      assert EachReads(read, pieces[1..], values[1..], sizes[1..], rest) by {
        forall i | 0 <= i < |pieces| - 1
          ensures read(pieces[1..][i] + (Flat(pieces[1..][i + 1..]) + rest)) ==
                  Done(values[1..][i], sizes[1..][i], Flat(pieces[1..][i + 1..]) + rest)
        {
          assert pieces[1..][i + 1..] == pieces[i + 2..];
        }
      }
      ReadManyReadsEach(read, pieces[1..], values[1..], sizes[1..], rest, index + sizes[0], end);
      assert values == [values[0]] + values[1..];
    }
  }
}
