/** The growable byte queue that carries stream data between sockets and parsers. */
module DynamicBuffer {
  import opened Runtime
  import opened Ordering

  class Buffer {
    var data: array<Byte>
    var readPos: nat
    var writePos: nat

    ghost predicate Valid()
      reads this
    {
      readPos <= writePos <= data.Length
    }

    /** The bytes waiting to be read. */
    ghost function Contents(): seq<Byte>
      requires Valid()
      reads this, data
    {
      data[readPos..writePos]
    }

    constructor (capacity: nat)
      ensures Valid() && fresh(data) && data.Length == capacity && Contents() == []
    {
      data := new Byte[capacity](i => 0);
      readPos, writePos := 0, 0;
    }

    /** Moves the waiting bytes to the front, one by one from below. */
    method Compact()
      requires Valid()
      modifies this`readPos, this`writePos, data
      ensures Valid() && readPos == 0 && writePos == old(writePos - readPos)
      ensures Contents() == old(Contents())
    {
      var readable := writePos - readPos;
      for i := 0 to readable
        invariant readPos == old(readPos) && writePos == old(writePos)
        invariant forall k :: 0 <= k < i ==> data[k] == old(data[readPos + k])
        invariant forall k :: readPos + i <= k < writePos ==> data[k] == old(data[k])
      {
        data[i] := data[readPos + i];
      }
      readPos, writePos := 0, readable;
    }

    /** Grows the storage; what was stored stays, the rest is zero. */
    method Resize(capacity: nat)
      requires Valid() && capacity >= data.Length
      modifies this`data
      ensures Valid() && fresh(data) && data.Length == capacity
      ensures data[..old(data).Length] == old(data[..]) && Contents() == old(Contents())
    {
      var stored := data;
      var grown := new Byte[capacity](i => 0);
      for i := 0 to stored.Length
        invariant data == stored && stored[..] == old(data[..])
        invariant forall k :: 0 <= k < i ==> grown[k] == stored[k]
      {
        grown[i] := stored[i];
      }
      data := grown;
    }

    /** Makes room for `size` bytes after the waiting ones. */
    method Prepare(size: nat)
      requires Valid()
      modifies this, data
      ensures Valid() && (data == old(data) || fresh(data)) && data.Length >= old(data.Length)
      ensures writePos + size <= data.Length && Contents() == old(Contents())
    {
      if writePos + size > data.Length && readPos > 0 {
        Compact();
      }
      if writePos + size > data.Length {
        Resize(writePos + size);
      }
    }

    /** What was written into the prepared room becomes readable. */
    method Commit(size: nat)
      requires Valid() && writePos + size <= data.Length
      modifies this`writePos
      ensures Valid() && writePos == old(writePos) + size
      ensures Contents() == old(Contents()) + data[old(writePos)..writePos]
    {
      writePos := writePos + size;
    }

    /** Copies bytes into the prepared room. */
    method Fill(bytes: seq<Byte>)
      requires Valid() && writePos + |bytes| <= data.Length
      modifies data
      ensures data[writePos..writePos + |bytes|] == bytes && Contents() == old(Contents())
    {
      for i := 0 to |bytes|
        invariant forall k :: 0 <= k < writePos ==> data[k] == old(data[k])
        invariant forall k :: 0 <= k < i ==> data[writePos + k] == bytes[k]
      {
        data[writePos + i] := bytes[i];
      }
    }

    /** Prepares room, lets a source fill part of it, and commits that part. */
    method Receive(size: nat, bytes: seq<Byte>)
      requires Valid() && |bytes| <= size
      modifies this, data
      ensures Valid() && (data == old(data) || fresh(data))
      ensures Contents() == old(Contents()) + bytes
    {
      Prepare(size);
      Fill(bytes);
      Commit(|bytes|);
    }

    method Append(bytes: seq<Byte>)
      requires Valid()
      modifies this, data
      ensures Valid() && (data == old(data) || fresh(data))
      ensures Contents() == old(Contents()) + bytes
    {
      if bytes == [] {
        return;
      }
      Receive(|bytes|, bytes);
    }

    /** Drops bytes from the front, at most all of them. */
    method Consume(size: nat)
      requires Valid()
      modifies this`readPos, this`writePos
      ensures Valid() && Contents() == Rest(old(Contents()), size)
    {
      var n := if size < writePos - readPos then size else writePos - readPos;
      readPos := readPos + n;
      if readPos == writePos {
        readPos, writePos := 0, 0;
      }
    }

    method Clear()
      requires Valid()
      modifies this`readPos, this`writePos
      ensures Valid() && Contents() == []
    {
      readPos, writePos := 0, 0;
    }

    method Reserve(capacity: nat)
      requires Valid()
      modifies this, data
      ensures Valid() && (data == old(data) || fresh(data)) && data.Length >= capacity
      ensures Contents() == old(Contents())
    {
      if capacity <= data.Length {
        return;
      }
      Compact();
      Resize(capacity);
    }

    /** Runs one operation and returns what it took out. */
    method Apply(op: Op) returns (released: seq<Byte>)
      requires Valid() && op.Valid()
      modifies this, data
      ensures Valid() && (data == old(data) || fresh(data))
      ensures Contents() == Next(old(Contents()), op) && released == Out(old(Contents()), op)
    {
      released := [];
      ghost var queue := Contents();
      match op
      case Append(bytes) => Append(bytes);
      case Receive(size, bytes) => Receive(size, bytes);
      case Consume(size) =>
        released := data[readPos..if size < writePos - readPos then readPos + size else writePos];
        assert released == Front(queue, size);
        Consume(size);
      case Clear =>
        released := data[readPos..writePos];
        Clear();
      case Reserve(capacity) => Reserve(capacity);
    }

    /** Runs a script of operations and collects what it released, in order. */
    method Run(script: seq<Op>) returns (released: seq<Byte>)
      requires Valid() && forall op :: op in script ==> op.Valid()
      modifies this, data
      ensures Valid() && (data == old(data) || fresh(data))
      ensures Contents() == Left(old(Contents()), script)
      ensures released == Released(old(Contents()), script)
      ensures released + Contents() == old(Contents()) + Fed(script)
    {
      released := [];
      ghost var first := Contents();
      for i := 0 to |script|
        invariant Valid() && (data == old(data) || fresh(data))
        invariant Contents() == Left(first, script[..i]) && released == Released(first, script[..i])
      {
        assert script[i] in script && script[..i + 1][..i] == script[..i];
        var out := Apply(script[i]);
        released := released + out;
      }
      TakeAll(script);
      NothingLost(first, script);
    }
  }

  // ---------------------------------------------------------------- the queue it refines

  datatype Op = Append(bytes: seq<Byte>) | Receive(size: nat, bytes: seq<Byte>) | Consume(size: nat) | Clear | Reserve(capacity: nat)
  {
    /** A source cannot deliver more than the room it was given. */
    predicate Valid() {
      Receive? ==> |bytes| <= size
    }
  }

  function Front(s: seq<Byte>, n: nat): seq<Byte> {
    if n < |s| then s[..n] else s
  }

  function Rest(s: seq<Byte>, n: nat): seq<Byte> {
    if n < |s| then s[n..] else []
  }

  /** The queue after one operation. */
  function Next(queue: seq<Byte>, op: Op): seq<Byte> {
    match op
    case Append(bytes) => queue + bytes
    case Receive(_, bytes) => queue + bytes
    case Consume(size) => Rest(queue, size)
    case Clear => []
    case Reserve(_) => queue
  }

  /** What one operation takes out at the front. */
  function Out(queue: seq<Byte>, op: Op): seq<Byte> {
    match op
    case Consume(size) => Front(queue, size)
    case Clear => queue
    case _ => []
  }

  /** What one operation puts in at the back. */
  function In(op: Op): seq<Byte> {
    match op
    case Append(bytes) => bytes
    case Receive(_, bytes) => bytes
    case _ => []
  }

  ghost function Left(queue: seq<Byte>, script: seq<Op>): seq<Byte> {
    if script == [] then queue else Next(Left(queue, script[..|script| - 1]), script[|script| - 1])
  }

  ghost function Released(queue: seq<Byte>, script: seq<Op>): seq<Byte> {
    if script == [] then []
    else Released(queue, script[..|script| - 1]) + Out(Left(queue, script[..|script| - 1]), script[|script| - 1])
  }

  ghost function Fed(script: seq<Op>): seq<Byte> {
    if script == [] then [] else Fed(script[..|script| - 1]) + In(script[|script| - 1])
  }

  lemma {:induction false} StepConserves(queue: seq<Byte>, op: Op)
    ensures Out(queue, op) + Next(queue, op) == queue + In(op)
  {
  }

  lemma {:induction false} Regroup(r: seq<Byte>, o: seq<Byte>, n: seq<Byte>, l: seq<Byte>, i: seq<Byte>, q: seq<Byte>, f: seq<Byte>)
    requires o + n == l + i && r + l == q + f
    ensures (r + o) + n == q + (f + i)
  {
    assert (r + o) + n == r + (o + n);
    assert r + (l + i) == (r + l) + i;
    assert (q + f) + i == q + (f + i);
  }

  /** First in, first out: what was released, followed by what is left, is what was there and what was fed,
      in that order. No compaction or growth loses, repeats or reorders a byte. */
  lemma {:induction false} NothingLost(queue: seq<Byte>, script: seq<Op>)
    ensures Released(queue, script) + Left(queue, script) == queue + Fed(script)
  {
    if script != [] {
      var before, op := script[..|script| - 1], script[|script| - 1];
      var r, l := Released(queue, before), Left(queue, before);
      NothingLost(queue, before);
      StepConserves(l, op);
      Regroup(r, Out(l, op), Next(l, op), l, In(op), queue, Fed(before));
    }
  }
}
