/** The flexible memory buffer: a storage block of which bytes [head, tail) are in use. Bytes are
    consumed from the front lazily, and room at the back is made by shifting or reallocating. */
module ByteBuffer {
  import opened Planes

  type byte = uint8

  /** read_into() counts in an int, so no more than this is ever held. */
  const MAX_ALLOCATION: nat := 0x7FFF_FFFF

  lemma SliceSplit(s: seq<byte>, from: nat, at: nat, to: nat)
    requires from <= at <= to <= |s|
    ensures s[from..to][at - from..] == s[at..to]
    ensures s[from..to][..at - from] == s[from..at]
  {
  }

  lemma AppendedSlice(before: seq<byte>, after: seq<byte>, from: nat, to: nat, bytes: seq<byte>)
    requires from <= to && to + |bytes| <= |before|
    requires after == before[..to] + bytes + before[to + |bytes|..]
    ensures after[from..to + |bytes|] == before[from..to] + bytes
  {
  }

  class Buffer {
    var storage: array?<byte>
    var allocation: nat
    var size: nat
    var head: nat
    var tail: nat

    ghost predicate Valid()
      reads this
    {
      && tail == head + size <= allocation <= MAX_ALLOCATION
      && (storage == null ==> allocation == 0)
      && (storage != null ==> 0 < allocation == storage.Length)
    }

    /** The plain byte sequence the buffer stands for. */
    ghost function Contents(): (s: seq<byte>)
      requires Valid()
      reads this, storage
      ensures |s| == size
    {
      if storage == null then [] else storage[head..tail]
    }

    ghost function Repr(): set<object>
      reads this
    {
      if storage == null then {this} else {this, storage}
    }

    constructor ()
      ensures Valid() && Contents() == [] && allocation == 0
    {
      storage, allocation, size, head, tail := null, 0, 0, 0, 0;
    }

    constructor Sized(n: nat)
      requires 0 < n <= MAX_ALLOCATION
      ensures Valid() && Contents() == [] && allocation == n && storage != null && fresh(storage)
    {
      storage := new byte[n](_ => 0);
      allocation, size, head, tail := n, 0, 0, 0;
    }

    constructor Copying(bytes: seq<byte>)
      requires 0 < |bytes| <= MAX_ALLOCATION
      ensures Valid() && Contents() == bytes && storage != null && fresh(storage)
    {
      storage := new byte[|bytes|](i requires 0 <= i < |bytes| => bytes[i]);
      allocation, size, head, tail := |bytes|, |bytes|, 0, |bytes|;
    }

    method Clear()
      requires Valid()
      modifies this
      ensures Valid() && Contents() == [] && storage == old(storage) && allocation == old(allocation)
    {
      size := 0;
      head, tail := 0, 0;
    }

    /** memcpy(storage + at, bytes, n) */
    method CopyIn(at: nat, bytes: seq<byte>)
      requires storage != null && at + |bytes| <= storage.Length
      modifies storage
      ensures storage[..] == old(storage[..at]) + bytes + old(storage[at + |bytes|..])
    {
      for i := 0 to |bytes|
        invariant storage[..at + i] == old(storage[..at]) + bytes[..i]
        invariant storage[at + i..] == old(storage[at + i..])
      {
        storage[at + i] := bytes[i];
        assert storage[..at + i + 1] == storage[..at + i] + [bytes[i]];
        assert bytes[..i + 1] == bytes[..i] + [bytes[i]];
        assert storage[at + i + 1..] == old(storage[at + i + 1..]) by {
          assert old(storage[at + i + 1..]) == old(storage[at + i..])[1..];
        }
      }
      assert storage[..] == storage[..at + |bytes|] + storage[at + |bytes|..];
    }

    /** memcpy inside the block: the two ranges may not overlap. */
    method CopyWithin(to: nat, from: nat, n: nat)
      requires storage != null && to + n <= storage.Length && from + n <= storage.Length
      requires to + n <= from || from + n <= to
      modifies storage
      ensures storage[to..to + n] == old(storage[from..from + n])
      ensures storage[..to] == old(storage[..to]) && storage[to + n..] == old(storage[to + n..])
    {
      CopyIn(to, storage[from..from + n]);
    }

    /** memmove of the contents to the front, which is safe for any overlap since it goes down. */
    method ShiftToFront()
      requires Valid() && storage != null
      modifies this, storage
      ensures Valid() && head == 0 && Contents() == old(Contents())
      ensures storage == old(storage) && allocation == old(allocation) && size == old(size)
    {
      for i := 0 to size
        invariant unchanged(this)
        invariant storage[..i] == old(storage[head..head + i])
        invariant storage[head + i..] == old(storage[head + i..])
      {
        assert storage[head + i] == old(storage[head + i]) by {
          assert storage[head + i] == storage[head + i..][0];
          assert old(storage[head + i]) == old(storage[head + i..])[0];
        }
        storage[i] := storage[head + i];
        assert storage[..i + 1] == storage[..i] + [storage[i]];
        assert old(storage[head..head + i + 1]) == old(storage[head..head + i]) + [old(storage[head + i])];
        assert storage[head + i + 1..] == old(storage[head + i + 1..]) by {
          assert old(storage[head + i + 1..]) == old(storage[head + i..])[1..];
        }
      }
      head := 0;
      tail := head + size;
    }

    method Assign(bytes: seq<byte>)
      requires Valid() && |bytes| <= MAX_ALLOCATION
      modifies this, storage
      ensures Valid() && Contents() == bytes
      ensures allocation == if old(allocation) < |bytes| then |bytes| else old(allocation)
      ensures storage == old(storage) || fresh(storage)
    {
      if allocation < |bytes| {
        allocation := |bytes|;
        storage := new byte[|bytes|](_ => 0);
        head := 0;
      }
      size := |bytes|;
      if storage != null {
        CopyIn(0, bytes);
      }
      head := 0;
      tail := head + size;
    }

    /** Makes room for count more bytes at the back. The contents never change; there is room
        afterwards unless the bytes together would pass the maximum. */
    method Expand(count: nat)
      requires Valid()
      modifies this, storage
      ensures Valid() && Contents() == old(Contents())
      ensures count <= allocation - tail <==>
        size + count <= MAX_ALLOCATION || count <= old(allocation - tail)
      ensures allocation == old(allocation) || allocation == size + count
      ensures old(allocation) <= allocation
      ensures count > 0 && storage == null ==> MAX_ALLOCATION < count
      ensures storage == old(storage) || fresh(storage)
    {
      var headSpace := head;
      var tailSpace := allocation - headSpace - size;
      if tailSpace >= count {
        return;
      }
      if allocation - size >= count {
        ShiftToFront();
        return;
      }
      var needed := size + count;
      if needed > MAX_ALLOCATION {
        return;
      }
      var newStorage := new byte[needed](_ => 0);
      if storage != null {
        ghost var kept := Contents();
        for i := 0 to size
          invariant unchanged(this) && unchanged(storage)
          invariant newStorage[..i] == kept[..i]
        {
          newStorage[i] := storage[head + i];
          assert newStorage[..i + 1] == newStorage[..i] + [newStorage[i]];
          assert kept[..i + 1] == kept[..i] + [kept[i]];
        }
        assert kept[..size] == kept;
      }
      allocation := needed;
      storage := newStorage;
      head := 0;
      tail := head + size;
    }

    /** Resets an empty buffer to the front; at level 1 also moves the contents there when the
        block before them is longer than they are, so that source and target cannot overlap. */
    method Tidy(level: bool)
      requires Valid()
      modifies this, storage
      ensures Valid() && Contents() == old(Contents())
      ensures storage == old(storage) && allocation == old(allocation) && size == old(size)
      ensures head == if old(head) == 0 || size == 0 || (level && size < old(head)) then 0 else old(head)
    {
      if head != 0 {
        if size == 0 {
          head, tail := 0, 0;
        } else if level {
          if head > size {
            CopyWithin(0, head, size);
            head := 0;
            tail := head + size;
          }
        }
      } else if size == 0 && storage != null {
        storage[head] := 0;
      }
    }

    /** Drops up to count bytes from the front and says how many. */
    method Consume(count: nat) returns (n: nat)
      requires Valid()
      modifies this, storage
      ensures Valid() && n == (if count > |old(Contents())| then |old(Contents())| else count)
      ensures Contents() == old(Contents())[n..]
      ensures storage == old(storage) && allocation == old(allocation)
    {
      n := count;
      if n > size {
        n := size;
      }
      head := head + n;
      size := size - n;
      Tidy(false);
    }

    /** Drops up to count bytes from the back and says how many. */
    method Shrink(count: nat) returns (n: nat)
      requires Valid()
      modifies this, storage
      ensures Valid() && n == (if count > |old(Contents())| then |old(Contents())| else count)
      ensures Contents() == old(Contents())[..|old(Contents())| - n]
      ensures storage == old(storage) && allocation == old(allocation)
    {
      n := count;
      if n > size {
        n := size;
      }
      size := size - n;
      if tail > head + size {
        tail := head + size;
      }
      Tidy(false);
    }

    /** Hands out up to n bytes from the front. They stay where they are in the storage block. */
    method Extract(n: nat) returns (oldHead: nat, count: nat)
      requires Valid()
      modifies this
      ensures Valid() && count == (if n > |old(Contents())| then |old(Contents())| else n)
      ensures Contents() == old(Contents())[count..]
      ensures storage == old(storage) && allocation == old(allocation)
      ensures storage != null ==>
        oldHead + count <= storage.Length && storage[oldHead..oldHead + count] == old(Contents())[..count]
    {
      count := n;
      if count > size {
        count := size;
      }
      oldHead := head;
      if storage != null {
        SliceSplit(storage[..], head, head + count, tail);
      }
      head := head + count;
      size := size - count;
    }

    /** Adds bytes at the back. */
    method Append(bytes: seq<byte>) returns (total: nat)
      requires Valid() && size + |bytes| <= MAX_ALLOCATION
      modifies this, storage
      ensures Valid() && Contents() == old(Contents()) + bytes && total == |Contents()|
      ensures storage == old(storage) || fresh(storage)
    {
      Expand(|bytes|);
      if storage != null {
        ghost var before := storage[..];
        CopyIn(tail, bytes);
        AppendedSlice(before, storage[..], head, tail, bytes);
        tail := tail + |bytes|;
      }
      size := size + |bytes|;
      return size;
    }
  }

  // ---------------------------------------------------------------- whole runs

  datatype Op =
    | OpAppend(bytes: seq<byte>)
    | OpExpand(count: nat)
    | OpConsume(count: nat)
    | OpExtract(count: nat)
    | OpShrink(count: nat)
    | OpTidy(level: bool)
    | OpClear
    | OpAssign(bytes: seq<byte>)

  function Least(a: nat, b: nat): nat { if a < b then a else b }

  /** The same operation on a plain byte sequence. */
  function ApplyOp(s: seq<byte>, op: Op): seq<byte>
  {
    match op
    case OpAppend(bytes) => s + bytes
    case OpConsume(count) => s[Least(count, |s|)..]
    case OpExtract(count) => s[Least(count, |s|)..]
    case OpShrink(count) => s[..|s| - Least(count, |s|)]
    case OpClear => []
    case OpAssign(bytes) => bytes
    case _ => s
  }

  function ApplyOps(s: seq<byte>, ops: seq<Op>): seq<byte>
  {
    if ops == [] then s else ApplyOp(ApplyOps(s, ops[..|ops| - 1]), ops[|ops| - 1])
  }

  /** No step of the run asks for more than the maximum. */
  ghost predicate WithinLimit(s: seq<byte>, ops: seq<Op>)
  {
    forall k :: 0 < k <= |ops| ==> |ApplyOps(s, ops[..k])| <= MAX_ALLOCATION
  }

  predicate Trims(op: Op)
  {
    op.OpConsume? || op.OpExtract? || op.OpShrink?
  }

  method RunTrim(b: Buffer, op: Op)
    requires b.Valid() && Trims(op)
    modifies b.Repr()
    ensures b.Valid() && b.Contents() == ApplyOp(old(b.Contents()), op) && b.storage == old(b.storage)
  {
    ghost var s := b.Contents();
    match op
    case OpConsume(count) => var n := b.Consume(count); assert n == Least(count, |s|);
    case OpExtract(count) => var _, n := b.Extract(count); assert n == Least(count, |s|);
    case OpShrink(count) => var n := b.Shrink(count); assert n == Least(count, |s|);
  }

  method RunOp(b: Buffer, op: Op)
    requires b.Valid() && |ApplyOp(b.Contents(), op)| <= MAX_ALLOCATION
    modifies b.Repr()
    ensures b.Valid() && b.Contents() == ApplyOp(old(b.Contents()), op)
    ensures b.storage == old(b.storage) || fresh(b.storage)
  {
    if Trims(op) {
      RunTrim(b, op);
      return;
    }
    match op
    case OpAppend(bytes) => var _ := b.Append(bytes);
    case OpExpand(count) => b.Expand(count);
    case OpTidy(level) => b.Tidy(level);
    case OpClear => b.Clear();
    case OpAssign(bytes) => b.Assign(bytes);
  }

  /** A buffer put through any run of operations behaves as a plain byte sequence. */
  method RunOps(b: Buffer, ops: seq<Op>)
    requires b.Valid() && WithinLimit(b.Contents(), ops)
    modifies b.Repr()
    ensures b.Valid() && b.Contents() == ApplyOps(old(b.Contents()), ops)
    ensures b.tail == b.head + b.size <= b.allocation
  {
    ghost var start := b.Contents();
    for k := 0 to |ops|
      invariant b.Valid() && b.Contents() == ApplyOps(start, ops[..k])
      invariant b.storage == old(b.storage) || fresh(b.storage)
    {
      assert ops[..k + 1][..k] == ops[..k];
      RunOp(b, ops[k]);
    }
    assert ops[..|ops|] == ops;
  }
}
