/** The message by which the web page tells an event stream which event comes next or before:
    its bytes, as the page packs them and the stream reads them. */
module SetEventMessage {
  import opened Planes

  const CMD_SET_EVENT: uint8 := 22

  /** The message as the stream understands it. Only the low 48 bits of the source are sent. */
  datatype SetEvent = SetEvent(prev: bool, eventId: nat, sourceId: nat)

  const ID_LIMIT: nat := 0x1_0000_0000_0000_0000

  function Low48(id: nat): nat { id % 0x1_0000_0000_0000 }

  function Pow256(k: nat): nat
  {
    if k == 0 then 1 else 256 * Pow256(k - 1)
  }

  /** The number that bytes spell, first byte highest. */
  function BigEndian(bytes: seq<uint8>): nat
  {
    if bytes == [] then 0 else BigEndian(bytes[..|bytes| - 1]) * 256 + bytes[|bytes| - 1]
  }

  /** The low k bytes of a number, highest first. */
  function Packed(k: nat, x: nat): (bytes: seq<uint8>)
    ensures |bytes| == k
  {
    if k == 0 then [] else Packed(k - 1, x / 256) + [x % 256]
  }

  /** The 16 bytes the page sends: ids go out as words of four or two bytes. */
  function Message(prev: bool, eventId: nat, sourceId: nat): (msg: seq<uint8>)
    ensures |msg| == 16
  {
    [CMD_SET_EVENT, if prev then 1 else 0]
    + (Packed(4, eventId / 0x1_0000_0000) + Packed(4, eventId))
    + (Packed(2, sourceId / 0x1_0000_0000) + Packed(4, sourceId))
  }

  lemma {:induction false} BigEndianBounded(bytes: seq<uint8>)
    ensures BigEndian(bytes) < Pow256(|bytes|)
  {
    if bytes != [] { BigEndianBounded(bytes[..|bytes| - 1]); }
  }

  lemma {:induction false} BigEndianAppend(a: seq<uint8>, b: seq<uint8>)
    ensures BigEndian(a + b) == BigEndian(a) * Pow256(|b|) + BigEndian(b)
  {
    if b == [] {
      assert a + b == a;
    } else {
      var b' := b[..|b| - 1];
      BigEndianAppend(a, b');
      assert (a + b)[..|a + b| - 1] == a + b';
      assert BigEndian(a) * (256 * Pow256(|b'|)) == BigEndian(a) * Pow256(|b'|) * 256;
    }
  }

  /** What is left of a number when its low k bytes are packed. */
  function Remaining(k: nat, x: nat): nat
  {
    if k == 0 then x else Remaining(k - 1, x / 256)
  }

  lemma BytesShifted(bytes: nat, p: nat, rest: nat, x: nat)
    requires bytes + p * rest == x / 256
    ensures bytes * 256 + x % 256 + 256 * p * rest == x
  {
    var product := p * rest;
    assert 256 * p * rest == 256 * product;
  }

  /** Unpacking gives the low bytes back. */
  lemma {:induction false} PackedReads(k: nat, x: nat)
    ensures BigEndian(Packed(k, x)) + Pow256(k) * Remaining(k, x) == x
  {
    if k > 0 {
      PackedReads(k - 1, x / 256);
      assert Packed(k, x)[..k - 1] == Packed(k - 1, x / 256);
      BytesShifted(BigEndian(Packed(k - 1, x / 256)), Pow256(k - 1), Remaining(k, x), x);
    }
  }

  function Decoded(msg: seq<uint8>): SetEvent
    requires |msg| == 16
  {
    SetEvent(msg[1] != 0, BigEndian(msg[2..10]), BigEndian(msg[10..]))
  }

  /** Eight bits at a time into a 64-bit word: shifting in at most eight bytes loses nothing. */
  method ReadBytes(bytes: seq<uint8>) returns (x: nat)
    requires |bytes| <= 8
    ensures x == BigEndian(bytes)
  {
    x := 0;
    for i := 0 to |bytes|
      invariant x == BigEndian(bytes[..i])
    {
      BigEndianBounded(bytes[..i]);
      PowBelow(i, 7);
      assert bytes[..i + 1][..i] == bytes[..i];
      x := (x * 256) % ID_LIMIT + bytes[i];
    }
    assert bytes[..|bytes|] == bytes;
  }

  lemma {:induction false} PowBelow(i: nat, k: nat)
    requires i <= k
    ensures Pow256(i) <= Pow256(k)
    ensures k == 7 ==> Pow256(k) * 256 == ID_LIMIT
    decreases k
  {
    if i < k { PowBelow(i, k - 1); }
    if k == 7 {
      assert Pow256(4) == 256 * Pow256(3) && Pow256(2) == 0x1_0000;
    }
  }

  method DecodeSetEvent(msg: seq<uint8>) returns (command: SetEvent)
    requires |msg| == 16
    ensures command == Decoded(msg)
  {
    var eventId := ReadBytes(msg[2..10]);
    var sourceId := ReadBytes(msg[10..16]);
    command := SetEvent(msg[1] != 0, eventId, sourceId);
    assert msg[10..16] == msg[10..];
  }

  lemma PowWords()
    ensures Pow256(2) == 0x1_0000 && Pow256(4) == 0x1_0000_0000
  {
    assert Pow256(2) == 256 * Pow256(1);
    assert Pow256(4) == 256 * Pow256(3);
  }

  lemma WordReads(x: nat)
    ensures BigEndian(Packed(4, x)) == x % 0x1_0000_0000
  {
    PowWords();
    PackedReads(4, x);
    BigEndianBounded(Packed(4, x));
    RestOf(x, 0x1_0000_0000, Remaining(4, x), BigEndian(Packed(4, x)));
  }

  lemma HalfWordReads(x: nat)
    ensures BigEndian(Packed(2, x)) == x % 0x1_0000
  {
    PowWords();
    PackedReads(2, x);
    BigEndianBounded(Packed(2, x));
  }

  lemma RestOf(x: nat, d: nat, q: nat, r: nat)
    requires d == 0x1_0000_0000 && r < d && x == r + 0x1_0000_0000 * q
    ensures x % 0x1_0000_0000 == r
  {
  }

  lemma TwoWords(a: seq<uint8>, b: seq<uint8>)
    requires |b| == 4
    ensures BigEndian(a + b) == BigEndian(a) * 0x1_0000_0000 + BigEndian(b)
  {
    PowWords();
    BigEndianAppend(a, b);
  }

  lemma TargetReads(id: nat)
    requires id < ID_LIMIT
    ensures BigEndian(Packed(4, id / 0x1_0000_0000) + Packed(4, id)) == id
  {
    var high := id / 0x1_0000_0000;
    TwoWords(Packed(4, high), Packed(4, id));
    WordReads(high);
    WordReads(id);
  }

  lemma Low48Words(id: nat)
    ensures id / 0x1_0000_0000 % 0x1_0000 * 0x1_0000_0000 + id % 0x1_0000_0000 == Low48(id)
  {
    var high, low := id / 0x1_0000_0000, id % 0x1_0000_0000;
    var a, b := high / 0x1_0000, high % 0x1_0000;
    assert id == 0x1_0000_0000_0000 * a + (b * 0x1_0000_0000 + low);
  }

  lemma SourceReads(id: nat)
    ensures BigEndian(Packed(2, id / 0x1_0000_0000) + Packed(4, id)) == Low48(id)
  {
    var high := id / 0x1_0000_0000;
    TwoWords(Packed(2, high), Packed(4, id));
    HalfWordReads(high);
    WordReads(id);
    Low48Words(id);
  }

  lemma FourBytes(x: nat)
    ensures Packed(4, x) == [x / 0x100_0000 % 256, x / 0x1_0000 % 256, x / 0x100 % 256, x % 256]
  {
    var x1 := x / 256;
    var x2 := x1 / 256;
    assert Packed(2, x2) == [x2 / 256 % 256, x2 % 256] by { assert Packed(0, x2 / 256 / 256) == []; }
    assert Packed(3, x1) == Packed(2, x2) + [x1 % 256];
  }

  /** The value of byte number k of a number, counted from the lowest. */
  function ByteAt(x: nat, k: nat): uint8
    requires k < 8
  {
    match k
    case 0 => x % 0x100
    case 1 => x / 0x100 % 0x100
    case 2 => x / 0x1_0000 % 0x100
    case 3 => x / 0x100_0000 % 0x100
    case 4 => x / 0x1_0000_0000 % 0x100
    case 5 => x / 0x1_0000_0000 / 0x100 % 0x100
    case 6 => x / 0x1_0000_0000 / 0x1_0000 % 0x100
    case 7 => x / 0x1_0000_0000 / 0x100_0000 % 0x100
  }

  /** Byte by byte: command and direction, the eight bytes of the target and the low six of the source,
      highest first. */
  lemma MessageBytes(prev: bool, eventId: nat, sourceId: nat, k: nat)
    requires k < 8
    ensures Message(prev, eventId, sourceId)[0] == 22
    ensures Message(prev, eventId, sourceId)[1] == if prev then 1 else 0
    ensures Message(prev, eventId, sourceId)[9 - k] == ByteAt(eventId, k)
    ensures k < 6 ==> Message(prev, eventId, sourceId)[15 - k] == ByteAt(sourceId, k)
  {
    TargetByte(eventId, k);
    SourceByte(sourceId, k);
  }

  lemma TargetByte(id: nat, k: nat)
    requires k < 8
    ensures (Packed(4, id / 0x1_0000_0000) + Packed(4, id))[7 - k] == ByteAt(id, k)
  {
    FourBytes(id / 0x1_0000_0000);
    FourBytes(id);
  }

  lemma SourceByte(id: nat, k: nat)
    requires k < 8
    ensures k < 6 ==> (Packed(2, id / 0x1_0000_0000) + Packed(4, id))[5 - k] == ByteAt(id, k)
  {
    FourBytes(id);
    var high := id / 0x1_0000_0000;
    assert Packed(2, high) == [high / 256 % 256, high % 256] by { assert Packed(0, high / 256 / 256) == []; }
  }

  /** What the page packs is what the stream reads: the direction, all 64 bits of the target and
      the low 48 bits of the source. */
  lemma MessageRoundTrip(prev: bool, eventId: nat, sourceId: nat)
    requires eventId < ID_LIMIT
    ensures Decoded(Message(prev, eventId, sourceId)) == SetEvent(prev, eventId, Low48(sourceId))
  {
    var msg := Message(prev, eventId, sourceId);
    var target := Packed(4, eventId / 0x1_0000_0000) + Packed(4, eventId);
    var source := Packed(2, sourceId / 0x1_0000_0000) + Packed(4, sourceId);
    assert msg[2..10] == target;
    assert msg[10..] == source;
    TargetReads(eventId);
    SourceReads(sourceId);
  }
}
