/**
 * Length-prefixed framing: four big-endian bytes and that many payload bytes. The serializer is left
 * abstract: a payload stands for the object it deserializes to, and `readable` tells which payloads do.
 */
module ObjectCodec {
  import StompCodec

  type Byte = StompCodec.Byte

  type Payload = seq<Byte>

  /** The payloads that can be deserialized. */
  type Readable = Payload -> bool

  // ------------------------------------------------------------------ big-endian integers

  const MAX_LENGTH := 0x7fff_ffff

  /** `ByteBuffer.getInt`. */
  function GetInt(p: seq<Byte>): int
    requires |p| == 4
  {
    var v := StompCodec.Unsigned(p[0]) * 0x100_0000 + StompCodec.Unsigned(p[1]) * 0x1_0000
             + StompCodec.Unsigned(p[2]) * 0x100 + StompCodec.Unsigned(p[3]);
    if v <= MAX_LENGTH then v else v - 0x1_0000_0000
  }

  /** `ByteBuffer.putInt`. */
  function PutInt(n: nat): (p: seq<Byte>)
    requires n <= MAX_LENGTH
    ensures |p| == 4
  {
    var n1 := n / 0x100;
    var n2 := n1 / 0x100;
    [StompCodec.ToByte(n2 / 0x100), StompCodec.ToByte(n2 % 0x100), StompCodec.ToByte(n1 % 0x100),
     StompCodec.ToByte(n % 0x100)]
  }

  function BigEndian(p: seq<Byte>): nat
  {
    if p == [] then 0 else BigEndian(p[..|p| - 1]) * 0x100 + StompCodec.Unsigned(p[|p| - 1])
  }

  /** Four bytes are read as a two's complement number, the first byte the highest. */
  lemma GetIntIs(p: seq<Byte>)
    requires |p| == 4
    ensures -0x8000_0000 <= GetInt(p) < 0x8000_0000 && (GetInt(p) - BigEndian(p)) % 0x1_0000_0000 == 0
  {
    hide StompCodec.Unsigned;
    assert p[..3][..2] == p[..2] && p[..2][..1] == p[..1] && p[..1][..0] == [];
    var v := StompCodec.Unsigned(p[0]) * 0x100_0000 + StompCodec.Unsigned(p[1]) * 0x1_0000
             + StompCodec.Unsigned(p[2]) * 0x100 + StompCodec.Unsigned(p[3]);
    assert BigEndian(p[..1]) == StompCodec.Unsigned(p[0]);
    assert BigEndian(p[..2]) == StompCodec.Unsigned(p[0]) * 0x100 + StompCodec.Unsigned(p[1]);
    assert BigEndian(p[..3]) == BigEndian(p[..2]) * 0x100 + StompCodec.Unsigned(p[2]);
    assert BigEndian(p) == v;
    Bounded(p);
  }

  lemma Bounded(p: seq<Byte>)
    ensures forall i | 0 <= i < |p| :: StompCodec.Unsigned(p[i]) < 0x100
  {
  }

  lemma GetPut(n: nat)
    requires n <= MAX_LENGTH
    ensures GetInt(PutInt(n)) == n
  {
    hide StompCodec.Unsigned, StompCodec.ToByte;
    var n1 := n / 0x100;
    var n2 := n1 / 0x100;
    StompCodec.UnsignedToByte(n2 / 0x100);
    StompCodec.UnsignedToByte(n2 % 0x100);
    StompCodec.UnsignedToByte(n1 % 0x100);
    StompCodec.UnsignedToByte(n % 0x100);
  }

  // ------------------------------------------------------------------ the decoder as a state machine

  /**
   * In the prefix, in a payload of known length, or past a negative length, where the prefix buffer stays
   * full. A payload that is complete and still there did not deserialize, or is empty.
   */
  datatype Framing = InPrefix(prefix: seq<Byte>) | InPayload(length: nat, got: seq<Byte>) | Stuck

  datatype Result = Nothing | Object(payload: Payload) | Throws

  function DecodeByte(f: Framing, b: Byte, readable: Readable): (Framing, Result)
  {
    match f
    case InPrefix(prefix) =>
      var p := prefix + [b];
      if |p| != 4 then (InPrefix(p), Nothing)
      else if GetInt(p) < 0 then (Stuck, Throws)
      else (InPayload(GetInt(p), []), Nothing)
    case InPayload(length, got) =>
      if |got| >= length then (f, Throws)
      else if |got| + 1 == length then
        if readable(got + [b]) then (InPrefix([]), Object(got + [b])) else (InPayload(length, got + [b]), Throws)
      else (InPayload(length, got + [b]), Nothing)
    case Stuck => (Stuck, Throws)
  }

  datatype Decoding = Decoding(framing: Framing, objects: seq<Payload>, ok: bool)

  function Advance(d: Decoding, b: Byte, readable: Readable): Decoding
  {
    if !d.ok then d else
    match DecodeByte(d.framing, b, readable)
    case (f, Nothing) => d.(framing := f)
    case (f, Object(p)) => d.(framing := f, objects := d.objects + [p])
    case (f, Throws) => d.(framing := f, ok := false)
  }

  function DecodeFrom(d: Decoding, bytes: seq<Byte>, readable: Readable): Decoding
    decreases |bytes|
  {
    if bytes == [] then d else DecodeFrom(Advance(d, bytes[0], readable), bytes[1..], readable)
  }

  lemma {:induction false} DecodeConcat(d: Decoding, a: seq<Byte>, b: seq<Byte>, readable: Readable)
    ensures DecodeFrom(d, a + b, readable) == DecodeFrom(DecodeFrom(d, a, readable), b, readable)
    decreases |a|
  {
    if a == [] {
      assert a + b == b;
    } else {
      assert (a + b)[1..] == a[1..] + b;
      DecodeConcat(Advance(d, a[0], readable), a[1..], b, readable);
    }
  }

  // ------------------------------------------------------------------ round trip

  function Encode(payload: Payload): seq<Byte>
    requires |payload| <= MAX_LENGTH
  {
    PutInt(|payload|) + payload
  }

  function EncodeAll(payloads: seq<Payload>): seq<Byte>
    requires forall p <- payloads :: |p| <= MAX_LENGTH
  {
    if payloads == [] then [] else Encode(payloads[0]) + EncodeAll(payloads[1..])
  }

  lemma DecodePrefix(d: Decoding, n: nat, readable: Readable)
    requires d.ok && d.framing == InPrefix([]) && n <= MAX_LENGTH
    ensures DecodeFrom(d, PutInt(n), readable) == d.(framing := InPayload(n, []))
  {
    hide PutInt, GetInt;
    var p := PutInt(n);
    GetPut(n);
    var d1, d2, d3 := d.(framing := InPrefix([p[0]])), d.(framing := InPrefix([p[0], p[1]])),
                      d.(framing := InPrefix([p[0], p[1], p[2]]));
    assert [p[0], p[1], p[2]] + [p[3]] == p;
    assert Advance(d, p[0], readable) == d1 && Advance(d1, p[1], readable) == d2 && Advance(d2, p[2], readable) == d3;
    assert Advance(d3, p[3], readable) == d.(framing := InPayload(n, []));
    assert p == [p[0]] + ([p[1]] + ([p[2]] + [p[3]]));
    OneByte(d, p[0], [p[1]] + ([p[2]] + [p[3]]), readable);
    OneByte(d1, p[1], [p[2]] + [p[3]], readable);
    OneByte(d2, p[2], [p[3]], readable);
    assert [p[3]] == [p[3]] + [];
    OneByte(d3, p[3], [], readable);
  }

  lemma OneByte(d: Decoding, b: Byte, rest: seq<Byte>, readable: Readable)
    ensures DecodeFrom(d, [b] + rest, readable) == DecodeFrom(Advance(d, b, readable), rest, readable)
  {
    assert ([b] + rest)[1..] == rest;
  }

  /** What the decoder has when a payload is complete. */
  function Completed(d: Decoding, payload: Payload, readable: Readable): Decoding
  {
    if readable(payload) then d.(framing := InPrefix([]), objects := d.objects + [payload])
    else d.(framing := InPayload(|payload|, payload), ok := false)
  }

  lemma {:induction false} DecodePayload(d: Decoding, payload: Payload, got: nat, readable: Readable)
    requires d.ok && got < |payload| && d.framing == InPayload(|payload|, payload[..got])
    ensures DecodeFrom(d, payload[got..], readable) == Completed(d, payload, readable)
    decreases |payload| - got
  {
    assert payload[got..] == [payload[got]] + payload[got + 1..];
    OneByte(d, payload[got], payload[got + 1..], readable);
    assert payload[..got] + [payload[got]] == payload[..got + 1];
    if got + 1 == |payload| {
      assert payload[..got + 1] == payload && payload[got + 1..] == [];
    } else {
      DecodePayload(d.(framing := InPayload(|payload|, payload[..got + 1])), payload, got + 1, readable);
    }
  }

  lemma DecodeOne(d: Decoding, payload: Payload, readable: Readable)
    requires d.ok && d.framing == InPrefix([]) && 1 <= |payload| <= MAX_LENGTH
    ensures DecodeFrom(d, Encode(payload), readable) == Completed(d, payload, readable)
  {
    hide PutInt;
    DecodeConcat(d, PutInt(|payload|), payload, readable);
    DecodePrefix(d, |payload|, readable);
    assert payload[..0] == [] && payload[0..] == payload;
    DecodePayload(d.(framing := InPayload(|payload|, [])), payload, 0, readable);
  }

  /** Any number of encoded objects back to back: the decoder returns exactly those, in order, and throws nothing. */
  lemma {:induction false} ObjectsRoundTrip(d: Decoding, payloads: seq<Payload>, readable: Readable)
    requires d.ok && d.framing == InPrefix([])
    requires forall p <- payloads :: 1 <= |p| <= MAX_LENGTH && readable(p)
    ensures DecodeFrom(d, EncodeAll(payloads), readable) == d.(objects := d.objects + payloads)
    decreases |payloads|
  {
    hide Encode;
    if payloads == [] {
      assert d.objects + payloads == d.objects;
    } else {
      assert payloads[0] in payloads;
      DecodeOne(d, payloads[0], readable);
      DecodeConcat(d, Encode(payloads[0]), EncodeAll(payloads[1..]), readable);
      ObjectsRoundTrip(d.(objects := d.objects + [payloads[0]]), payloads[1..], readable);
      assert d.objects + [payloads[0]] + payloads[1..] == d.objects + payloads;
    }
  }

  /**
   * An object comes back if and only if its payload deserializes and is not empty: the frame of an empty
   * one yields nothing, and after it, as after one that does not deserialize, every further byte throws.
   */
  lemma RoundTripsIff(d: Decoding, payload: Payload, next: Byte, readable: Readable)
    requires d.ok && d.framing == InPrefix([]) && |payload| <= MAX_LENGTH
    ensures DecodeFrom(d, Encode(payload), readable) == d.(objects := d.objects + [payload])
       <==> payload != [] && readable(payload)
    ensures payload == [] || !readable(payload) ==>
              DecodeByte(DecodeFrom(d, Encode(payload), readable).framing, next, readable).1 == Throws
  {
    hide PutInt, GetInt;
    if payload == [] {
      DecodePrefix(d, 0, readable);
      assert Encode(payload) == PutInt(0);
    } else {
      DecodeOne(d, payload, readable);
    }
  }

  // ------------------------------------------------------------------ the object

  class ObjectEncoderDecoder {
    const readable: Readable
    const lengthBuffer: array<Byte>
    var position: nat
    var objectBytes: array?<Byte>
    var objectBytesIndex: nat

    constructor (readable: Readable)
      ensures Valid() && View() == InPrefix([]) && fresh(Buffers()) && this.readable == readable
    {
      this.readable := readable;
      lengthBuffer := new Byte[4];
      position := 0;
      objectBytes := null;
      objectBytesIndex := 0;
    }

    ghost predicate Valid()
      reads this
    {
      && lengthBuffer.Length == 4 && position <= 4
      && (objectBytes != null ==>
            objectBytes != lengthBuffer && position == 0 && objectBytesIndex <= objectBytes.Length)
    }

    ghost function Buffers(): set<object>
      reads this
    {
      {lengthBuffer} + if objectBytes == null then {} else {objectBytes}
    }

    ghost function View(): Framing
      requires Valid()
      reads this, Buffers()
    {
      if objectBytes != null then InPayload(objectBytes.Length, objectBytes[..objectBytesIndex])
      else if position == 4 then Stuck
      else InPrefix(lengthBuffer[..position])
    }

    /** Every array index is in bounds by Dafny's own checks, except where the original throws. */
    method DecodeNextByte(nextByte: Byte) returns (r: Result)
      requires Valid()
      modifies this, Buffers()
      ensures Valid() && fresh(Buffers() - old(Buffers()))
      ensures (View(), r) == DecodeByte(old(View()), nextByte, readable)
    {
      if objectBytes == null {
        r := PutLength(nextByte);
      } else if objectBytesIndex >= objectBytes.Length {
        return Throws;
      } else {
        r := PutPayload(nextByte);
      }
    }

    method PutLength(nextByte: Byte) returns (r: Result)
      requires Valid() && objectBytes == null
      modifies this, lengthBuffer
      ensures Valid() && fresh(Buffers() - old(Buffers()))
      ensures (View(), r) == DecodeByte(old(View()), nextByte, readable)
    {
      hide GetInt;
      if position == 4 {
        return Throws;
      }
      ghost var before := lengthBuffer[..position];
      lengthBuffer[position] := nextByte;
      position := position + 1;
      assert lengthBuffer[..position] == before + [nextByte];
      if position < 4 {
        return Nothing;
      }
      var length := GetInt(lengthBuffer[..]);
      assert lengthBuffer[..] == before + [nextByte];
      if length < 0 {
        return Throws;
      }
      objectBytes := new Byte[length];
      objectBytesIndex := 0;
      position := 0;
      return Nothing;
    }

    method PutPayload(nextByte: Byte) returns (r: Result)
      requires Valid() && objectBytes != null && objectBytesIndex < objectBytes.Length
      modifies this, objectBytes
      ensures Valid() && Buffers() <= old(Buffers())
      ensures (View(), r) == DecodeByte(old(View()), nextByte, readable)
    {
      ghost var before := objectBytes[..objectBytesIndex];
      objectBytes[objectBytesIndex] := nextByte;
      objectBytesIndex := objectBytesIndex + 1;
      assert objectBytes[..objectBytesIndex] == before + [nextByte];
      if objectBytesIndex == objectBytes.Length {
        assert objectBytes[..] == objectBytes[..objectBytesIndex];
        if !readable(objectBytes[..]) {
          return Throws;
        }
        r := Object(objectBytes[..]);
        objectBytes := null;
        assert lengthBuffer[..0] == [];
        return;
      }
      return Nothing;
    }

    /** Four zero bytes first, then the object, then the length over the zeros. */
    static method SerializeObject(payload: Payload) returns (result: array<Byte>)
      requires |payload| <= MAX_LENGTH
      ensures fresh(result) && result[..] == Encode(payload)
    {
      result := new Byte[4 + |payload|](i requires 0 <= i < 4 + |payload| => if i < 4 then 0 else payload[i - 4]);
      var length := PutInt(result.Length - 4);
      var i := 0;
      while i < 4
        invariant 0 <= i <= 4
        invariant forall k | 0 <= k < i :: result[k] == length[k]
        invariant forall k | 4 <= k < result.Length :: result[k] == payload[k - 4]
      {
        result[i] := length[i];
        i := i + 1;
      }
    }
  }
}
