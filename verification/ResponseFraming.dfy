/** Receiving a zero-terminated response over a stream that may cut it anywhere. */
module ResponseFraming {
  import opened Bytes
  import opened ProtoWire

  const MAX_SIZE: nat := 1024 * 1024 + 1024

  type int32 = n: int | -0x8000_0000 <= n < 0x8000_0000
  type int64 = n: int | -0x8000_0000_0000_0000 <= n < 0x8000_0000_0000_0000

  datatype Response = Response(kind: int32, result: int64, data: Option<seq<byte>>)

  const EMPTY: Response := Response(0, 0, None)

  // ---------------------------------------------------------------- decoding

  /** Varints carry 64 bits; an enum keeps the low 32 of them, both are two's complement. */
  function ToInt32(v: nat): int32 { var low := v % TWO32; if low < 0x8000_0000 then low else low - TWO32 }

  function ToInt64(v: nat): int64 {
    var low := v % TWO64;
    if low < 0x8000_0000_0000_0000 then low else low - TWO64
  }

  /** The value of a field, merged into what was decoded before. */
  function Merge(key: Key, buf: seq<byte>, so: Response): (r: Option<Item<Response>>)
    ensures r.Some? ==> r.value.used <= |buf|
  {
    if key.field == 1 || key.field == 2 then
      var v := DecodeVarint(buf, 0);
      if key.wire != 0 || v == None then None
      else Some(Item(if key.field == 1 then so.(kind := ToInt32(v.value.value))
                     else so.(result := ToInt64(v.value.value)), v.value.used))
    else if key.field == 3 then
      var n := DelimitedLength(buf);
      if key.wire != 2 || n == None then None
      else Some(Item(so.(data := Some(buf[n.value.used..n.value.used + n.value.value])), n.value.used + n.value.value))
    else
      var n := Skip(key, buf);
      if n == None then None else Some(Item(so, n.value))
  }

  /** One field, key included. */
  function DecodeField(buf: seq<byte>, so: Response): (r: Option<Item<Response>>)
    ensures r.Some? ==> 1 <= r.value.used <= |buf|
  {
    var k := DecodeKey(buf);
    if k == None then None
    else
      var m := Merge(k.value.value, buf[k.value.used..], so);
      if m == None then None else Some(Item(m.value.value, k.value.used + m.value.used))
  }

  /** All fields to the end of the buffer; None if the bytes are not a message. */
  function DecodeFrom(buf: seq<byte>, so: Response): Option<Response>
    decreases |buf|
  {
    if buf == [] then Some(so)
    else
      var f := DecodeField(buf, so);
      if f == None then None else DecodeFrom(buf[f.value.used..], f.value.value)
  }

  function Decode(buf: seq<byte>): Option<Response> { DecodeFrom(buf, EMPTY) }

  // ---------------------------------------------------------------- encoding

  function FromInt64(n: int64): nat { if n < 0 then n + TWO64 else n }

  function VarintField(key: byte, n: int64): seq<byte> {
    if n == 0 then [] else [key] + EncodeVarint(FromInt64(n))
  }

  function DataField(data: Option<seq<byte>>): seq<byte> {
    if data == None then [] else [26] + (EncodeVarint(|data.value|) + data.value)
  }

  /** Fields in order, zero scalars left out, as the schema's proto3 syntax has it. */
  function Encode(r: Response): seq<byte> {
    VarintField(8, r.kind) + (VarintField(16, r.result) + DataField(r.data))
  }

  lemma {:induction false} KeyByte(key: byte, more: seq<byte>)
    requires 8 <= key < 128 && key % 8 <= 5
    ensures DecodeKey([key] + more) == Some(Item(Key(key / 8, key % 8), 1))
  {
  }

  /** A field at the front of a buffer, by its parts. */
  lemma {:induction false} DecodeFront(key: byte, value: seq<byte>, more: seq<byte>, so: Response, merged: Response)
    requires 8 <= key < 128 && key % 8 <= 5
    requires Merge(Key(key / 8, key % 8), value + more, so) == Some(Item(merged, |value|))
    ensures DecodeFrom([key] + value + more, so) == DecodeFrom(more, merged)
  {
    var buf := [key] + value + more;
    Assoc([key], value, more);
    KeyByte(key, value + more);
    TakeDrop([key], value + more);
    TakeDrop([key] + value, more);
  }

  lemma {:induction false} SignedRoundTrip(n: int64)
    ensures FromInt64(n) < TWO64 && ToInt64(FromInt64(n)) == n
    ensures -0x8000_0000 <= n < 0x8000_0000 ==> ToInt32(FromInt64(n)) == n
  {
    if -0x8000_0000 <= n < 0 {
      assert FromInt64(n) == TWO32 * 0xFFFF_FFFF + (n + TWO32);
    }
  }

  lemma {:induction false} DecodeKind(kind: int32, more: seq<byte>, so: Response)
    requires so.kind == 0
    ensures DecodeFrom(VarintField(8, kind) + more, so) == DecodeFrom(more, so.(kind := kind))
  {
    if kind == 0 {
      assert [] + more == more;
    } else {
      SignedRoundTrip(kind);
      LimitIsTwo64();
      VarintRoundTrip(FromInt64(kind), 0, more);
      DecodeFront(8, EncodeVarint(FromInt64(kind)), more, so, so.(kind := kind));
    }
  }

  lemma {:induction false} DecodeResult(result: int64, more: seq<byte>, so: Response)
    requires so.result == 0
    ensures DecodeFrom(VarintField(16, result) + more, so) == DecodeFrom(more, so.(result := result))
  {
    if result == 0 {
      assert [] + more == more;
    } else {
      SignedRoundTrip(result);
      LimitIsTwo64();
      VarintRoundTrip(FromInt64(result), 0, more);
      DecodeFront(16, EncodeVarint(FromInt64(result)), more, so, so.(result := result));
    }
  }

  lemma {:induction false} DecodeDataField(data: Option<seq<byte>>, so: Response)
    requires data.Some? ==> |data.value| < TWO64
    requires so.data == None
    ensures DecodeFrom(DataField(data), so) == Some(so.(data := data))
  {
    if data.Some? {
      var bytes := data.value;
      var length := EncodeVarint(|bytes|);
      LimitIsTwo64();
      VarintRoundTrip(|bytes|, 0, bytes);
      TakeDrop(length, bytes);
      var value := length + bytes;
      assert value + [] == value && [26] + value + [] == [26] + value;
      DecodeFront(26, value, [], so, so.(data := data));
    }
  }

  lemma {:induction false} ResponseRoundTrip(r: Response)
    requires r.data.Some? ==> |r.data.value| < TWO64
    ensures Decode(Encode(r)) == Some(r)
  {
    DecodeKind(r.kind, VarintField(16, r.result) + DataField(r.data), EMPTY);
    DecodeResult(r.result, DataField(r.data), EMPTY.(kind := r.kind));
    DecodeDataField(r.data, EMPTY.(kind := r.kind, result := r.result));
  }

  /** A field that the schema does not know leaves the response as it is. */
  lemma {:induction false} UnknownFieldIgnored(field: nat, wire: nat, value: seq<byte>, more: seq<byte>, so: Response)
    requires 4 <= field <= 15 && IsValue(wire, value)
    ensures DecodeFrom([field * 8 + wire] + value + more, so) == DecodeFrom(more, so)
  {
    ValueIsSkipped(field, wire, value, more);
    var key: byte := field * 8 + wire;
    assert key / 8 == field && key % 8 == wire;
    DecodeFront(key, value, more, so, so);
  }

  /** A field of the schema with another wire type than its own is an error. */
  lemma {:induction false} WrongWireType(field: nat, wire: nat, more: seq<byte>, so: Response)
    requires 1 <= field <= 3 && wire <= 5 && wire != if field == 3 then 2 else 0
    ensures DecodeFrom([field * 8 + wire] + more, so) == None
  {
    OneByteKeys(field * 8 + wire, more);
    TakeDrop([field * 8 + wire], more);
  }

  // ---------------------------------------------------------------- the terminator

  lemma {:induction false} MergePrefix(key: Key, p: seq<byte>, x: seq<byte>, so: Response)
    requires Merge(key, p, so).Some?
    ensures Merge(key, p + x, so) == Merge(key, p, so)
  {
    if key.field == 1 || key.field == 2 {
      VarintPrefix(p, x, 0);
    } else if key.field == 3 {
      DelimitedPrefix(p, x);
      var n := DelimitedLength(p).value;
      assert (p + x)[n.used..n.used + n.value] == p[n.used..n.used + n.value];
    } else {
      SkipPrefix(key, p, x);
    }
  }

  lemma {:induction false} FieldPrefix(p: seq<byte>, x: seq<byte>, so: Response)
    requires DecodeField(p, so).Some?
    ensures DecodeField(p + x, so) == DecodeField(p, so)
  {
    KeyPrefix(p, x);
    var k := DecodeKey(p).value;
    DropConcat(p, x, k.used);
    MergePrefix(k.value, p[k.used..], x, so);
  }

  /** Decoding a message and more bytes is decoding the message and going on from there. */
  lemma {:induction false} DecodeAppend(p: seq<byte>, x: seq<byte>, so: Response)
    requires DecodeFrom(p, so).Some?
    ensures DecodeFrom(p + x, so) == DecodeFrom(x, DecodeFrom(p, so).value)
    decreases |p|
  {
    if p == [] {
      assert p + x == x;
    } else {
      FieldPrefix(p, x, so);
      var f := DecodeField(p, so).value;
      DropConcat(p, x, f.used);
      DecodeAppend(p[f.used..], x, f.value);
    }
  }

  lemma {:induction false} ZeroStops(more: seq<byte>, so: Response)
    ensures DecodeFrom([0] + more, so) == None
  {
    ZeroIsNoKey(more);
  }

  /** A zero byte inside a message never ends a shorter message. */
  lemma {:induction false} FramingIsUnambiguous(message: seq<byte>, n: nat)
    requires Decode(message).Some? && n < |message| && message[n] == 0
    ensures Decode(message[..n]) == None
  {
    if DecodeFrom(message[..n], EMPTY).Some? {
      var so := DecodeFrom(message[..n], EMPTY).value;
      SplitAt(message, n);
      DecodeAppend(message[..n], [0] + message[n + 1..], EMPTY);
      ZeroStops(message[n + 1..], so);
    }
  }

  lemma {:induction false} SplitAt(s: seq<byte>, n: nat)
    requires n < |s|
    ensures s == s[..n] + ([s[n]] + s[n + 1..])
  {
  }

  // ---------------------------------------------------------------- the receive loop

  datatype ReceiveError = ConnectionClosed | MessageTooBig

  /** The buffer ends with a zero and what precedes it is a message. */
  predicate Ends<R>(decode: seq<byte> -> Option<R>, buffer: seq<byte>) {
    buffer != [] && buffer[|buffer| - 1] == 0 && decode(buffer[..|buffer| - 1]).Some?
  }

  /** What the loop returns, and the number of reads it has done by then. */
  datatype Received<+R> = Received(result: Result<R, ReceiveError>, used: nat)

  /** The loop from `buffer` on, over the data of the reads to come; an empty read means end of stream. */
  function Receive<R>(decode: seq<byte> -> Option<R>, buffer: seq<byte>, chunks: seq<seq<byte>>): Received<R>
    decreases |chunks|
  {
    if chunks == [] || chunks[0] == [] then Received(Err(ConnectionClosed), 0)
    else
      var grown := buffer + chunks[0];
      if Ends(decode, grown) then Received(Ok(decode(grown[..|grown| - 1]).value), 1)
      else if |grown| > MAX_SIZE then Received(Err(MessageTooBig), 1)
      else
        var later := Receive(decode, grown, chunks[1..]);
        Received(later.result, 1 + later.used)
  }

  function AfterReads<R>(used: nat, later: Received<R>): Received<R> { Received(later.result, used + later.used) }

  /** One turn of the loop. */
  lemma {:induction false} ReceiveTurn<R>(decode: seq<byte> -> Option<R>, buffer: seq<byte>, chunks: seq<seq<byte>>,
                                          used: nat)
    requires chunks != [] && chunks[0] != []
    ensures var grown := buffer + chunks[0];
            AfterReads(used, Receive(decode, buffer, chunks))
            == if Ends(decode, grown) then Received(Ok(decode(grown[..|grown| - 1]).value), used + 1)
               else if |grown| > MAX_SIZE then Received(Err(MessageTooBig), used + 1)
               else AfterReads(used + 1, Receive(decode, grown, chunks[1..]))
  {
  }

  /** `used` is the number of reads done. */
  method ReceiveMessage<R>(decode: seq<byte> -> Option<R>, chunks: seq<seq<byte>>)
    returns (r: Result<R, ReceiveError>, used: nat)
    ensures Received(r, used) == Receive(decode, [], chunks)
    ensures used <= |chunks|
    ensures r.Ok? ==> used > 0 && Ends(decode, Flatten(chunks[..used]))
    ensures r.Ok? ==> forall k :: 0 <= k < used ==> !Ends(decode, Flatten(chunks[..k]))
  {
    var buffer: seq<byte> := [];
    used := 0;
    ghost var whole := Receive(decode, [], chunks);
    while true
      invariant used <= |chunks| && buffer == Flatten(chunks[..used])
      invariant whole == AfterReads(used, Receive(decode, buffer, chunks[used..]))
      invariant forall k :: 0 <= k <= used ==> !Ends(decode, Flatten(chunks[..k]))
      decreases |chunks| - used
    {
      if used == |chunks| || chunks[used] == [] {
        return Err(ConnectionClosed), used;
      }
      NextChunk(chunks, used);
      ReceiveTurn(decode, buffer, chunks[used..], used);
      buffer := buffer + chunks[used];
      used := used + 1;
      if buffer[|buffer| - 1] == 0 {
        var response := decode(buffer[..|buffer| - 1]);
        if response.Some? {
          return Ok(response.value), used;
        }
      }
      assert !Ends(decode, buffer);
      if |buffer| > MAX_SIZE {
        return Err(MessageTooBig), used;
      }
    }
  }

  lemma {:induction false} NextChunk(chunks: seq<seq<byte>>, used: nat)
    requires used < |chunks|
    ensures Flatten(chunks[..used + 1]) == Flatten(chunks[..used]) + chunks[used]
    ensures chunks[used..][0] == chunks[used] && chunks[used..][1..] == chunks[used + 1..]
  {
    assert chunks[..used + 1] == chunks[..used] + [chunks[used]];
    FlattenSnoc(chunks[..used], chunks[used]);
  }

  lemma {:induction false} ProperPrefix(a: seq<byte>, b: seq<byte>, message: seq<byte>)
    requires a + b == message + [0] && b != []
    ensures |a| <= |message| && a == message[..|a|]
  {
    assert |a + b| == |message| + 1;
    assert a == (a + b)[..|a|];
  }

  /** No zero byte of the message ends a shorter one. */
  predicate Unambiguous<R>(decode: seq<byte> -> Option<R>, message: seq<byte>) {
    forall n :: 0 <= n < |message| && message[n] == 0 ==> decode(message[..n]) == None
  }

  lemma {:induction false} EarlierReads<R>(decode: seq<byte> -> Option<R>, message: seq<byte>, grown: seq<byte>)
    requires Unambiguous(decode, message) && grown != [] && |grown| <= |message| && grown == message[..|grown|]
    ensures !Ends(decode, grown)
  {
    assert grown[..|grown| - 1] == message[..|grown| - 1];
  }

  /** The reads before the last one keep within the limit. */
  predicate WithinLimit(buffer: seq<byte>, chunks: seq<seq<byte>>)
    requires chunks != []
  {
    |chunks| == 1 || |buffer| + |Flatten(chunks[..|chunks| - 1])| <= MAX_SIZE
  }

  /**
   * For every way to cut a terminated message into non-empty reads: the loop returns the message,
   * and has then done all the reads, if the reads before the last keep within the limit, and
   * refuses it otherwise.
   */
  lemma {:induction false} ReceiveAnyCut<R>(decode: seq<byte> -> Option<R>, message: seq<byte>, buffer: seq<byte>,
                                            chunks: seq<seq<byte>>)
    requires decode(message).Some? && Unambiguous(decode, message)
    requires chunks != [] && forall i :: 0 <= i < |chunks| ==> chunks[i] != []
    requires buffer + Flatten(chunks) == message + [0]
    ensures var received := Receive(decode, buffer, chunks);
            if WithinLimit(buffer, chunks) then received == Received(Ok(decode(message).value), |chunks|)
            else received.result == Err(MessageTooBig) && received.used < |chunks|
    decreases |chunks|
  {
    var grown, later := buffer + chunks[0], chunks[1..];
    Assoc(buffer, chunks[0], Flatten(later));
    if |chunks| == 1 {
      assert grown + [] == grown;
      TakeDrop(message, [0]);
    } else {
      assert Flatten(later) == later[0] + Flatten(later[1..]);
      ProperPrefix(grown, Flatten(later), message);
      EarlierReads(decode, message, grown);
      assert chunks[..|chunks| - 1][1..] == later[..|later| - 1];
      assert Flatten(chunks[..|chunks| - 1]) == chunks[0] + Flatten(later[..|later| - 1]);
      if |grown| <= MAX_SIZE {
        ReceiveAnyCut(decode, message, grown, later);
      }
    }
  }

  /** No read before the last one ends the loop: what has arrived by then is no message. */
  lemma {:induction false} NoEarlierEnd<R>(decode: seq<byte> -> Option<R>, message: seq<byte>, chunks: seq<seq<byte>>,
                                           k: nat)
    requires Unambiguous(decode, message) && forall i :: 0 <= i < |chunks| ==> chunks[i] != []
    requires Flatten(chunks) == message + [0] && k < |chunks|
    ensures !Ends(decode, Flatten(chunks[..k]))
  {
    assert chunks == chunks[..k] + chunks[k..];
    FlattenConcat(chunks[..k], chunks[k..]);
    assert Flatten(chunks[k..]) == chunks[k] + Flatten(chunks[k..][1..]);
    ProperPrefix(Flatten(chunks[..k]), Flatten(chunks[k..]), message);
    if Flatten(chunks[..k]) != [] {
      EarlierReads(decode, message, Flatten(chunks[..k]));
    }
  }

  lemma {:induction false} ResponsesAreUnambiguous(message: seq<byte>)
    requires Decode(message).Some?
    ensures Unambiguous(Decode, message)
  {
    forall n | 0 <= n < |message| && message[n] == 0 ensures Decode(message[..n]) == None {
      FramingIsUnambiguous(message, n);
    }
  }

  /**
   * Every valid message, with its fields in any order and unknown ones among them, is recognised at
   * its last byte and at no earlier read, however the stream cuts it. It is returned exactly if
   * the reads before the last keep within the limit; so every message within the limit is.
   */
  lemma {:induction false} MessageArrives(message: seq<byte>, chunks: seq<seq<byte>>)
    requires Decode(message).Some? && Flatten(chunks) == message + [0]
    requires forall i :: 0 <= i < |chunks| ==> chunks[i] != []
    ensures chunks != [] && Ends(Decode, Flatten(chunks))
    ensures forall k :: 0 <= k < |chunks| ==> !Ends(Decode, Flatten(chunks[..k]))
    ensures var received := Receive(Decode, [], chunks);
            if WithinLimit([], chunks) then received == Received(Ok(Decode(message).value), |chunks|)
            else received.result == Err(MessageTooBig) && received.used < |chunks|
    ensures |message| <= MAX_SIZE ==> WithinLimit([], chunks)
  {
    ResponsesAreUnambiguous(message);
    assert [] + Flatten(chunks) == Flatten(chunks);
    TakeDrop(message, [0]);
    SplitLast(chunks);
    FlattenSnoc(chunks[..|chunks| - 1], chunks[|chunks| - 1]);
    forall k | 0 <= k < |chunks| ensures !Ends(Decode, Flatten(chunks[..k])) {
      NoEarlierEnd(Decode, message, chunks, k);
    }
    ReceiveAnyCut(Decode, message, [], chunks);
  }

  /** In particular the encoding of any response. */
  lemma {:induction false} ResponseArrives(r: Response, chunks: seq<seq<byte>>)
    requires r.data.Some? ==> |r.data.value| < TWO64
    requires forall i :: 0 <= i < |chunks| ==> chunks[i] != []
    requires Flatten(chunks) == Encode(r) + [0]
    ensures chunks != []
    ensures Receive(Decode, [], chunks) == Received(Ok(r), |chunks|) <==> WithinLimit([], chunks)
    ensures |Encode(r)| <= MAX_SIZE ==> WithinLimit([], chunks)
  {
    ResponseRoundTrip(r);
    MessageArrives(Encode(r), chunks);
  }

  /** A response to a read of up to one megabyte is within the limit, whatever its other fields are. */
  lemma {:induction false} FullBlockFits(r: Response)
    requires r.data.Some? ==> |r.data.value| <= 0x100000
    ensures |Encode(r)| <= MAX_SIZE
  {
    FieldLength(8, r.kind);
    FieldLength(16, r.result);
    if r.data.Some? {
      assert Pow128(2) == 128 * Pow128(1) && Pow128(3) == 128 * Pow128(2) && Pow128(1) == 128 * Pow128(0);
      VarintLength(|r.data.value|, 3);
    }
  }

  lemma {:induction false} FieldLength(key: byte, n: int64)
    ensures |VarintField(key, n)| <= 11
  {
    SignedRoundTrip(n);
    Pow128Values();
    VarintLength(FromInt64(n), 10);
  }

  lemma {:induction false} Pow128Values()
    ensures Pow128(10) >= TWO64
  {
    assert Pow128(2) == 0x4000 && Pow128(4) == 0x10000000;
    assert Pow128(5) == 128 * Pow128(4) && Pow128(6) == 128 * Pow128(5) && Pow128(7) == 128 * Pow128(6);
    assert Pow128(8) == 128 * Pow128(7) && Pow128(9) == 128 * Pow128(8) && Pow128(10) == 128 * Pow128(9);
  }

  /** So it arrives, however the stream cuts it. */
  lemma {:induction false} FullBlockArrives(r: Response, chunks: seq<seq<byte>>)
    requires r.data.Some? ==> |r.data.value| <= 0x100000
    requires forall i :: 0 <= i < |chunks| ==> chunks[i] != []
    requires Flatten(chunks) == Encode(r) + [0]
    ensures Receive(Decode, [], chunks) == Received(Ok(r), |chunks|)
  {
    FullBlockFits(r);
    ResponseArrives(r, chunks);
  }

  // ---------------------------------------------------------------- just above the limit

  const READ_SIZE: nat := 8192

  /** One megabyte of data, 1024 bytes for the rest. */
  const ACCEPTED: nat := 0x100400

  /** Reads as the loop's buffer allows them. */
  predicate Reads(chunks: seq<seq<byte>>) { forall i :: 0 <= i < |chunks| ==> 1 <= |chunks[i]| <= READ_SIZE }

  function Pieces(s: seq<byte>): seq<seq<byte>> {
    if s == [] then [] else if |s| <= READ_SIZE then [s] else [s[..READ_SIZE]] + Pieces(s[READ_SIZE..])
  }

  lemma {:induction false} PiecesAreReads(s: seq<byte>)
    ensures Reads(Pieces(s)) && Flatten(Pieces(s)) == s
    decreases |s|
  {
    if s != [] && |s| <= READ_SIZE {
      assert Flatten([s]) == s + Flatten([]);
      assert s + [] == s;
    } else if s != [] {
      PiecesAreReads(s[READ_SIZE..]);
      assert s == s[..READ_SIZE] + s[READ_SIZE..];
    }
  }

  /** Reads up to `n`, and then one for the rest. */
  lemma {:induction false} CutAt(s: seq<byte>, n: nat) returns (chunks: seq<seq<byte>>)
    requires 0 < n < |s| <= n + READ_SIZE
    ensures Reads(chunks) && Flatten(chunks) == s && |chunks| > 1 && |Flatten(chunks[..|chunks| - 1])| == n
  {
    PiecesAreReads(s[..n]);
    chunks := Pieces(s[..n]) + [s[n..]];
    FlattenSnoc(Pieces(s[..n]), s[n..]);
    TakeDrop(Pieces(s[..n]), [s[n..]]);
    assert s == s[..n] + s[n..];
  }

  /** A message just above the limit arrives with some cuts and is refused with others. */
  lemma {:induction false} CutDecides(message: seq<byte>) returns (good: seq<seq<byte>>, bad: seq<seq<byte>>)
    requires Decode(message).Some? && ACCEPTED < |message| < ACCEPTED + READ_SIZE
    ensures Reads(good) && Reads(bad) && Flatten(good) == Flatten(bad) == message + [0]
    ensures Receive(Decode, [], good).result == Ok(Decode(message).value)
    ensures Receive(Decode, [], bad).result == Err(MessageTooBig)
  {
    good := CutAt(message + [0], ACCEPTED);
    bad := CutAt(message + [0], ACCEPTED + 1);
    MessageArrives(message, good);
    MessageArrives(message, bad);
  }

  /** A message above that range never arrives. */
  lemma {:induction false} TooBigIsRefused(message: seq<byte>, chunks: seq<seq<byte>>)
    requires Decode(message).Some? && |message| >= ACCEPTED + READ_SIZE
    requires Reads(chunks) && Flatten(chunks) == message + [0]
    ensures Receive(Decode, [], chunks).result == Err(MessageTooBig)
  {
    MessageArrives(message, chunks);
    SplitLast(chunks);
    FlattenSnoc(chunks[..|chunks| - 1], chunks[|chunks| - 1]);
  }

  /** There are such messages: the response to a read of a little more than one megabyte. */
  lemma {:induction false} OversizedResponse() returns (r: Response)
    ensures r.data.Some? && |r.data.value| < TWO64
    ensures Decode(Encode(r)) == Some(r) && ACCEPTED < |Encode(r)| < ACCEPTED + READ_SIZE
  {
    var n := ACCEPTED + 1;
    r := Response(3, n, Some(Zeros(n)));
    SmallVarint(3);
    SmallVarint(n);
    ResponseRoundTrip(r);
  }

  lemma {:induction false} SmallVarint(n: nat)
    requires n < 0x200000
    ensures 1 <= |EncodeVarint(n)| <= 3
  {
    if n >= 128 && n / 128 >= 128 {
      assert n / 128 / 128 < 128;
      assert |EncodeVarint(n / 128 / 128)| == 1;
      assert |EncodeVarint(n / 128)| == 2;
    }
  }
}
