/** The Protocol Buffers wire format, as far as `ServerResponse` needs it. */
module ProtoWire {
  import opened Bytes

  const TWO32: nat := 0x1_0000_0000
  const TWO64: nat := 0x1_0000_0000_0000_0000

  /** A decoded item, and how many bytes it took. */
  datatype Item<+T> = Item(value: T, used: nat)

  // ---------------------------------------------------------------- base 128 varints

  /** What may still follow `i` bytes of a varint without passing 64 bits; the tenth byte is 0 or 1. */
  function Limit(i: nat): nat
    requires i <= 9
    decreases 9 - i
  {
    if i == 9 then 2 else 128 * Limit(i + 1)
  }

  function DecodeVarint(buf: seq<byte>, i: nat): (r: Option<Item<nat>>)
    requires i <= 9
    ensures r.Some? ==> 1 <= r.value.used <= |buf|
    decreases 9 - i
  {
    if buf == [] then None
    else if i == 9 then if buf[0] < 2 then Some(Item(buf[0], 1)) else None
    else if buf[0] < 128 then Some(Item(buf[0], 1))
    else
      var rest := DecodeVarint(buf[1..], i + 1);
      if rest == None then None
      else Some(Item(buf[0] - 128 + 128 * rest.value.value, 1 + rest.value.used))
  }

  lemma {:induction false} LimitIsTwo64()
    ensures Limit(0) == TWO64
  {
    assert Limit(8) == 256 && Limit(7) == 32768 && Limit(6) == 4194304 && Limit(5) == 536870912;
    assert Limit(4) == 68719476736 && Limit(3) == 8796093022208 && Limit(2) == 1125899906842624;
  }

  function EncodeVarint(n: nat): (bytes: seq<byte>)
    ensures |bytes| >= 1
  {
    if n < 128 then [n] else [128 + n % 128] + EncodeVarint(n / 128)
  }

  lemma {:induction false} VarintRoundTrip(n: nat, i: nat, more: seq<byte>)
    requires i <= 9 && n < Limit(i)
    ensures DecodeVarint(EncodeVarint(n) + more, i) == Some(Item(n, |EncodeVarint(n)|))
    decreases n
  {
    if n >= 128 {
      var tail := EncodeVarint(n / 128);
      assert (EncodeVarint(n) + more)[1..] == tail + more;
      VarintRoundTrip(n / 128, i + 1, more);
    }
  }

  /** No varint decodes to more than 64 bits. */
  lemma {:induction false} VarintFits(buf: seq<byte>, i: nat)
    requires i <= 9
    ensures DecodeVarint(buf, i).Some? ==> DecodeVarint(buf, i).value.value < Limit(i)
    decreases 9 - i
  {
    LimitPositive(i);
    if buf != [] && i < 9 && buf[0] >= 128 {
      VarintFits(buf[1..], i + 1);
    }
  }

  lemma {:induction false} LimitPositive(i: nat)
    requires i <= 9
    ensures Limit(i) >= 2 && (i < 9 ==> Limit(i) >= 256)
    decreases 9 - i
  {
    if i < 9 {
      LimitPositive(i + 1);
    }
  }

  /** An encoded varint of at most `k` times seven bits has at most `k` bytes. */
  lemma {:induction false} VarintLength(n: nat, k: nat)
    requires 1 <= k && n < Pow128(k)
    ensures 1 <= |EncodeVarint(n)| <= k
    decreases k
  {
    if n >= 128 {
      assert Pow128(1) == 128 * Pow128(0);
      VarintLength(n / 128, k - 1);
    }
  }

  function Pow128(k: nat): nat { if k == 0 then 1 else 128 * Pow128(k - 1) }

  lemma {:induction false} VarintPrefix(p: seq<byte>, x: seq<byte>, i: nat)
    requires i <= 9 && DecodeVarint(p, i).Some?
    ensures DecodeVarint(p + x, i) == DecodeVarint(p, i)
    decreases 9 - i
  {
    if i < 9 && p[0] >= 128 {
      assert (p + x)[1..] == p[1..] + x;
      VarintPrefix(p[1..], x, i + 1);
    }
  }

  // ---------------------------------------------------------------- keys

  datatype Key = Key(field: nat, wire: nat)

  /** Field number zero and wire types six and seven do not exist. */
  function DecodeKey(buf: seq<byte>): (r: Option<Item<Key>>)
    ensures r.Some? ==> 1 <= r.value.used <= |buf|
  {
    var v := DecodeVarint(buf, 0);
    if v == None || v.value.value >= TWO32 then None
    else
      var key := Key(v.value.value / 8, v.value.value % 8);
      if key.field == 0 || key.wire > 5 then None else Some(Item(key, v.value.used))
  }

  lemma {:induction false} KeyPrefix(p: seq<byte>, x: seq<byte>)
    requires DecodeKey(p).Some?
    ensures DecodeKey(p + x) == DecodeKey(p)
  {
    VarintPrefix(p, x, 0);
  }

  /** The one-byte keys. */
  lemma {:induction false} OneByteKeys(b: byte, more: seq<byte>)
    requires b < 128
    ensures DecodeKey([b] + more)
         == if b < 8 || b % 8 == 6 || b % 8 == 7 then None else Some(Item(Key(b / 8, b % 8), 1))
  {
  }

  /** A zero byte is never a key: this is what makes the terminator recognisable. */
  lemma {:induction false} ZeroIsNoKey(more: seq<byte>)
    ensures DecodeKey([0] + more) == None
  {
  }

  // ---------------------------------------------------------------- unknown fields

  /** The bytes of a length-delimited value, its length prefix included. */
  function DelimitedLength(buf: seq<byte>): (r: Option<Item<nat>>)
    ensures r.Some? ==> r.value.used + r.value.value <= |buf|
  {
    var n := DecodeVarint(buf, 0);
    if n == None || n.value.used + n.value.value > |buf| then None else n
  }

  /** The value of a field that is not a group. */
  function SkipLeaf(wire: nat, buf: seq<byte>): (r: Option<nat>)
    ensures r.Some? ==> r.value <= |buf|
  {
    if wire == 0 then
      var v := DecodeVarint(buf, 0);
      if v == None then None else Some(v.value.used)
    else if wire == 2 then
      var n := DelimitedLength(buf);
      if n == None then None else Some(n.value.used + n.value.value)
    else
      var width := if wire == 1 then 8 else 4;
      if (wire != 1 && wire != 5) || |buf| < width then None else Some(width)
  }

  /** After one item inside groups: the numbers of the groups still open, innermost last. */
  function GroupItem(open: seq<nat>, buf: seq<byte>): (r: Option<Item<seq<nat>>>)
    ensures r.Some? ==> 1 <= r.value.used <= |buf|
  {
    var k := DecodeKey(buf);
    if k == None || open == [] then None
    else
      var key, at := k.value.value, k.value.used;
      if key.wire == 3 then
        Some(Item(open + [key.field], at))
      else if key.wire == 4 then
        if key.field == open[|open| - 1] then Some(Item(open[..|open| - 1], at)) else None
      else
        var n := SkipLeaf(key.wire, buf[at..]);
        if n == None then None else Some(Item(open, at + n.value))
  }

  type GroupStep = (seq<nat>, seq<byte>) -> Option<Item<seq<nat>>>

  /** Every item takes at least one byte. */
  ghost predicate Progress(step: GroupStep) {
    forall open, buf :: step(open, buf).Some? ==> 1 <= step(open, buf).value.used <= |buf|
  }

  /** How many bytes it takes until all open groups are closed. */
  function SkipItems(step: GroupStep, open: seq<nat>, buf: seq<byte>): (r: Option<nat>)
    requires Progress(step)
    ensures r.Some? ==> r.value <= |buf|
    decreases |buf|
  {
    if open == [] then Some(0)
    else
      var item := step(open, buf);
      if item == None then None
      else
        var rest := SkipItems(step, item.value.value, buf[item.value.used..]);
        if rest == None then None else Some(item.value.used + rest.value)
  }

  function SkipGroups(open: seq<nat>, buf: seq<byte>): (r: Option<nat>)
    ensures r.Some? ==> r.value <= |buf|
  {
    SkipItems(GroupItem, open, buf)
  }

  /** How many bytes a field of unknown number takes after its key. */
  function Skip(key: Key, buf: seq<byte>): (r: Option<nat>)
    ensures r.Some? ==> r.value <= |buf|
  {
    if key.wire == 3 then SkipGroups([key.field], buf) else SkipLeaf(key.wire, buf)
  }

  /** A value that is not a group, by its wire type: a varint, 8 bytes, a length with that many bytes, or 4 bytes. */
  predicate IsValue(wire: nat, value: seq<byte>) {
    || (wire == 0 && exists n: nat :: n < TWO64 && value == EncodeVarint(n))
    || (wire == 1 && |value| == 8)
    || (wire == 2 && exists n: nat :: n <= |value| && n < TWO64 && value == EncodeVarint(n) + value[|value| - n..])
    || (wire == 5 && |value| == 4)
  }

  lemma {:induction false} SkipVarint(field: nat, n: nat, more: seq<byte>)
    requires n < TWO64
    ensures Skip(Key(field, 0), EncodeVarint(n) + more) == Some(|EncodeVarint(n)|)
  {
    LimitIsTwo64();
    VarintRoundTrip(n, 0, more);
  }

  lemma {:induction false} SkipDelimited(field: nat, data: seq<byte>, value: seq<byte>, more: seq<byte>)
    requires |data| < TWO64 && value == EncodeVarint(|data|) + data
    ensures Skip(Key(field, 2), value + more) == Some(|value|)
  {
    LimitIsTwo64();
    Assoc(EncodeVarint(|data|), data, more);
    VarintRoundTrip(|data|, 0, data + more);
  }

  /** Exactly such a value is skipped, whatever follows. */
  lemma {:induction false} ValueIsSkipped(field: nat, wire: nat, value: seq<byte>, more: seq<byte>)
    requires IsValue(wire, value)
    ensures Skip(Key(field, wire), value + more) == Some(|value|)
  {
    if wire == 0 {
      var n: nat :| n < TWO64 && value == EncodeVarint(n);
      SkipVarint(field, n, more);
    } else if wire == 2 {
      var n: nat :| n <= |value| && n < TWO64 && value == EncodeVarint(n) + value[|value| - n..];
      SkipDelimited(field, value[|value| - n..], value, more);
    }
  }

  lemma {:induction false} DelimitedPrefix(p: seq<byte>, x: seq<byte>)
    requires DelimitedLength(p).Some?
    ensures DelimitedLength(p + x) == DelimitedLength(p)
  {
    VarintPrefix(p, x, 0);
  }

  lemma {:induction false} LeafPrefix(wire: nat, p: seq<byte>, x: seq<byte>)
    requires SkipLeaf(wire, p).Some?
    ensures SkipLeaf(wire, p + x) == SkipLeaf(wire, p)
  {
    if wire == 0 {
      VarintPrefix(p, x, 0);
    } else if wire == 2 {
      DelimitedPrefix(p, x);
    }
  }

  lemma {:induction false} GroupItemPrefix(open: seq<nat>, p: seq<byte>, x: seq<byte>)
    requires GroupItem(open, p).Some?
    ensures GroupItem(open, p + x) == GroupItem(open, p)
  {
    KeyPrefix(p, x);
    var k := DecodeKey(p).value;
    if k.value.wire != 3 && k.value.wire != 4 {
      DropConcat(p, x, k.used);
      LeafPrefix(k.value.wire, p[k.used..], x);
    }
  }

  /** More bytes behind an item do not change how it is read. */
  ghost predicate Extendable(step: GroupStep, x: seq<byte>) {
    forall open, p {:trigger step(open, p + x)} :: step(open, p).Some? ==> step(open, p + x) == step(open, p)
  }

  lemma {:induction false} SkipItemsPrefix(step: GroupStep, open: seq<nat>, p: seq<byte>, x: seq<byte>)
    requires Progress(step) && Extendable(step, x) && SkipItems(step, open, p).Some?
    ensures SkipItems(step, open, p + x) == SkipItems(step, open, p)
    decreases |p|
  {
    if open != [] {
      var item := step(open, p).value;
      SkipItemsPrefix(step, item.value, p[item.used..], x);
      DropConcat(p, x, item.used);
      assert step(open, p + x) == Some(item);
    }
  }

  lemma {:induction false} SkipGroupsPrefix(open: seq<nat>, p: seq<byte>, x: seq<byte>)
    requires SkipGroups(open, p).Some?
    ensures SkipGroups(open, p + x) == SkipGroups(open, p)
  {
    forall open: seq<nat>, p: seq<byte> | GroupItem(open, p).Some?
      ensures GroupItem(open, p + x) == GroupItem(open, p)
    {
      GroupItemPrefix(open, p, x);
    }
    SkipItemsPrefix(GroupItem, open, p, x);
  }

  /** Whatever is skipped is skipped in the same way when more bytes follow. */
  lemma {:induction false} SkipPrefix(key: Key, p: seq<byte>, x: seq<byte>)
    requires Skip(key, p).Some?
    ensures Skip(key, p + x) == Skip(key, p)
  {
    if key.wire == 3 {
      SkipGroupsPrefix([key.field], p, x);
    } else {
      LeafPrefix(key.wire, p, x);
    }
  }
}
