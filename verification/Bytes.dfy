/** Bytes, results and the few sequence facts every component shares. */
module Bytes {

  /** An unsigned 8-bit value. Masks and shifts are written as `%` and `/` by powers of two. */
  type byte = b: int | 0 <= b < 256

  datatype Option<+T> = None | Some(value: T)

  datatype Result<+T, +E> = Ok(value: T) | Err(error: E)

  /** Stated once, because the solver does not apply it unprompted inside larger proofs. */
  lemma {:induction false} Assoc<T>(a: seq<T>, b: seq<T>, c: seq<T>)
    ensures (a + b) + c == a + (b + c)
  {
  }

  lemma {:induction false} TakeDrop<T>(a: seq<T>, b: seq<T>)
    ensures (a + b)[..|a|] == a && (a + b)[|a|..] == b
  {
  }

  lemma {:induction false} DropConcat<T>(a: seq<T>, b: seq<T>, k: nat)
    requires k <= |a|
    ensures (a + b)[k..] == a[k..] + b
  {
  }

  lemma {:induction false} SplitLast<T>(s: seq<T>)
    requires s != []
    ensures s == s[..|s| - 1] + [s[|s| - 1]]
  {
  }

  lemma {:induction false} InitConcat<T>(a: seq<T>, b: seq<T>)
    requires b != []
    ensures (a + b)[..|a + b| - 1] == a + b[..|b| - 1] && (a + b)[|a + b| - 1] == b[|b| - 1]
  {
  }

  lemma {:induction false} SliceInFront<T>(a: seq<T>, b: seq<T>, i: nat, j: nat)
    requires i <= j <= |a|
    ensures (a + b)[i..j] == a[i..j]
  {
  }

  lemma {:induction false} PrefixSplit<T>(p: seq<T>, s: seq<T>)
    requires p <= s
    ensures s == p + s[|p|..]
  {
  }

  /** The elements of a list of lists, in order. */
  function Flatten<T>(parts: seq<seq<T>>): seq<T> {
    if parts == [] then [] else parts[0] + Flatten(parts[1..])
  }

  lemma {:induction false} FlattenConcat<T>(a: seq<seq<T>>, b: seq<seq<T>>)
    ensures Flatten(a + b) == Flatten(a) + Flatten(b)
  {
    if a == [] {
      assert a + b == b;
    } else {
      assert (a + b)[1..] == a[1..] + b;
      FlattenConcat(a[1..], b);
    }
  }

  lemma {:induction false} FlattenSnoc<T>(a: seq<seq<T>>, last: seq<T>)
    ensures Flatten(a + [last]) == Flatten(a) + last
  {
    FlattenConcat(a, [last]);
    assert Flatten([last]) == last + Flatten([]);
  }

  /** A name as it stands in a file, one byte per character. */
  function Named(name: string): (bytes: seq<byte>)
    ensures |bytes| == |name|
  {
    seq(|name|, i requires 0 <= i < |name| => if name[i] as int < 256 then name[i] as int else 0)
  }

  function Zeros(n: nat): (z: seq<byte>)
    ensures |z| == n && forall i :: 0 <= i < n ==> z[i] == 0
  {
    seq(n, _ => 0)
  }

  /** The position of the first zero from `at` on, or the end. */
  function NextZero(data: seq<byte>, at: nat): (p: nat)
    requires at <= |data|
    ensures at <= p <= |data|
    ensures forall i :: at <= i < p ==> data[i] != 0
    ensures p < |data| ==> data[p] == 0
    decreases |data| - at
  {
    if at == |data| || data[at] == 0 then at else NextZero(data, at + 1)
  }

  lemma {:induction false} NextZeroIs(data: seq<byte>, at: nat, end: nat)
    requires at <= end < |data| && data[end] == 0 && forall i :: at <= i < end ==> data[i] != 0
    ensures NextZero(data, at) == end
    decreases end - at
  {
    if at < end {
      NextZeroIs(data, at + 1, end);
    }
  }

  /** `part` lies in `s` at position `at`. */
  predicate HoldsAt<T(==)>(s: seq<T>, at: nat, part: seq<T>) {
    at + |part| <= |s| && s[at..at + |part|] == part
  }

  lemma {:induction false} SubSlice<T>(s: seq<T>, at: nat, part: seq<T>, k: nat, n: nat)
    requires HoldsAt(s, at, part) && k + n <= |part|
    ensures HoldsAt(s, at + k, part[k..k + n])
  {
    var a := s[at + k..at + k + n];
    forall i | 0 <= i < n ensures a[i] == part[k..k + n][i] {
      assert s[at..at + |part|][k + i] == s[at + k + i];
    }
    assert a == part[k..k + n];
  }
}
