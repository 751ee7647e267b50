/** Types shared by every component: optional values, results, the key of one
    log partition, and the machine integer limits that the source relies on. */
module Basics {

  datatype Option<+T> = None | Some(value: T)

  datatype Result<+T, +E> = Ok(value: T) | Err(error: E)

  datatype TopicPartition = TopicPartition(topic: string, partition: int)

  const I64_MAX: int := 0x7fff_ffff_ffff_ffff
  const U64_MAX: nat := 0xffff_ffff_ffff_ffff
  const USIZE_MAX: nat := 0xffff_ffff_ffff_ffff

  /** A 64-bit `usize`. */
  type usize = n: nat | n <= USIZE_MAX

  function Min(a: int, b: int): int {
    if a <= b then a else b
  }

  function Max(a: int, b: int): int {
    if a <= b then b else a
  }

  function MaxReal(a: real, b: real): real {
    if a <= b then b else a
  }

  /** `a.saturating_add(b)` in a type whose largest value is `limit`. */
  function SaturatingAdd(a: nat, b: nat, limit: nat): nat {
    Min(a + b, limit)
  }

  /** `a.saturating_mul(b)` in a type whose largest value is `limit`. */
  function SaturatingMul(a: nat, b: nat, limit: nat): nat {
    Min(a * b, limit)
  }

  /** Unsigned `a.saturating_sub(b)`. */
  function SaturatingSub(a: nat, b: nat): nat {
    Max(a - b, 0)
  }

  function Pow2(n: nat): (p: nat)
    ensures p >= 1
  {
    if n == 0 then 1 else 2 * Pow2(n - 1)
  }

  lemma {:induction false} Pow2Monotone(a: nat, b: nat)
    requires a <= b
    ensures Pow2(a) <= Pow2(b)
    decreases b
  {
    if a < b {
      Pow2Monotone(a, b - 1);
    }
  }

  function Sum(s: seq<nat>): nat {
    if s == [] then 0 else Sum(s[..|s| - 1]) + s[|s| - 1]
  }

  /** How many elements satisfy `p`. */
  function CountIf<T>(s: seq<T>, p: T -> bool): nat {
    if s == [] then 0 else CountIf(s[..|s| - 1], p) + if p(s[|s| - 1]) then 1 else 0
  }

  lemma {:induction false} CountIfConcat<T>(a: seq<T>, b: seq<T>, p: T -> bool)
    ensures CountIf(a + b, p) == CountIf(a, p) + CountIf(b, p)
    decreases |b|
  {
    if b == [] {
      assert a + b == a;
    } else {
      assert (a + b)[..|a + b| - 1] == a + b[..|b| - 1];
      CountIfConcat(a, b[..|b| - 1], p);
    }
  }

  /** No value occurs twice. */
  ghost predicate Distinct<T>(s: seq<T>) {
    forall i, j :: 0 <= i < j < |s| ==> s[i] != s[j]
  }

  /** One visiting order of a hash map or set: every key once. */
  ghost predicate Enumerates<K(!new)>(order: seq<K>, keys: set<K>) {
    Distinct(order) && (forall k :: k in order <==> k in keys)
  }

  function Elements<T>(s: seq<T>): set<T> {
    set x | x in s
  }

  lemma ElementsSplit<K>(order: seq<K>)
    requires order != [] && Distinct(order)
    ensures var front, last := order[..|order| - 1], order[|order| - 1];
      Elements(order) == Elements(front) + {last} && last !in Elements(front)
  {
    assert order == order[..|order| - 1] + [order[|order| - 1]];
  }

  lemma ConcatAssociates<T>(a: seq<T>, b: seq<T>, c: seq<T>)
    ensures (a + b) + c == a + (b + c)
  {
  }
}
