/** Bytes, options and the handful of sequence facts the rest of the model shares. */
module Basics {

  type byte = x: int | 0 <= x < 256

  const U16_MAX := 65535
  const U32_MAX := 4294967295
  const U64_MAX := 18446744073709551615

  datatype Option<+T> = None | Some(value: T)

  datatype Result<+T, +E> = Ok(value: T) | Err(error: E)

  function Min(a: nat, b: nat): nat { if a <= b then a else b }

  function Max(a: nat, b: nat): nat { if a <= b then b else a }

  /** `u32::saturating_add`. */
  function SaturatingAdd32(a: nat, b: nat): nat { Min(a + b, U32_MAX) }

  /** `saturating_sub` of any unsigned type. */
  function SaturatingSub(a: nat, b: nat): nat { if b <= a then a - b else 0 }

  /** Concatenation of `f` over a sequence. */
  function Flat<T, U>(f: T -> seq<U>, s: seq<T>): seq<U> {
    if s == [] then [] else f(s[0]) + Flat(f, s[1..])
  }

  lemma Associate<T>(a: seq<T>, b: seq<T>, c: seq<T>)
    ensures a + b + c == a + (b + c)
  {
  }

  lemma {:induction false} FlatAppend<T, U>(f: T -> seq<U>, a: seq<T>, b: seq<T>)
    ensures Flat(f, a + b) == Flat(f, a) + Flat(f, b)
  {
    if a == [] {
      assert a + b == b;
      assert [] + Flat(f, b) == Flat(f, b);
    } else {
      assert (a + b)[1..] == a[1..] + b && (a + b)[0] == a[0];
      FlatAppend(f, a[1..], b);
      Associate(f(a[0]), Flat(f, a[1..]), Flat(f, b));
    }
  }

  lemma FlatSnoc<T, U>(f: T -> seq<U>, s: seq<T>, x: T)
    ensures Flat(f, s + [x]) == Flat(f, s) + f(x)
  {
    FlatAppend(f, s, [x]);
    assert [x][1..] == [];
    assert Flat(f, [x]) == f(x) + Flat(f, []);
  }

  /** The indices `0..n` as a multiset: every slot of a pool, once. */
  function All(n: nat): (r: multiset<nat>)
    ensures |r| == n
    ensures forall k: nat :: r[k] == if k < n then 1 else 0
  {
    if n == 0 then multiset{} else All(n - 1) + multiset{n - 1}
  }

  /** `copy_from_slice` into part of a buffer; the rest of it stays. */
  method CopyInto(b: array<byte>, at: nat, s: seq<byte>)
    requires at + |s| <= b.Length
    modifies b
    ensures b[..] == old(b[..])[..at] + s + old(b[..])[at + |s|..]
  {
    for i := 0 to |s|
      invariant forall j :: 0 <= j < i ==> b[at + j] == s[j]
      invariant forall j :: 0 <= j < at || at + i <= j < b.Length ==> b[j] == old(b[j])
    {
      b[at + i] := s[i];
    }
    ghost var was := old(b[..]);
    assert forall j :: 0 <= j < b.Length ==> b[..][j] == (was[..at] + s + was[at + |s|..])[j];
  }
}
