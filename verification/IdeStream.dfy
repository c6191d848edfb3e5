/** The byte stream a checkpoint is written to and read back from. */
module IdeStream {
  import opened IdeModel

  /** How many values `n` bytes can hold. */
  function Pow256(n: nat): (p: nat)
    ensures p >= 1
  {
    if n == 0 then 1 else 256 * Pow256(n - 1)
  }

  /** The `n` low bytes of a number, least significant first. */
  function Le(n: nat, v: int): (b: seq<int>)
    ensures |b| == n
  {
    if n == 0 then [] else [v % 0x100] + Le(n - 1, v / 0x100)
  }

  function FromLe(b: seq<int>): (v: int)
    ensures v >= 0
  {
    if b == [] then 0 else b[0] % 0x100 + 0x100 * FromLe(b[1..])
  }

  lemma {:induction false} LeBack(n: nat, v: int)
    requires 0 <= v < Pow256(n)
    ensures FromLe(Le(n, v)) == v
  {
    if n > 0 {
      LeBack(n - 1, v / 0x100);
      assert Le(n, v)[1..] == Le(n - 1, v / 0x100);
    }
  }

  /** An input stream; a read past its end takes what is left and makes every later read fail. */
  datatype In = In(bytes: seq<int>, good: bool)

  datatype Got<+T> = Got(value: T, left: In)

  /** Reads over `was`: the bytes a short read does not reach keep their values. */
  function ReadRaw(was: seq<int>, s: In): (g: Got<seq<int>>)
    ensures |g.value| == |was|
  {
    if !s.good then Got(was, s)
    else if |was| <= |s.bytes| then Got(s.bytes[..|was|], In(s.bytes[|was|..], true))
    else Got(s.bytes + was[|s.bytes|..], In([], false))
  }

  function ReadNum(n: nat, was: int, s: In): Got<int> {
    var g := ReadRaw(Le(n, was), s);
    Got(FromLe(g.value), g.left)
  }

  function Resize(was: seq<int>, n: nat): (r: seq<int>)
    ensures |r| == n
  {
    if n <= |was| then was[..n] else was + seq(n - |was|, _ => 0)
  }

  /** A length in `n` bytes, then that many bytes. */
  function ReadSized(n: nat, was: seq<int>, s: In): Got<seq<int>> {
    var g := ReadNum(n, 0, s);
    ReadRaw(Resize(was, g.value), g.left)
  }

  function WriteSized(n: nat, data: seq<int>, tail: seq<int>): seq<int> {
    Le(n, |data|) + (data + tail)
  }

  /** Numbers of the given widths, one after the other. */
  function WriteAll(widths: seq<nat>, values: seq<int>, tail: seq<int>): seq<int>
    requires |widths| == |values|
  {
    if widths == [] then tail else Le(widths[0], values[0]) + WriteAll(widths[1..], values[1..], tail)
  }

  function ReadAll(widths: seq<nat>, was: seq<int>, s: In): (g: Got<seq<int>>)
    requires |widths| == |was|
    ensures |g.value| == |widths|
  {
    if widths == [] then Got([], s)
    else
      var g := ReadNum(widths[0], was[0], s);
      var h := ReadAll(widths[1..], was[1..], g.left);
      Got([g.value] + h.value, h.left)
  }

  predicate Fit(widths: seq<nat>, values: seq<int>) {
    |widths| == |values| && forall k | 0 <= k < |widths| :: 0 <= values[k] < Pow256(widths[k])
  }

  lemma RawBack(was: seq<int>, data: seq<int>, tail: seq<int>)
    requires |was| == |data|
    ensures ReadRaw(was, In(data + tail, true)) == Got(data, In(tail, true))
  {
    assert (data + tail)[..|was|] == data && (data + tail)[|was|..] == tail;
  }

  lemma NumBack(n: nat, was: int, v: int, tail: seq<int>)
    requires 0 <= v < Pow256(n)
    ensures ReadNum(n, was, In(Le(n, v) + tail, true)) == Got(v, In(tail, true))
  {
    RawBack(Le(n, was), Le(n, v), tail);
    LeBack(n, v);
  }

  lemma SizedBack(n: nat, was: seq<int>, data: seq<int>, tail: seq<int>)
    requires |data| < Pow256(n)
    ensures ReadSized(n, was, In(WriteSized(n, data, tail), true)) == Got(data, In(tail, true))
  {
    NumBack(n, 0, |data|, data + tail);
    RawBack(Resize(was, |data|), data, tail);
  }

  lemma {:induction false} AllBack(widths: seq<nat>, was: seq<int>, values: seq<int>, tail: seq<int>)
    requires |widths| == |was| && Fit(widths, values)
    ensures ReadAll(widths, was, In(WriteAll(widths, values, tail), true)) == Got(values, In(tail, true))
  {
    if widths != [] {
      NumBack(widths[0], was[0], values[0], WriteAll(widths[1..], values[1..], tail));
      AllBack(widths[1..], was[1..], values[1..], tail);
      assert values == [values[0]] + values[1..];
    }
  }

  lemma {:induction false} FromLeBound(b: seq<int>)
    ensures FromLe(b) < Pow256(|b|)
  {
    if b != [] { FromLeBound(b[1..]); }
  }

  /** Whatever the stream holds, a number read in `n` bytes fits in `n` bytes. */
  lemma {:induction false} AllInRange(widths: seq<nat>, was: seq<int>, s: In)
    requires |widths| == |was|
    ensures Fit(widths, ReadAll(widths, was, s).value)
  {
    if widths != [] {
      var g := ReadNum(widths[0], was[0], s);
      FromLeBound(ReadRaw(Le(widths[0], was[0]), s).value);
      AllInRange(widths[1..], was[1..], g.left);
      hide Pow256, FromLe;
      var rest := ReadAll(widths[1..], was[1..], g.left).value;
      assert ReadAll(widths, was, s).value == [g.value] + rest;
      assert forall k | 1 <= k < |widths| :: widths[k] == widths[1..][k - 1] && ([g.value] + rest)[k] == rest[k - 1];
    }
  }

  lemma SizedInRange(n: nat, was: seq<int>, s: In)
    ensures |ReadSized(n, was, s).value| < Pow256(n)
  {
    FromLeBound(ReadRaw(Le(n, 0), s).value);
  }
}
