/**
  Physical layout of a column (src/ops.cpp, lines 18-20).

  A chunked column is a sequence of segments; its logical value is their
  concatenation. Every vector operation rebuilds its result from the chunks
  the kernel produced, so the chunk boundaries of a result are whatever the
  kernel chose. The model works on logical values only; this module shows
  that any re-chunking keeps the logical value, so nothing downstream can
  depend on chunk boundaries.
 */
module Chunks {

  type Chunked = seq<seq<real>>

  /** The logical column: all chunks, in order */
  function Flatten(c: Chunked): (r: seq<real>)
    ensures |r| == TotalLength(c)
  {
    if c == [] then [] else Flatten(c[..|c| - 1]) + c[|c| - 1]
  }

  function TotalLength(c: Chunked): nat
  {
    if c == [] then 0 else TotalLength(c[..|c| - 1]) + |c[|c| - 1]|
  }

  function Sum(sizes: seq<nat>): nat
  {
    if sizes == [] then 0 else sizes[0] + Sum(sizes[1..])
  }

  /** Split a logical column into chunks of the given sizes */
  function Rechunk(values: seq<real>, sizes: seq<nat>): (r: Chunked)
    requires Sum(sizes) == |values|
    ensures |r| == |sizes|
    decreases sizes
  {
    if sizes == [] then []
    else [values[..sizes[0]]] + Rechunk(values[sizes[0]..], sizes[1..])
  }

  /** Flattening distributes over the concatenation of chunk lists */
  lemma {:induction false} FlattenAppend(a: Chunked, b: Chunked)
    ensures Flatten(a + b) == Flatten(a) + Flatten(b)
    decreases |b|
  {
    if b == [] {
      assert a + b == a;
    } else {
      var b' := b[..|b| - 1];
      assert (a + b)[..|a + b| - 1] == a + b';
      FlattenAppend(a, b');
    }
  }

  /** Re-chunking changes the layout, never the logical value */
  lemma {:induction false} FlattenRechunk(values: seq<real>, sizes: seq<nat>)
    requires Sum(sizes) == |values|
    ensures Flatten(Rechunk(values, sizes)) == values
    decreases sizes
  {
    if sizes != [] {
      var k := sizes[0];
      var head, tail := values[..k], values[k..];
      var rest := Rechunk(tail, sizes[1..]);
      assert Rechunk(values, sizes) == [head] + rest;
      FlattenRechunk(tail, sizes[1..]);
      FlattenAppend([head], rest);
      assert Flatten([head]) == head by {
        assert [head][..0] == [];
        assert Flatten([head]) == Flatten([]) + head;
      }
      assert head + tail == values;
    }
  }
}
