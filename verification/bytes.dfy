/** Byte buffers, fixed-width integers and the flattening of chunked
    sequences, shared by the vertex, index and texture modules. */
module Bytes {

  type byte = bv8

  /** Rust's `u32`. */
  type u32 = x: int | 0 <= x < 0x1_0000_0000

  /** Rust's `x as u32` on a wider unsigned value: keeps the low 32 bits. */
  function TruncU32(x: nat): (r: u32)
    ensures x < 0x1_0000_0000 ==> r == x
    ensures (r - x) % 0x1_0000_0000 == 0
  {
    x % 0x1_0000_0000
  }

  /** Position of item `j` of chunk `i` when chunks are `w` long. */
  function SlotIndex(i: nat, w: nat, j: nat): (r: nat)
    ensures r == i * w + j
  {
    NatMul(i, w);
    i * w + j
  }

  lemma NatMul(a: nat, b: nat)
    ensures a * b >= 0
  {
  }

  lemma MulMonotone(a: int, b: int, s: nat)
    requires a <= b
    ensures a * s <= b * s
  {
  }

  /** `n` chunks of `size` bytes split back into exactly `n` chunks with
      nothing left over, which is what `chunks_exact(size)` yields. */
  lemma ChunkCount(n: nat, size: nat)
    requires size > 0
    ensures (n * size) / size == n
    ensures (n * size) % size == 0
  {
    var q := (n * size) / size;
    var r := (n * size) % size;
    assert q * size + r == n * size;
    if q < n {
      MulMonotone(q + 1, n, size);
      assert false;
    } else if q > n {
      MulMonotone(n + 1, q, size);
      assert false;
    }
  }

  /** `vec![0; n]`. */
  function Zeros(n: nat): (r: seq<byte>)
    ensures |r| == n
    ensures forall i :: 0 <= i < n ==> r[i] == 0
  {
    seq(n, _ => 0)
  }

  lemma ZerosDrop(n: nat, m: nat)
    requires m <= n
    ensures Zeros(n)[m..] == Zeros(n - m)
  {
  }

  /** Concatenation of all chunks, in order. */
  function Flatten<T>(chunks: seq<seq<T>>): seq<T>
  {
    if |chunks| == 0 then [] else chunks[0] + Flatten(chunks[1..])
  }

  /** `s` with the slice `at..at + |c|` overwritten by `c` (Rust's
      `s[at..at + c.len()].copy_from_slice(c)`). */
  function Splice<T>(s: seq<T>, at: nat, c: seq<T>): (r: seq<T>)
    requires at + |c| <= |s|
    ensures |r| == |s|
    ensures forall k :: 0 <= k < |s| ==> r[k] == if at <= k < at + |c| then c[k - at] else s[k]
  {
    s[..at] + c + s[at + |c|..]
  }

  /** Every chunk has length `w`. */
  ghost predicate Uniform<T>(chunks: seq<seq<T>>, w: nat)
  {
    forall i :: 0 <= i < |chunks| ==> |chunks[i]| == w
  }

  lemma {:induction false} FlattenConcat<T>(a: seq<seq<T>>, b: seq<seq<T>>)
    ensures Flatten(a + b) == Flatten(a) + Flatten(b)
    decreases |a|
  {
    if |a| == 0 {
      assert a + b == b;
    } else {
      assert (a + b)[1..] == a[1..] + b;
      FlattenConcat(a[1..], b);
    }
  }

  lemma FlattenAppend<T>(a: seq<seq<T>>, x: seq<T>)
    ensures Flatten(a + [x]) == Flatten(a) + x
  {
    FlattenConcat(a, [x]);
    assert Flatten([x]) == x + Flatten([x][1..]);
    assert [x][1..] == [];
  }

  lemma {:induction false} FlattenUniformLength<T>(chunks: seq<seq<T>>, w: nat)
    requires Uniform(chunks, w)
    ensures |Flatten(chunks)| == |chunks| * w
    decreases |chunks|
  {
    if |chunks| > 0 {
      FlattenUniformLength(chunks[1..], w);
      assert |chunks| * w == w + (|chunks| - 1) * w;
    }
  }

  /** With uniform chunks, chunk `i` starts at `i * w`. */
  lemma FlattenUniformSplit<T>(chunks: seq<seq<T>>, w: nat, i: nat)
    requires Uniform(chunks, w)
    requires i < |chunks|
    ensures |Flatten(chunks[..i])| == i * w
    ensures Flatten(chunks) == Flatten(chunks[..i]) + chunks[i] + Flatten(chunks[i + 1..])
  {
    assert chunks == (chunks[..i] + [chunks[i]]) + chunks[i + 1..];
    FlattenConcat(chunks[..i] + [chunks[i]], chunks[i + 1..]);
    FlattenAppend(chunks[..i], chunks[i]);
    FlattenUniformLength(chunks[..i], w);
  }

  lemma FlattenUniformChunk<T>(chunks: seq<seq<T>>, w: nat, i: nat)
    requires Uniform(chunks, w)
    requires i < |chunks|
    ensures i * w + w <= |Flatten(chunks)|
    ensures Flatten(chunks)[i * w .. i * w + w] == chunks[i]
  {
    FlattenUniformSplit(chunks, w, i);
  }

  lemma FlattenUniformAt<T>(chunks: seq<seq<T>>, w: nat, i: nat, j: nat)
    requires Uniform(chunks, w)
    requires i < |chunks| && j < w
    ensures i * w + j < |Flatten(chunks)|
    ensures Flatten(chunks)[i * w + j] == chunks[i][j]
  {
    FlattenUniformSplit(chunks, w, i);
  }

  /** Overwriting bytes inside chunk `i` of a flattened uniform sequence is
      the same as overwriting them in the chunk and flattening again. */
  lemma FlattenUniformSplice<T>(chunks: seq<seq<T>>, w: nat, i: nat, off: nat, c: seq<T>)
    requires Uniform(chunks, w)
    requires i < |chunks| && off + |c| <= w
    ensures i * w + off + |c| <= |Flatten(chunks)|
    ensures Splice(Flatten(chunks), i * w + off, c) == Flatten(chunks[i := Splice(chunks[i], off, c)])
  {
    var row := Splice(chunks[i], off, c);
    var chunks' := chunks[i := row];
    assert Uniform(chunks', w);
    FlattenUniformSplit(chunks, w, i);
    FlattenUniformSplit(chunks', w, i);
    assert chunks'[..i] == chunks[..i];
    assert chunks'[i + 1..] == chunks[i + 1..];
    var a, r, b := Flatten(chunks[..i]), chunks[i], Flatten(chunks[i + 1..]);
    SpliceMiddle(a, r, b, off, c);
  }

  /** Writing `c` right after a prefix `a` replaces the start of `b`. */
  lemma SpliceAfter<T>(a: seq<T>, b: seq<T>, c: seq<T>)
    requires |c| <= |b|
    ensures Splice(a + b, |a|, c) == a + c + b[|c|..]
  {
    assert (a + b)[..|a|] == a;
    assert (a + b)[|a| + |c|..] == b[|c|..];
  }

  lemma SpliceMiddle<T>(a: seq<T>, r: seq<T>, b: seq<T>, off: nat, c: seq<T>)
    requires off + |c| <= |r|
    ensures Splice(a + r + b, |a| + off, c) == a + Splice(r, off, c) + b
  {
    var f := a + r + b;
    assert f[..|a| + off] == a + r[..off];
    assert f[|a| + off + |c|..] == r[off + |c|..] + b;
  }

  /** `vec![0; n * w]` is `n` zero chunks of width `w`. */
  lemma {:induction false} FlattenZeros(n: nat, w: nat)
    ensures Flatten(seq(n, _ => Zeros(w))) == Zeros(n * w)
    decreases n
  {
    if n > 0 {
      var rows := seq(n, _ => Zeros(w));
      assert rows[1..] == seq(n - 1, _ => Zeros(w));
      FlattenZeros(n - 1, w);
      assert n * w == w + (n - 1) * w;
      assert Zeros(w) + Zeros((n - 1) * w) == Zeros(n * w);
    }
  }
}
