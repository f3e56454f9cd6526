/** The vertex assembly that both `GeometryData` implementations share, over
    their attribute streams taken in iteration order: the vertex-count check,
    the cumulative attribute offsets, the attribute-major to vertex-major
    interleaving loop and the vertex-attribute layout built from the same
    offsets. */
module Interleave {
  import opened Bytes
  import opened Wrappers
  import Formats
  import opened Vertex

  /** Sum of the element sizes of all streams: the stride the streams need. */
  function SumSizes(vs: seq<VertexValues>): nat
  {
    if |vs| == 0 then 0 else SumSizes(vs[..|vs| - 1]) + AttributeSize(vs[|vs| - 1])
  }

  /** Byte offset of attribute `k` inside a vertex: the sizes of the
      attributes before it. */
  function Offset(vs: seq<VertexValues>, k: nat): nat
    requires k <= |vs|
  {
    SumSizes(vs[..k])
  }

  lemma OffsetNext(vs: seq<VertexValues>, k: nat)
    requires k < |vs|
    ensures Offset(vs, k + 1) == Offset(vs, k) + AttributeSize(vs[k])
  {
    assert vs[..k + 1][..k] == vs[..k];
  }

  lemma {:induction false} OffsetBounded(vs: seq<VertexValues>, k: nat)
    requires k <= |vs|
    ensures Offset(vs, k) <= SumSizes(vs)
    decreases |vs| - k
  {
    if k < |vs| {
      OffsetNext(vs, k);
      OffsetBounded(vs, k + 1);
    } else {
      assert vs[..k] == vs;
    }
  }

  /** Dropping the first stream shifts every later offset by its size. */
  lemma {:induction false} OffsetTail(vs: seq<VertexValues>, k: nat)
    requires 0 < |vs| && k < |vs|
    ensures Offset(vs, k + 1) == AttributeSize(vs[0]) + Offset(vs[1..], k)
    decreases k
  {
    if k == 0 {
      assert vs[..1][..0] == [];
      assert vs[1..][..0] == [];
    } else {
      OffsetNext(vs, k);
      OffsetTail(vs, k - 1);
      OffsetNext(vs[1..], k - 1);
    }
  }

  lemma SumSizesAppend(vs: seq<VertexValues>, v: VertexValues)
    ensures SumSizes(vs + [v]) == SumSizes(vs) + AttributeSize(v)
  {
    assert (vs + [v])[..|vs|] == vs;
  }

  /** Every stream holds exactly `n` elements. */
  ghost predicate SameLen(vs: seq<VertexValues>, n: nat)
  {
    forall a :: 0 <= a < |vs| ==> Len(vs[a]) == n
  }

  /** All streams agree on their element count. */
  ghost predicate Consistent(vs: seq<VertexValues>)
  {
    forall a, b :: 0 <= a < |vs| && 0 <= b < |vs| ==> Len(vs[a]) == Len(vs[b])
  }

  /** The body of `compute_vertex_count` from iteration `i` on, with
      `previous` the count seen so far; a failed `assert_eq!` is `Err(i)`. */
  function CountFrom(vs: seq<VertexValues>, i: nat, previous: Option<nat>): (r: Result<nat, nat>)
    requires i <= |vs|
    requires i == 0 <==> previous.None?
    requires previous.Some? ==> previous.value == Len(vs[i - 1]) && SameLen(vs[..i], previous.value)
    ensures r.Ok? <==> Consistent(vs)
    ensures r.Ok? && |vs| == 0 ==> r.value == 0
    ensures r.Ok? && |vs| > 0 ==> SameLen(vs, r.value)
    ensures r.Err? ==> i <= r.error < |vs|
    ensures r.Err? ==> 0 < r.error && Len(vs[r.error]) != Len(vs[r.error - 1]) && SameLen(vs[..r.error], Len(vs[0]))
    decreases |vs| - i
  {
    if i == |vs| then
      assert vs[..i] == vs;
      Ok(previous.GetOr(0))
    else if previous.Some? && previous.value != Len(vs[i]) then
      assert vs[..i][0] == vs[0];
      Err(i)
    else
      assert forall a :: 0 <= a < i + 1 ==> vs[..i + 1][a] == vs[a];
      CountFrom(vs, i + 1, Some(Len(vs[i])))
  }

  /** `compute_vertex_count`: the common element count of the streams (0 when
      there are none), or the index of the first stream whose count differs
      from its predecessor's, where the source panics. */
  function VertexCount(vs: seq<VertexValues>): (r: Result<nat, nat>)
    ensures r.Ok? <==> Consistent(vs)
    ensures |vs| == 0 ==> r == Ok(0)
    ensures r.Ok? ==> SameLen(vs, r.value)
    ensures r.Ok? && |vs| > 0 ==> r.value == Len(vs[0])
    ensures r.Err? ==> 0 < r.error < |vs| && Len(vs[r.error]) != Len(vs[r.error - 1])
    ensures r.Err? ==> SameLen(vs[..r.error], Len(vs[0]))
  {
    CountFrom(vs, 0, None)
  }

  /** Bytes of vertex `i` contributed by attributes `0..k`, in order. */
  function Row(vs: seq<VertexValues>, k: nat, i: nat): (r: seq<byte>)
    requires k <= |vs|
    requires forall a :: 0 <= a < k ==> i < Len(vs[a])
    ensures |r| == Offset(vs, k)
  {
    if k == 0 then [] else
      OffsetNext(vs, k - 1);
      Row(vs, k - 1, i) + ElementBytes(vs[k - 1], i)
  }

  /** Inside the row, attribute `a` of vertex `i` sits at `Offset(vs, a)`. */
  lemma {:induction false} RowAt(vs: seq<VertexValues>, k: nat, i: nat, a: nat, j: nat)
    requires k <= |vs|
    requires forall b :: 0 <= b < k ==> i < Len(vs[b])
    requires a < k && j < AttributeSize(vs[a])
    ensures Offset(vs, a) + j < |Row(vs, k, i)|
    ensures Row(vs, k, i)[Offset(vs, a) + j] == ElementBytes(vs[a], i)[j]
    decreases k
  {
    OffsetNext(vs, a);
    OffsetBounded(vs[..k], a + 1);
    assert vs[..k][..a + 1] == vs[..a + 1];
    assert vs[..k] == vs[..k][..k];
    if a < k - 1 {
      RowAt(vs, k - 1, i, a, j);
    }
  }

  /** Vertex `i` after the first `k` attributes were written: their bytes,
      then the still-zero rest of the `vertexSize`-byte slot. */
  function PartialVertex(vs: seq<VertexValues>, vertexSize: nat, k: nat, i: nat): (r: seq<byte>)
    requires k <= |vs| && SumSizes(vs) <= vertexSize
    requires forall a :: 0 <= a < k ==> i < Len(vs[a])
    ensures |r| == vertexSize
  {
    OffsetBounded(vs, k);
    Row(vs, k, i) + Zeros(vertexSize - Offset(vs, k))
  }

  /** Writing attribute `k` of vertex `i` into its slot advances the vertex. */
  lemma PartialVertexStep(vs: seq<VertexValues>, vertexSize: nat, k: nat, i: nat)
    requires k < |vs| && SumSizes(vs) <= vertexSize
    requires forall a :: 0 <= a <= k ==> i < Len(vs[a])
    ensures Offset(vs, k) + AttributeSize(vs[k]) <= vertexSize
    ensures Splice(PartialVertex(vs, vertexSize, k, i), Offset(vs, k), ElementBytes(vs[k], i))
         == PartialVertex(vs, vertexSize, k + 1, i)
  {
    OffsetNext(vs, k);
    OffsetBounded(vs, k + 1);
    var row := Row(vs, k, i);
    var e := ElementBytes(vs[k], i);
    SpliceZeros(row, vertexSize - Offset(vs, k), e);
    assert row + e == Row(vs, k + 1, i);
  }

  /** Writing `c` just after `a` into zeros that follow it. */
  lemma SpliceZeros(a: seq<byte>, n: nat, c: seq<byte>)
    requires |c| <= n
    ensures Splice(a + Zeros(n), |a|, c) == (a + c) + Zeros(n - |c|)
  {
    SpliceAfter(a, Zeros(n), c);
    ZerosDrop(n, |c|);
  }

  /** The reference vertex-major layout: `vertexCount` slots of `vertexSize`
      bytes, slot `i` holding the `i`-th element of every stream in stream
      order, zero-filled after the last stream. */
  function VertexMajor(vs: seq<VertexValues>, vertexSize: nat, vertexCount: nat): seq<byte>
    requires SameLen(vs, vertexCount) && SumSizes(vs) <= vertexSize
  {
    Flatten(Slots(vs, vertexSize, vertexCount))
  }

  /** The finished vertex slots, one per vertex. */
  function Slots(vs: seq<VertexValues>, vertexSize: nat, vertexCount: nat): (r: seq<seq<byte>>)
    requires SameLen(vs, vertexCount) && SumSizes(vs) <= vertexSize
    ensures |r| == vertexCount && Uniform(r, vertexSize)
    ensures forall i :: 0 <= i < vertexCount ==> r[i] == PartialVertex(vs, vertexSize, |vs|, i)
  {
    seq(vertexCount, i requires 0 <= i < vertexCount => PartialVertex(vs, vertexSize, |vs|, i))
  }

  /** The buffer's slots while stream `k` is being copied: vertices before
      `index` already hold stream `k`, the others do not yet. */
  function Stage(vs: seq<VertexValues>, vertexSize: nat, vertexCount: nat, k: nat, index: nat): (r: seq<seq<byte>>)
    requires SameLen(vs, vertexCount) && SumSizes(vs) <= vertexSize
    requires k < |vs|
    ensures |r| == vertexCount && Uniform(r, vertexSize)
  {
    seq(vertexCount, i requires 0 <= i < vertexCount =>
      if i < index then PartialVertex(vs, vertexSize, k + 1, i) else PartialVertex(vs, vertexSize, k, i))
  }

  /** Slot `index` of `vertexCount` slots of `vertexSize` bytes ends inside the buffer. */
  lemma SlotBound(index: nat, vertexCount: nat, vertexSize: nat)
    requires index < vertexCount
    ensures index * vertexSize + vertexSize <= vertexSize * vertexCount
  {
    MulMonotone(index + 1, vertexCount, vertexSize);
  }

  lemma StageUpdate(vs: seq<VertexValues>, vertexSize: nat, vertexCount: nat, k: nat, index: nat)
    requires SameLen(vs, vertexCount) && SumSizes(vs) <= vertexSize
    requires k < |vs| && index < vertexCount
    ensures Stage(vs, vertexSize, vertexCount, k, index)[index := PartialVertex(vs, vertexSize, k + 1, index)]
         == Stage(vs, vertexSize, vertexCount, k, index + 1)
  {
    var a := Stage(vs, vertexSize, vertexCount, k, index)[index := PartialVertex(vs, vertexSize, k + 1, index)];
    var b := Stage(vs, vertexSize, vertexCount, k, index + 1);
    forall i | 0 <= i < vertexCount
      ensures a[i] == b[i]
    {
      if i == index {
        assert a[i] == PartialVertex(vs, vertexSize, k + 1, i);
      } else {
        assert a[i] == Stage(vs, vertexSize, vertexCount, k, index)[i];
      }
    }
    assert |a| == |b|;
  }

  /** Copying element `index` of stream `k` advances the stage by one vertex. */
  lemma StageStep(vs: seq<VertexValues>, vertexSize: nat, vertexCount: nat, k: nat, index: nat)
    requires SameLen(vs, vertexCount) && SumSizes(vs) <= vertexSize
    requires k < |vs| && index < vertexCount
    ensures Offset(vs, k) + AttributeSize(vs[k]) <= vertexSize
    ensures index * vertexSize + vertexSize <= vertexSize * vertexCount
    ensures |Flatten(Stage(vs, vertexSize, vertexCount, k, index))| == vertexSize * vertexCount
    ensures Splice(Flatten(Stage(vs, vertexSize, vertexCount, k, index)), index * vertexSize + Offset(vs, k), ElementBytes(vs[k], index))
         == Flatten(Stage(vs, vertexSize, vertexCount, k, index + 1))
  {
    PartialVertexStep(vs, vertexSize, k, index);
    SlotBound(index, vertexCount, vertexSize);
    var slots := Stage(vs, vertexSize, vertexCount, k, index);
    FlattenUniformLength(slots, vertexSize);
    FlattenUniformSplice(slots, vertexSize, index, Offset(vs, k), ElementBytes(vs[k], index));
    StageUpdate(vs, vertexSize, vertexCount, k, index);
  }

  /** Before any vertex of the first stream is copied the buffer is zero. */
  lemma StageStart(vs: seq<VertexValues>, vertexSize: nat, vertexCount: nat)
    requires SameLen(vs, vertexCount) && SumSizes(vs) <= vertexSize
    requires 0 < |vs|
    ensures Flatten(Stage(vs, vertexSize, vertexCount, 0, 0)) == Zeros(vertexSize * vertexCount)
  {
    assert vs[..0] == [];
    forall i | 0 <= i < vertexCount
      ensures Stage(vs, vertexSize, vertexCount, 0, 0)[i] == Zeros(vertexSize)
    {
      assert Row(vs, 0, i) == [];
    }
    assert Stage(vs, vertexSize, vertexCount, 0, 0) == seq(vertexCount, _ => Zeros(vertexSize));
    FlattenZeros(vertexCount, vertexSize);
    assert vertexCount * vertexSize == vertexSize * vertexCount;
  }

  /** Once every vertex holds stream `k`, the next stream's copy begins. */
  lemma StageNext(vs: seq<VertexValues>, vertexSize: nat, vertexCount: nat, k: nat)
    requires SameLen(vs, vertexCount) && SumSizes(vs) <= vertexSize
    requires k + 1 < |vs|
    ensures Stage(vs, vertexSize, vertexCount, k, vertexCount) == Stage(vs, vertexSize, vertexCount, k + 1, 0)
  {
  }

  /** Once every vertex holds the last stream, the slots are finished. */
  lemma StageLast(vs: seq<VertexValues>, vertexSize: nat, vertexCount: nat)
    requires SameLen(vs, vertexCount) && SumSizes(vs) <= vertexSize
    requires 0 < |vs|
    ensures Stage(vs, vertexSize, vertexCount, |vs| - 1, vertexCount) == Slots(vs, vertexSize, vertexCount)
  {
  }

  /** Without streams every slot is padding. */
  lemma NoStreams(vs: seq<VertexValues>, vertexSize: nat, vertexCount: nat)
    requires |vs| == 0
    ensures VertexMajor(vs, vertexSize, vertexCount) == Zeros(vertexSize * vertexCount)
  {
    assert vs[..0] == [];
    forall i | 0 <= i < vertexCount
      ensures Slots(vs, vertexSize, vertexCount)[i] == Zeros(vertexSize)
    {
      assert Row(vs, 0, i) == [];
    }
    assert Slots(vs, vertexSize, vertexCount) == seq(vertexCount, _ => Zeros(vertexSize));
    FlattenZeros(vertexCount, vertexSize);
    assert vertexCount * vertexSize == vertexSize * vertexCount;
  }

  /** The inner loop of `create_vertex_buffer` for stream `k`: each
      `attribute_size`-byte chunk `index` of the stream's bytes is copied to
      `index * vertex_size + attribute_offset`. */
  method CopyStream(vs: seq<VertexValues>, vertexSize: nat, vertexCount: nat, k: nat, attributeOffset: nat, v0: seq<byte>)
    returns (v: seq<byte>)
    requires SameLen(vs, vertexCount) && SumSizes(vs) <= vertexSize
    requires k < |vs| && attributeOffset == Offset(vs, k)
    requires v0 == Flatten(Stage(vs, vertexSize, vertexCount, k, 0))
    ensures v == Flatten(Stage(vs, vertexSize, vertexCount, k, vertexCount))
  {
    v := v0;
    var attributeSize := AttributeSize(vs[k]);
    var bytes := GetBytes(vs[k]);
    var chunkCount := |bytes| / attributeSize;
    assert chunkCount == vertexCount by {
      assert |bytes| == vertexCount * attributeSize;
      ChunkCount(vertexCount, attributeSize);
    }
    for index := 0 to chunkCount
      invariant v == Flatten(Stage(vs, vertexSize, vertexCount, k, index))
    {
      NatMul(index, vertexSize);
      NatMul(index, attributeSize);
      var offset := index * vertexSize + attributeOffset;
      assert index * attributeSize + attributeSize <= |bytes|
          && bytes[index * attributeSize .. index * attributeSize + attributeSize] == ElementBytes(vs[k], index) by {
        GetBytesChunk(vs[k], index);
      }
      var chunk := bytes[index * attributeSize .. index * attributeSize + attributeSize];
      assert offset + |chunk| <= |v|
          && Splice(v, offset, chunk) == Flatten(Stage(vs, vertexSize, vertexCount, k, index + 1)) by {
        StageStep(vs, vertexSize, vertexCount, k, index);
      }
      v := Splice(v, offset, chunk);
    }
  }

  /** `create_vertex_buffer` without the upload: a zero-initialised buffer of
      `vertex_size * vertex_count` bytes, filled stream by stream while
      `attribute_offset` accumulates the stream sizes. */
  method InterleaveStreams(vs: seq<VertexValues>, vertexSize: nat, vertexCount: nat) returns (v: seq<byte>)
    requires SameLen(vs, vertexCount)
    requires SumSizes(vs) <= vertexSize
    ensures |v| == vertexSize * vertexCount
    ensures v == VertexMajor(vs, vertexSize, vertexCount)
  {
    var attributeOffset := 0;
    v := Zeros(vertexSize * vertexCount);
    if |vs| == 0 {
      NoStreams(vs, vertexSize, vertexCount);
      return;
    }
    StageStart(vs, vertexSize, vertexCount);
    assert vs[..0] == [];
    for k := 0 to |vs|
      invariant attributeOffset == Offset(vs, k)
      invariant k < |vs| ==> v == Flatten(Stage(vs, vertexSize, vertexCount, k, 0))
      invariant k == |vs| ==> v == Flatten(Slots(vs, vertexSize, vertexCount))
    {
      v := CopyStream(vs, vertexSize, vertexCount, k, attributeOffset, v);
      if k + 1 < |vs| {
        StageNext(vs, vertexSize, vertexCount, k);
      } else {
        StageLast(vs, vertexSize, vertexCount);
      }
      OffsetNext(vs, k);
      attributeOffset := attributeOffset + AttributeSize(vs[k]);
    }
    FlattenUniformLength(Slots(vs, vertexSize, vertexCount), vertexSize);
  }

  /** Byte `j` of attribute `k` of vertex `i` lands at
      `i * vertexSize + Offset(vs, k) + j`, and it is byte
      `i * attribute_size + j` of that stream's bytes. */
  lemma VertexMajorAt(vs: seq<VertexValues>, vertexSize: nat, vertexCount: nat, i: nat, k: nat, j: nat)
    requires SameLen(vs, vertexCount) && SumSizes(vs) <= vertexSize
    requires i < vertexCount && k < |vs| && j < AttributeSize(vs[k])
    ensures Offset(vs, k) + AttributeSize(vs[k]) <= vertexSize
    ensures SlotIndex(i, vertexSize, Offset(vs, k) + j) < |VertexMajor(vs, vertexSize, vertexCount)|
    ensures VertexMajor(vs, vertexSize, vertexCount)[SlotIndex(i, vertexSize, Offset(vs, k) + j)]
         == GetBytes(vs[k])[SlotIndex(i, AttributeSize(vs[k]), j)]
  {
    OffsetNext(vs, k);
    OffsetBounded(vs, k + 1);
    var p := SlotIndex(i, vertexSize, Offset(vs, k) + j);
    assert p < |VertexMajor(vs, vertexSize, vertexCount)|
        && VertexMajor(vs, vertexSize, vertexCount)[p] == ElementBytes(vs[k], i)[j] by {
      VertexMajorElement(vs, vertexSize, vertexCount, i, k, j);
    }
    assert SlotIndex(i, AttributeSize(vs[k]), j) < |GetBytes(vs[k])|
        && GetBytes(vs[k])[SlotIndex(i, AttributeSize(vs[k]), j)] == ElementBytes(vs[k], i)[j] by {
      GetBytesAt(vs[k], i, j);
    }
  }

  /** Byte `j` of attribute `k` of vertex `i` is byte `j` of element `i` of
      stream `k`. */
  lemma VertexMajorElement(vs: seq<VertexValues>, vertexSize: nat, vertexCount: nat, i: nat, k: nat, j: nat)
    requires SameLen(vs, vertexCount) && SumSizes(vs) <= vertexSize
    requires i < vertexCount && k < |vs| && j < AttributeSize(vs[k])
    requires Offset(vs, k) + AttributeSize(vs[k]) <= vertexSize
    ensures SlotIndex(i, vertexSize, Offset(vs, k) + j) < |VertexMajor(vs, vertexSize, vertexCount)|
    ensures VertexMajor(vs, vertexSize, vertexCount)[SlotIndex(i, vertexSize, Offset(vs, k) + j)]
         == ElementBytes(vs[k], i)[j]
  {
    var slots := Slots(vs, vertexSize, vertexCount);
    var c := Offset(vs, k) + j;
    assert SlotIndex(i, vertexSize, c) < |Flatten(slots)|
        && Flatten(slots)[SlotIndex(i, vertexSize, c)] == slots[i][c] by {
      FlattenUniformAt(slots, vertexSize, i, c);
    }
    assert slots[i][c] == ElementBytes(vs[k], i)[j] by {
      var row := Row(vs, |vs|, i);
      assert slots[i] == row + Zeros(vertexSize - Offset(vs, |vs|));
      RowAt(vs, |vs|, i, k, j);
    }
  }

  /** Bytes of a vertex slot past the last attribute stay zero. */
  lemma VertexMajorPadding(vs: seq<VertexValues>, vertexSize: nat, vertexCount: nat, i: nat, c: nat)
    requires SameLen(vs, vertexCount) && SumSizes(vs) <= vertexSize
    requires i < vertexCount && SumSizes(vs) <= c < vertexSize
    ensures i * vertexSize + c < |VertexMajor(vs, vertexSize, vertexCount)|
    ensures VertexMajor(vs, vertexSize, vertexCount)[i * vertexSize + c] == 0
  {
    FlattenUniformAt(Slots(vs, vertexSize, vertexCount), vertexSize, i, c);
    assert vs[..|vs|] == vs;
  }

  /** `wgpu::VertexAttribute`. */
  datatype VertexAttribute = VertexAttribute(format: Formats.VertexFormat, offset: nat, shaderLocation: nat)

  /** The `zip(locations).map(...)` of `create_vertex_attributes_with_locations`,
      with its running `offset` starting at `offset`. */
  function AttributesWithLocations(vs: seq<VertexValues>, locations: seq<nat>, offset: nat): (r: seq<VertexAttribute>)
    ensures |r| == if |vs| < |locations| then |vs| else |locations|
    ensures forall i :: 0 <= i < |r| ==>
      r[i] == VertexAttribute(AttributeFormat(vs[i]), offset + Offset(vs, i), locations[i])
    decreases |vs|
  {
    if |vs| == 0 || |locations| == 0 then []
    else
      var rest := AttributesWithLocations(vs[1..], locations[1..], offset + AttributeSize(vs[0]));
      forall i | 0 < i < |vs|
        ensures Offset(vs, i) == AttributeSize(vs[0]) + Offset(vs[1..], i - 1)
      {
        OffsetTail(vs, i - 1);
      }
      assert vs[..0] == [];
      [VertexAttribute(AttributeFormat(vs[0]), offset, locations[0])] + rest
  }

  /** `0, 1, ..., n - 1`. */
  function Range(n: nat): (r: seq<nat>)
    ensures |r| == n
    ensures forall i :: 0 <= i < n ==> r[i] == i
  {
    seq(n, i => i)
  }
}
