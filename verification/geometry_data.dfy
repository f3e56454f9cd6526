/** `GeometryData` of the `render` crate: attribute streams kept in a vector
    in the order they were set, an optional index stream and the running
    `vertex_size`. */
module GeometryData {
  import opened Bytes
  import opened Wrappers
  import opened Vertex
  import Indice
  import opened Interleave

  datatype GeometryData = GeometryData(
    vertexValues: seq<VertexValues>,
    indexValues: Option<Indice.IndiceValues>,
    vertexSize: nat)

  /** What every value built by `New`, `SetAttribute` and `SetIndices`
      satisfies: `vertex_size` is the stride of the stored streams. */
  ghost predicate Valid(g: GeometryData)
  {
    g.vertexSize == SumSizes(g.vertexValues)
  }

  /** `GeometryData::new`. */
  function New(): (g: GeometryData)
    ensures Valid(g)
    ensures g.vertexValues == [] && g.indexValues.None? && g.vertexSize == 0
  {
    GeometryData([], None, 0)
  }

  /** `set_attribute`: pushes the stream and adds its element size to
      `vertex_size`. */
  function SetAttribute(g: GeometryData, values: VertexValues): (r: GeometryData)
    ensures r.vertexValues == g.vertexValues + [values]
    ensures r.vertexSize == g.vertexSize + AttributeSize(values)
    ensures r.indexValues == g.indexValues
    ensures Valid(g) ==> Valid(r)
  {
    SumSizesAppend(g.vertexValues, values);
    GeometryData(g.vertexValues + [values], g.indexValues, g.vertexSize + AttributeSize(values))
  }

  /** `set_attribute` applied to each stream in turn. */
  function SetAttributes(g: GeometryData, streams: seq<VertexValues>): GeometryData
    decreases |streams|
  {
    if |streams| == 0 then g else SetAttributes(SetAttribute(g, streams[0]), streams[1..])
  }

  /** After any sequence of `set_attribute` calls the streams are the
      earlier ones followed by the pushed ones in push order, the indices are
      untouched, and `vertex_size` is still the sum of the element sizes of
      all streams. */
  lemma {:induction false} SetAttributesSum(g: GeometryData, streams: seq<VertexValues>)
    requires Valid(g)
    ensures SetAttributes(g, streams).vertexValues == g.vertexValues + streams
    ensures SetAttributes(g, streams).indexValues == g.indexValues
    ensures Valid(SetAttributes(g, streams))
    decreases |streams|
  {
    if |streams| == 0 {
      assert g.vertexValues + streams == g.vertexValues;
    } else {
      var g' := SetAttribute(g, streams[0]);
      SetAttributesSum(g', streams[1..]);
      assert g'.vertexValues + streams[1..] == g.vertexValues + streams by {
        assert streams == [streams[0]] + streams[1..];
      }
    }
  }

  /** `set_indices`: replaces the index stream, nothing else. */
  function SetIndices(g: GeometryData, values: Option<Indice.IndiceValues>): (r: GeometryData)
    ensures r.indexValues == values
    ensures r.vertexValues == g.vertexValues && r.vertexSize == g.vertexSize
    ensures Valid(g) ==> Valid(r)
  {
    g.(indexValues := values)
  }

  /** `index_count`: absent exactly when there are no indices, otherwise the
      number of indices the index buffer holds. */
  function IndexCount(g: GeometryData): (r: Option<nat>)
    ensures r.None? <==> g.indexValues.None?
    ensures r.Some? ==> r.value * Indice.IndexSize(g.indexValues.value) == |CreateIndexBuffer(g).value|
    ensures r.Some? ==> r.value == Indice.Len(g.indexValues.value)
  {
    match g.indexValues
    case None => None
    case Some(ix) => Some(Indice.Len(ix))
  }

  /** The bytes `create_index_buffer` uploads, if there are indices. */
  function CreateIndexBuffer(g: GeometryData): (r: Option<seq<byte>>)
    ensures r.Some? <==> g.indexValues.Some?
    ensures r.Some? ==> |r.value| == Indice.Len(g.indexValues.value) * Indice.IndexSize(g.indexValues.value)
  {
    match g.indexValues
    case None => None
    case Some(ix) => Some(Indice.GetBytes(ix))
  }

  /** `compute_vertex_count`: the common stream length, 0 without streams;
      `Err(index)` where the source panics on the stream at `index`. */
  function ComputeVertexCount(g: GeometryData): (r: Result<nat, nat>)
    ensures r.Ok? <==> Consistent(g.vertexValues)
    ensures |g.vertexValues| == 0 ==> r == Ok(0)
    ensures r.Ok? ==> forall a :: 0 <= a < |g.vertexValues| ==> Len(g.vertexValues[a]) == r.value
    ensures r.Err? ==>
      0 < r.error < |g.vertexValues| && Len(g.vertexValues[r.error]) != Len(g.vertexValues[r.error - 1])
  {
    VertexCount(g.vertexValues)
  }

  /** `create_vertex_buffer` without the upload: panics as
      `compute_vertex_count` does, otherwise yields `vertex_size *
      vertex_count` bytes in which vertex `i` holds element `i` of every
      stream, in push order, at the stream's cumulative offset. */
  method CreateVertexBuffer(g: GeometryData) returns (r: Result<seq<byte>, nat>)
    requires Valid(g)
    ensures r.Err? <==> ComputeVertexCount(g).Err?
    ensures r.Err? ==> r.error == ComputeVertexCount(g).error
    ensures r.Ok? ==> |r.value| == g.vertexSize * ComputeVertexCount(g).value
    ensures r.Ok? ==> r.value == VertexMajor(g.vertexValues, g.vertexSize, ComputeVertexCount(g).value)
  {
    var count := ComputeVertexCount(g);
    if count.Err? {
      return Err(count.error);
    }
    var bytes := InterleaveStreams(g.vertexValues, g.vertexSize, count.value);
    return Ok(bytes);
  }

  /** `create_vertex_attributes_with_locations`: the streams zipped with the
      given locations, so as many attributes as the shorter of the two. */
  function CreateVertexAttributesWithLocations(g: GeometryData, locations: seq<nat>): (r: seq<VertexAttribute>)
    ensures |r| == if |g.vertexValues| < |locations| then |g.vertexValues| else |locations|
    ensures forall i :: 0 <= i < |r| ==>
      r[i] == VertexAttribute(AttributeFormat(g.vertexValues[i]), Offset(g.vertexValues, i), locations[i])
  {
    AttributesWithLocations(g.vertexValues, locations, 0)
  }

  /** `create_vertex_attributes`: stream `i` at shader location `i`, with the
      stream's format and its cumulative offset. */
  function CreateVertexAttributes(g: GeometryData): (r: seq<VertexAttribute>)
    ensures |r| == |g.vertexValues|
    ensures forall i :: 0 <= i < |r| ==>
      r[i] == VertexAttribute(AttributeFormat(g.vertexValues[i]), Offset(g.vertexValues, i), i)
  {
    CreateVertexAttributesWithLocations(g, Range(|g.vertexValues|))
  }

  /** The byte a GPU reading attribute `a` of vertex `i` fetches at byte
      `j` of the attribute: vertex `i` starts at `i * vertex_size` and the
      attribute at its layout offset. */
  function AttributeByte(g: GeometryData, n: nat, i: nat, a: nat, j: nat): byte
    requires Valid(g) && SameLen(g.vertexValues, n)
    requires i < n && a < |g.vertexValues| && j < AttributeSize(g.vertexValues[a])
  {
    NatMul(i, g.vertexSize);
    VertexMajorAt(g.vertexValues, g.vertexSize, n, i, a, j);
    var off := CreateVertexAttributes(g)[a].offset;
    assert off == Offset(g.vertexValues, a);
    VertexMajor(g.vertexValues, g.vertexSize, n)[i * g.vertexSize + off + j]
  }

  /** The layout and the buffer never diverge: attribute `a` of the layout
      fits in the stride, and reading it for vertex `i` yields element `i` of
      stream `a`. */
  lemma LayoutMatchesBuffer(g: GeometryData, n: nat, i: nat, a: nat, j: nat)
    requires Valid(g) && ComputeVertexCount(g) == Ok(n)
    requires i < n && a < |g.vertexValues| && j < AttributeSize(g.vertexValues[a])
    ensures SameLen(g.vertexValues, n)
    ensures CreateVertexAttributes(g)[a].offset + AttributeSize(g.vertexValues[a]) <= g.vertexSize
    ensures AttributeByte(g, n, i, a, j) == ElementBytes(g.vertexValues[a], i)[j]
  {
    VertexMajorAt(g.vertexValues, g.vertexSize, n, i, a, j);
    GetBytesAt(g.vertexValues[a], i, j);
  }
}
