/** `Geometry` of the `fine_render` crate: the GPU-side geometry built from a
    name-keyed `GeometryData`, and the commands `bind` and `draw` record on
    a render pass. Buffers are the bytes uploaded; the render pass is the
    list of commands recorded on it. */
module Geometry {
  import opened Bytes
  import opened Wrappers
  import Formats
  import Indice
  import Interleave
  import NamedGeometryData

  datatype Geometry = Geometry(
    vertexBuffer: seq<byte>,
    vertexCount: nat,
    vertexSize: nat,
    indexBuffer: Option<seq<byte>>,
    indexCount: Option<nat>,
    indexFormat: Option<Formats.IndexFormat>)

  /** One call on a `wgpu::RenderPass`; ranges are half-open `start..end`. */
  datatype RenderCommand =
    | SetVertexBuffer(slot: u32, buffer: seq<byte>)
    | SetIndexBuffer(buffer: seq<byte>, format: Formats.IndexFormat)
    | DrawIndexed(indexStart: u32, indexEnd: u32, baseVertex: int, instanceStart: u32, instanceEnd: u32)
    | Draw(vertexStart: u32, vertexEnd: u32, instanceStart: u32, instanceEnd: u32)

  /** How every field of a `Geometry` derives from the data it was built
      from, taking the map in iteration order `ord`. */
  ghost predicate BuiltFrom(geo: Geometry, data: NamedGeometryData.GeometryData, ord: seq<string>)
    requires NamedGeometryData.IsOrder(ord, data.vertexValues)
  {
    var count := NamedGeometryData.ComputeVertexCount(data, ord);
    var vs := NamedGeometryData.Streams(data.vertexValues, ord);
    && count.Ok?
    && geo.vertexCount == count.value
    && geo.vertexSize == data.vertexSize
    && Interleave.SameLen(vs, count.value)
    && Interleave.SumSizes(vs) <= data.vertexSize
    && geo.vertexBuffer == Interleave.VertexMajor(vs, data.vertexSize, count.value)
    && |geo.vertexBuffer| == geo.vertexSize * geo.vertexCount
    && geo.indexBuffer == NamedGeometryData.CreateIndexBuffer(data)
    && (match data.indexValues
        case None => geo.indexCount.None? && geo.indexFormat.None?
        case Some(ix) => geo.indexCount == Some(Indice.Len(ix)) && geo.indexFormat == Some(Indice.IndexFormat(ix)))
  }

  /** `Geometry::new`: fails where building the vertex buffer panics;
      otherwise the buffer holds `vertex_count` vertices of `vertex_size`
      bytes, and the three index fields are all present exactly when the
      data has indices. */
  method New(data: NamedGeometryData.GeometryData, ord: seq<string>) returns (r: Result<Geometry, string>)
    requires NamedGeometryData.Valid(data) && NamedGeometryData.IsOrder(ord, data.vertexValues)
    ensures r.Ok? <==> NamedGeometryData.ComputeVertexCount(data, ord).Ok?
    ensures r.Err? ==> r.error == NamedGeometryData.ComputeVertexCount(data, ord).error
    ensures r.Ok? ==> BuiltFrom(r.value, data, ord)
    ensures r.Ok? ==>
      && (r.value.indexBuffer.Some? <==> data.indexValues.Some?)
      && (r.value.indexCount.Some? <==> data.indexValues.Some?)
      && (r.value.indexFormat.Some? <==> data.indexValues.Some?)
  {
    var vertexBuffer := NamedGeometryData.CreateVertexBuffer(data, ord);
    if vertexBuffer.Err? {
      return Err(vertexBuffer.error);
    }
    var vertexCount := NamedGeometryData.ComputeVertexCount(data, ord).value;
    var indexBuffer := NamedGeometryData.CreateIndexBuffer(data);
    var indexCount := match data.indexValues
      case None => None
      case Some(ix) => Some(Indice.Len(ix));
    var indexFormat := match data.indexValues
      case None => None
      case Some(ix) => Some(Indice.IndexFormat(ix));
    return Ok(Geometry(vertexBuffer.value, vertexCount, data.vertexSize, indexBuffer, indexCount, indexFormat));
  }

  /** `bind`: the whole vertex buffer bound at `slot`. */
  function Bind(geo: Geometry, slot: u32): (r: seq<RenderCommand>)
    ensures |r| == 1 && r[0].SetVertexBuffer?
    ensures r[0].slot == slot && r[0].buffer == geo.vertexBuffer
  {
    [SetVertexBuffer(slot, geo.vertexBuffer)]
  }

  /** `draw`: indexed drawing of one instance when all three index fields
      are present, otherwise non-indexed drawing of one instance; counts
      are cast to `u32`. */
  function Draw(geo: Geometry): (r: seq<RenderCommand>)
    ensures geo.indexBuffer.Some? && geo.indexCount.Some? && geo.indexFormat.Some? ==>
      |r| == 2 && r[0] == SetIndexBuffer(geo.indexBuffer.value, geo.indexFormat.value)
      && r[1].DrawIndexed? && r[1].indexStart == 0 && r[1].indexEnd == TruncU32(geo.indexCount.value)
      && r[1].baseVertex == 0 && r[1].instanceStart == 0 && r[1].instanceEnd == 1
    ensures !(geo.indexBuffer.Some? && geo.indexCount.Some? && geo.indexFormat.Some?) ==>
      |r| == 1 && r[0] == RenderCommand.Draw(0, TruncU32(geo.vertexCount), 0, 1)
  {
    match (geo.indexBuffer, geo.indexCount, geo.indexFormat)
    case (Some(buffer), Some(count), Some(format)) =>
      [SetIndexBuffer(buffer, format), DrawIndexed(0, TruncU32(count), 0, 0, 1)]
    case _ =>
      [RenderCommand.Draw(0, TruncU32(geo.vertexCount), 0, 1)]
  }

  /** Drawing a geometry built from data: indexed exactly when the data has
      indices, binding its index bytes with its index format; the range
      drawn covers every index, or every vertex of the vertex buffer, as
      long as the count fits in a `u32`. */
  lemma DrawBuilt(geo: Geometry, data: NamedGeometryData.GeometryData, ord: seq<string>)
    requires NamedGeometryData.IsOrder(ord, data.vertexValues) && BuiltFrom(geo, data, ord)
    ensures Draw(geo)[0].SetIndexBuffer? <==> data.indexValues.Some?
    ensures data.indexValues.Some? ==>
      var ix := data.indexValues.value;
      && Draw(geo)[0] == SetIndexBuffer(Indice.GetBytes(ix), Indice.IndexFormat(ix))
      && |Draw(geo)[0].buffer| == Indice.Len(ix) * Draw(geo)[0].format.Size()
      && (Indice.Len(ix) < 0x1_0000_0000 ==> Draw(geo)[1].indexEnd == Indice.Len(ix))
    ensures data.indexValues.None? ==>
      && Draw(geo)[0].Draw?
      && (geo.vertexCount < 0x1_0000_0000 ==> data.vertexSize * Draw(geo)[0].vertexEnd == |geo.vertexBuffer|)
  {
  }
}
