/** The three fixed vertex layouts (`position`, `position_texcoord`,
    `position_texcoord_normal`): the `ATTRIBUTES` constants and the `STRIDE`
    of their `#[repr(C)]` vertex structs, and how they agree with the
    cumulative-offset layout `GeometryData` emits. */
module VertexLayouts {
  import Formats
  import Vertex
  import opened Interleave
  import GeometryData

  /** `position::Vertex::ATTRIBUTES`. */
  const Position: seq<VertexAttribute> := [VertexAttribute(Formats.Float32x3, 0, 0)]

  /** `position_texcoord::Vertex::ATTRIBUTES`. */
  const PositionTexcoord: seq<VertexAttribute> :=
    [VertexAttribute(Formats.Float32x3, 0, 0), VertexAttribute(Formats.Float32x2, 3 * 4, 1)]

  /** `position_texcoord_normal::Vertex::ATTRIBUTES`. */
  const PositionTexcoordNormal: seq<VertexAttribute> :=
    [VertexAttribute(Formats.Float32x3, 0, 0), VertexAttribute(Formats.Float32x2, 3 * 4, 1),
     VertexAttribute(Formats.Float32x3, 3 * 4 + 2 * 4, 2)]

  /** The field shapes of each vertex struct, in declaration order. */
  const PositionFields: seq<Formats.VertexFormat> := [Formats.Float32x3]
  const PositionTexcoordFields: seq<Formats.VertexFormat> := [Formats.Float32x3, Formats.Float32x2]
  const PositionTexcoordNormalFields: seq<Formats.VertexFormat> := [Formats.Float32x3, Formats.Float32x2, Formats.Float32x3]

  /** Sum of the sizes of `formats`. */
  function FormatSum(formats: seq<Formats.VertexFormat>): nat
  {
    if |formats| == 0 then 0 else FormatSum(formats[..|formats| - 1]) + formats[|formats| - 1].Size()
  }

  /** `size_of::<Vertex>()` of a `#[repr(C)]` struct whose fields are tuples
      of `f32`: every field is 4-aligned and a multiple of 4 long, so there
      is no padding and the size is the sum of the field sizes. */
  function StructSize(fields: seq<Formats.VertexFormat>): (r: nat)
    ensures r % 4 == 0
  {
    FormatSumAligned(fields);
    FormatSum(fields)
  }

  lemma {:induction false} FormatSumAligned(formats: seq<Formats.VertexFormat>)
    ensures FormatSum(formats) % 4 == 0
    decreases |formats|
  {
    if |formats| > 0 {
      FormatSumAligned(formats[..|formats| - 1]);
    }
  }

  /** Attribute `i` of a layout sits at location `i`, directly after
      attribute `i - 1`, and the first at offset 0. */
  ghost predicate Cumulative(attributes: seq<VertexAttribute>)
  {
    && (|attributes| > 0 ==> attributes[0].offset == 0)
    && (forall i :: 0 <= i < |attributes| ==> attributes[i].shaderLocation == i)
    && (forall i :: 0 < i < |attributes| ==>
          attributes[i].offset == attributes[i - 1].offset + attributes[i - 1].format.Size())
  }

  /** The cumulative layout of consecutive fields of the given shapes. */
  function Layout(formats: seq<Formats.VertexFormat>): (r: seq<VertexAttribute>)
    ensures |r| == |formats|
    ensures forall i :: 0 <= i < |r| ==> r[i].format == formats[i]
    ensures Cumulative(r)
    ensures |r| > 0 ==> r[|r| - 1].offset + formats[|r| - 1].Size() == FormatSum(formats)
  {
    if |formats| == 0 then []
    else
      var n := |formats| - 1;
      var front := Layout(formats[..n]);
      assert n > 0 ==> formats[..n][n - 1] == formats[n - 1];
      front + [VertexAttribute(formats[n], FormatSum(formats[..n]), n)]
  }

  /** What `#[repr(C)]` needs to insert no padding between `f32` fields:
      every field of the cumulative layout starts on a 4-byte boundary, and
      the struct ends where its last field does, itself a multiple of 4. */
  lemma PackedWithoutPadding(fields: seq<Formats.VertexFormat>)
    ensures forall i :: 0 <= i < |fields| ==> Layout(fields)[i].offset % 4 == 0
    ensures |fields| > 0 ==> StructSize(fields) == Layout(fields)[|fields| - 1].offset + fields[|fields| - 1].Size()
    ensures StructSize(fields) % 4 == 0
  {
    forall i | 0 <= i < |fields| ensures Layout(fields)[i].offset % 4 == 0 {
      LayoutOffset(fields, i);
      FormatSumAligned(fields[..i]);
    }
  }

  /** Each constant is the cumulative layout of its struct's fields, and
      each struct's stride is where its last attribute ends: 12, 20 and 32
      bytes. */
  lemma ConstantsAreCumulative()
    ensures Position == Layout(PositionFields) && StructSize(PositionFields) == 12
    ensures PositionTexcoord == Layout(PositionTexcoordFields) && StructSize(PositionTexcoordFields) == 20
    ensures PositionTexcoordNormal == Layout(PositionTexcoordNormalFields)
      && StructSize(PositionTexcoordNormalFields) == 32
  {
    assert PositionTexcoordFields[..1] == PositionFields;
    assert PositionTexcoordNormalFields[..2] == PositionTexcoordFields;
  }

  /** The shapes of a list of streams. */
  function StreamFormats(vs: seq<Vertex.VertexValues>): (r: seq<Formats.VertexFormat>)
    ensures |r| == |vs|
    ensures forall i :: 0 <= i < |vs| ==> r[i] == Vertex.AttributeFormat(vs[i])
  {
    seq(|vs|, i requires 0 <= i < |vs| => Vertex.AttributeFormat(vs[i]))
  }

  /** The stride `GeometryData` accumulates is the struct size of the stream
      shapes. */
  lemma {:induction false} SumSizesFormats(vs: seq<Vertex.VertexValues>)
    ensures SumSizes(vs) == FormatSum(StreamFormats(vs))
    decreases |vs|
  {
    if |vs| > 0 {
      var n := |vs| - 1;
      SumSizesFormats(vs[..n]);
      assert StreamFormats(vs)[..n] == StreamFormats(vs[..n]);
    }
  }

  /** The layout `create_vertex_attributes` emits for any streams is the
      cumulative layout of their shapes. */
  lemma StreamsLayout(vs: seq<Vertex.VertexValues>)
    ensures AttributesWithLocations(vs, Range(|vs|), 0) == Layout(StreamFormats(vs))
  {
    var r := AttributesWithLocations(vs, Range(|vs|), 0);
    var l := Layout(StreamFormats(vs));
    forall i | 0 <= i < |vs| ensures r[i] == l[i] {
      LayoutOffset(StreamFormats(vs), i);
      SumSizesFormats(vs[..i]);
      assert StreamFormats(vs)[..i] == StreamFormats(vs[..i]);
    }
  }

  /** Offset `i` of a cumulative layout is the size of the fields before it. */
  lemma {:induction false} LayoutOffset(formats: seq<Formats.VertexFormat>, i: nat)
    requires i < |formats|
    ensures Layout(formats)[i].offset == FormatSum(formats[..i])
    decreases i
  {
    var l := Layout(formats);
    assert Cumulative(l);
    if i == 0 {
      assert formats[..0] == [];
    } else {
      LayoutOffset(formats, i - 1);
      assert formats[..i][..i - 1] == formats[..i - 1];
      assert l[i].offset == l[i - 1].offset + formats[i - 1].Size();
    }
  }

  /** A `GeometryData` given one stream per struct field, in field order,
      emits exactly that struct's `ATTRIBUTES` and accumulates exactly its
      `STRIDE`. */
  lemma GeometryDataMatchesLayout(vs: seq<Vertex.VertexValues>, fields: seq<Formats.VertexFormat>)
    requires StreamFormats(vs) == fields
    ensures GeometryData.CreateVertexAttributes(GeometryData.SetAttributes(GeometryData.New(), vs)) == Layout(fields)
    ensures GeometryData.SetAttributes(GeometryData.New(), vs).vertexSize == StructSize(fields)
  {
    GeometryData.SetAttributesSum(GeometryData.New(), vs);
    assert [] + vs == vs;
    StreamsLayout(vs);
    SumSizesFormats(vs);
  }

  /** In particular, streams of shapes `Formats.Float32x3, Formats.Float32x2, Formats.Float32x3`
      give the `position_texcoord_normal` layout and its 32-byte stride. */
  lemma PositionTexcoordNormalFromGeometryData(vs: seq<Vertex.VertexValues>)
    requires StreamFormats(vs) == PositionTexcoordNormalFields
    ensures GeometryData.CreateVertexAttributes(GeometryData.SetAttributes(GeometryData.New(), vs)) == PositionTexcoordNormal
    ensures GeometryData.SetAttributes(GeometryData.New(), vs).vertexSize == 32
  {
    GeometryDataMatchesLayout(vs, PositionTexcoordNormalFields);
    ConstantsAreCumulative();
  }
}
