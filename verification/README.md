# fine-rs CPU-side core, modelled in Dafny

fine-rs is a small rendering engine built on wgpu. Before anything reaches
the GPU, the engine's CPU side does the following:

- It assembles geometry. Attribute streams (`VertexValues`) and an optional
  index stream (`IndiceValues`) are collected into a `GeometryData`. There
  are two versions of it:
  - the `render` crate keeps the streams in a `Vec`;
  - the `fine_render` crate keys them by name in a `HashMap`.
- It interleaves the streams into one vertex-major buffer. It describes that
  buffer with a list of `VertexAttribute`s (format, byte offset, shader
  location) and records the counts that `Geometry::draw` passes to the
  render pass.
- It declares fixed vertex layouts for the common structs: position,
  position+texcoord and position+texcoord+normal.
- It keeps a `TextureAtlas`, a layered texture with a name → (layer,
  rectangle) table. The table is filled by `append_raw_texture`, guarded by
  a size and layer check.
- It fills solid-colour textures (`create_texture_color`).
- It keeps a scene `Node`: a transform plus cached local and world
  matrices, each guarded by a dirty flag.
- It collects bind-group layout entries and binds resources to them.

The model is a set of pure functions over immutable datatypes:

- Bytes are `seq<byte>`, and an `f32` is an opaque group of four bytes.
- A `HashMap` is a Dafny `map`. Its iteration order is an explicit
  parameter `ord`, which must be a duplicate-free enumeration of the keys
  (`NamedGeometryData.IsOrder`).
- Matrix and quaternion arithmetic is left abstract. `SceneNode` takes the
  matrix operations as a record of function values.
- Every `assert!`/`assert_eq!` panic in the source is a `Result` error value
  in the model.

Modules:

- `Wrappers` (Option/Result), `Bytes` (flattening and splicing lemmas), and
  `Formats` (wgpu vertex and index formats).
- `Vertex`, `Indice`, `Interleave` (the copy loop both `GeometryData`
  versions share), `GeometryData` (render crate), `NamedGeometryData`
  (fine_render crate) and `Geometry`.
- `VertexLayouts`, `Atlas`, `TextureColor`, `SceneNode` and `Binding`.

## Model

| member | source | states |
|---|---|---|
| Vertex.AttributeSizeComponents | crates/fine_render/src/geometry/vertex.rs:28-30 | the element size is the format's size: 4 bytes per float component, so between 4 and 16 |
| Vertex.LenFromBytes | crates/fine_render/src/geometry/vertex.rs:10-30 | `len` is the byte view's length divided by `attribute_size`, with no remainder, so `chunks_exact` visits every element |
| Vertex.AttributeFormat | crates/fine_render/src/geometry/vertex.rs:32-39 | the format's component count is the stream's element arity (1 to 4 floats) |
| Vertex.ElementBytes | crates/fine_render/src/geometry/vertex.rs:19-30 | one element occupies exactly `attribute_size` bytes, which is 4 bytes per component |
| Vertex.GetBytes | crates/fine_render/src/geometry/vertex.rs:19-26 | the byte view has `len * attribute_size` bytes |
| Vertex.GetBytesChunk | crates/fine_render/src/geometry/vertex.rs:19-30 | the `i`-th `attribute_size` chunk of the byte view is exactly element `i`, which is what `chunks_exact` relies on |
| Vertex.GetBytesAt | crates/fine_render/src/geometry/vertex.rs:19-30 | byte `j` of element `i` sits at `i * attribute_size + j` in the byte view |
| Vertex.FromF32 | crates/fine_render/src/geometry/vertex.rs:42-46 | the conversion gives a Float32 stream of the same length whose bytes are the floats' bytes in order |
| Vertex.FromF32x2 | crates/fine_render/src/geometry/vertex.rs:48-52 | Float32x2 stream of the same length; element `i` is its two floats' bytes |
| Vertex.FromF32x3 | crates/fine_render/src/geometry/vertex.rs:54-58 | Float32x3 stream of the same length; element `i` is its three floats' bytes |
| Vertex.FromF32x4 | crates/fine_render/src/geometry/vertex.rs:60-64 | Float32x4 stream of the same length; element `i` is its four floats' bytes |
| Indice.LenFromBytes | crates/fine_render/src/geometry/indice.rs:8-27 | `len` is the byte view's length divided by `index_size`, with no remainder |
| Indice.IndexSize | crates/fine_render/src/geometry/indice.rs:22-27 | bytes per index agree with the size of the reported index format |
| Indice.IndexFormat | crates/fine_render/src/geometry/indice.rs:29-34 | the format is Uint16 exactly for a 16-bit stream |
| Indice.GetBytes | crates/fine_render/src/geometry/indice.rs:15-20 | the byte view has `len * index_size` bytes |
| Indice.U16RoundTrip | crates/fine_render/src/geometry/indice.rs:15-20 | decoding the byte view of a u16 stream little-endian gives back the same indices |
| Indice.U32RoundTrip | crates/fine_render/src/geometry/indice.rs:15-20 | decoding the byte view of a u32 stream little-endian gives back the same indices |
| Indice.FromU16 | crates/fine_render/src/geometry/indice.rs:37-41 | conversion yields a Uint16 stream of the same length whose bytes decode to the input |
| Indice.FromU32 | crates/fine_render/src/geometry/indice.rs:43-47 | conversion yields a Uint32 stream of the same length whose bytes decode to the input |
| Interleave.VertexCount | crates/render/src/geometry/geometry_data.rs:48-61 | succeeds iff all streams have one length; zero streams give 0; the error is the first index whose length differs from its predecessor, all earlier streams agreeing |
| Interleave.CopyStream | crates/render/src/geometry/geometry_data.rs:71-74 | the inner `chunks_exact` loop writes every element of stream `k` into its slot of every vertex, leaving the rest of the buffer as staged |
| Interleave.InterleaveStreams | crates/render/src/geometry/geometry_data.rs:63-78 | the copy loops produce a buffer of `vertex_size * vertex_count` bytes equal to the vertex-major reference layout |
| Interleave.VertexMajorAt | crates/render/src/geometry/geometry_data.rs:71-74 | byte `j` of stream `k`'s element `i` lands at `i * vertex_size + offset_k + j`, and the attribute fits inside the stride |
| Interleave.VertexMajorPadding | crates/render/src/geometry/geometry_data.rs:67 | bytes of a vertex past the sum of attribute sizes stay zero |
| Interleave.AttributesWithLocations | crates/render/src/geometry/geometry_data.rs:95-113 | the zip stops at the shorter input; attribute `i` has the stream's format, the sum of earlier sizes as offset and the `i`-th location |
| GeometryData.New | crates/render/src/geometry/geometry_data.rs:14-20 | no streams, no indices, zero stride, and the stride invariant holds |
| GeometryData.SetAttribute | crates/render/src/geometry/geometry_data.rs:22-25 | appends the stream, grows the stride by its size, keeps indices and the stride invariant |
| GeometryData.SetAttributesSum | crates/render/src/geometry/geometry_data.rs:22-25 | after any sequence of pushes the streams are the old ones followed by the pushed ones and the stride equals the sum of all attribute sizes |
| GeometryData.SetIndices | crates/render/src/geometry/geometry_data.rs:27-29 | replaces the indices and leaves streams and stride alone |
| GeometryData.IndexCount | crates/render/src/geometry/geometry_data.rs:44-46 | None iff there are no indices; otherwise the index count, which times the index size is the index buffer's length |
| GeometryData.CreateIndexBuffer | crates/render/src/geometry/geometry_data.rs:80-84 | present iff indices exist, with `len * index_size` bytes |
| GeometryData.ComputeVertexCount | crates/render/src/geometry/geometry_data.rs:48-61 | Ok iff every stream has the same length (0 when empty); the panic names an index whose length differs from the previous one |
| GeometryData.CreateVertexBuffer | crates/render/src/geometry/geometry_data.rs:63-78 | fails exactly when the vertex count panics; otherwise `vertex_size * count` bytes laid out vertex-major |
| GeometryData.CreateVertexAttributesWithLocations | crates/render/src/geometry/geometry_data.rs:95-113 | one attribute per zipped pair, with each stream's format, cumulative offset and the given location |
| GeometryData.CreateVertexAttributes | crates/render/src/geometry/geometry_data.rs:86-93 | one attribute per stream, location `i`, cumulative offsets |
| GeometryData.LayoutMatchesBuffer | crates/render/src/geometry/geometry_data.rs:63-113 | reading the vertex buffer at the layout's offset for vertex `i` gives back element `i` of that stream, so layout and buffer agree |
| NamedGeometryData.New | crates/fine_render/src/geometry/geometry_data.rs:15-21 | empty map, no indices, zero stride |
| NamedGeometryData.SetAttribute | crates/fine_render/src/geometry/geometry_data.rs:23-27 | the name now maps to the values, other names are unchanged, the stride always grows by the new size, and the stride stays at least the stored sizes' sum |
| NamedGeometryData.SetAttributeSum | crates/fine_render/src/geometry/geometry_data.rs:23-27 | inserting a fresh name adds its size to the stored sum; overwriting replaces the old size by the new |
| NamedGeometryData.OverwriteOverCounts | crates/fine_render/src/geometry/geometry_data.rs:23-27 | setting one name twice keeps only the second stream but counts both sizes in the stride |
| NamedGeometryData.SetAttributesSize | crates/fine_render/src/geometry/geometry_data.rs:23-27 | after a sequence of inserts the stride grew by every pushed size, the stride still covers the stored streams, every pushed name is present, and the final pair's name holds its stream |
| NamedGeometryData.SetAttributesLastWins | crates/fine_render/src/geometry/geometry_data.rs:23-27 | after a sequence of inserts every pushed name holds the stream of its last push, and every name never pushed keeps its stream |
| NamedGeometryData.SetAttributesKeeps | crates/fine_render/src/geometry/geometry_data.rs:23-27 | inserts never remove a name |
| NamedGeometryData.SetIndices | crates/fine_render/src/geometry/geometry_data.rs:29-31 | replaces the indices, keeps streams and stride |
| NamedGeometryData.IndexCount | crates/fine_render/src/geometry/geometry_data.rs:48-50 | None iff no indices; otherwise their count, matching the index buffer's length |
| NamedGeometryData.CreateIndexBuffer | crates/fine_render/src/geometry/geometry_data.rs:85-89 | present iff indices exist, with `len * index_size` bytes |
| NamedGeometryData.ComputeVertexCount | crates/fine_render/src/geometry/geometry_data.rs:52-66 | Ok iff all stored streams have one length (0 for an empty map), that length otherwise; the panic names a stored attribute |
| NamedGeometryData.VertexCountOrderIndependent | crates/fine_render/src/geometry/geometry_data.rs:52-66 | whether the count panics and the count itself do not depend on the hash iteration order |
| NamedGeometryData.CreateVertexBuffer | crates/fine_render/src/geometry/geometry_data.rs:68-83 | fails exactly when the count panics; otherwise `vertex_size * count` bytes laid out vertex-major in iteration order |
| NamedGeometryData.CreateVertexAttributes | crates/fine_render/src/geometry/geometry_data.rs:91-104 | one attribute per stored name, in iteration order, with location `i` and the sum of earlier sizes as offset |
| NamedGeometryData.LayoutMatchesBuffer | crates/fine_render/src/geometry/geometry_data.rs:68-104 | with the same iteration order for both, the layout's offsets read back each element from the vertex buffer, even when the stride over-counts |
| Geometry.New | crates/fine_render/src/geometry/mod.rs:19-36 | succeeds iff the vertex count does; records buffer, count and stride built from the data, and the index buffer, count and format exist iff the data has indices |
| Geometry.Bind | crates/fine_render/src/geometry/mod.rs:38-40 | exactly one command: the whole vertex buffer on the given slot |
| Geometry.Draw | crates/fine_render/src/geometry/mod.rs:42-56 | indexed draw of `index_count as u32` indices with one instance when all three index fields exist, otherwise a plain draw of `vertex_count as u32` vertices |
| Geometry.DrawBuilt | crates/fine_render/src/geometry/mod.rs:19-56 | for a geometry built from data, the draw is indexed iff the data has indices, binds exactly the index bytes and format, and covers every index or every vertex of the buffer when the count fits in 32 bits |
| VertexLayouts.Layout | crates/fine_render/src/util/vertex_attribute.rs:47-96 | one attribute per field with its format, offsets cumulative, the last ending at the struct size |
| VertexLayouts.PackedWithoutPadding | crates/fine_render/src/util/vertex_attribute.rs:47-96 | every field of the cumulative layout starts 4-aligned and the struct ends where its last field ends, so `#[repr(C)]` adds no padding and the hand-written offsets are the struct's real field offsets |
| VertexLayouts.LayoutOffset | crates/fine_render/src/util/vertex_attribute.rs:47-96 | field `i`'s offset is the sum of the sizes of the fields before it |
| VertexLayouts.ConstantsAreCumulative | crates/fine_render/src/util/vertex_attribute.rs:22-96 | the three hand-written attribute arrays are the cumulative layouts of their fields, with strides 12, 20 and 32 |
| VertexLayouts.SumSizesFormats | crates/render/src/geometry/geometry_data.rs:22-25 | the stride pushed by `set_attribute` equals the sum of the streams' format sizes |
| VertexLayouts.StreamsLayout | crates/render/src/geometry/geometry_data.rs:86-113 | attributes generated from streams equal the cumulative layout of their formats |
| VertexLayouts.GeometryDataMatchesLayout | crates/render/src/geometry/geometry_data.rs:22-113 | a geometry built from streams with the same formats as a struct produces exactly that struct's attribute array and stride |
| VertexLayouts.PositionTexcoordNormalFromGeometryData | crates/fine_render/src/util/vertex_attribute.rs:79-96 | position, texcoord and normal streams produce the position_texcoord_normal constant and a 32-byte stride |
| Atlas.New | crates/fine_render/src/texture/atlas.rs:30-64 | the atlas has the given dimensions and no frames |
| Atlas.Frame | crates/fine_render/src/texture/atlas.rs:66-68 | a frame is present iff the name was placed, and then it is the recorded placement |
| Atlas.Dimensions | crates/fine_render/src/texture/atlas.rs:82-84 | returns width, height and layer count |
| Atlas.Check | crates/fine_render/src/texture/atlas.rs:222-235 | passes iff layer ≤ layer count, width and height fit; the first failing test (layer, then width, then height) names the panic |
| Atlas.Origin | crates/fine_render/src/texture/atlas.rs:99-107 | the destination when given, otherwise (0, 0) |
| Atlas.AppendRawTexture | crates/fine_render/src/texture/atlas.rs:86-145 | panics exactly when the guard fails (the copy is assumed to succeed); otherwise records (layer, source size at origin) under the name, keeps every other name's frame and the dimensions |
| Atlas.Add | crates/fine_render/src/texture/atlas.rs:257-270 | panics exactly when the guard fails (the copy is assumed to succeed); otherwise the name is placed on the given layer |
| Atlas.AddIsAppend | crates/fine_render/src/texture/atlas.rs:257-270 | `add` is `append_raw_texture` on the borrowed atlas |
| Atlas.AppendBytes | crates/fine_render/src/texture/atlas.rs:147-165 | a batch of adds succeeds iff every call passes the guard against the atlas's dimensions; a panic is the panic of one of its calls; dimensions never change |
| Atlas.AppendBytesLastWins | crates/fine_render/src/texture/atlas.rs:147-165 | after a successful batch every name it mentions holds the layer, size and origin of its last call |
| Atlas.AppendBytesKeeps | crates/fine_render/src/texture/atlas.rs:147-165 | a batch of adds keeps the dimensions and leaves every name it does not mention where it was |
| Atlas.FrameToRaw | crates/fine_render/src/texture/atlas.rs:167-212 | None iff no frame has that name; otherwise a texture of the frame's width and height |
| Atlas.AppendThenFrameToRaw | crates/fine_render/src/texture/atlas.rs:86-212 | after a successful append, extracting the name gives a texture of the source's size |
| Atlas.LayerCountAccepted | crates/fine_render/src/texture/atlas.rs:222-226 | a texture on layer `layer_count`, one past the last layer, passes the guard, and the placement recorded if the copy succeeded would leave the atlas out of bounds |
| Atlas.DestinationUnchecked | crates/fine_render/src/texture/atlas.rs:99-107 | a 100×100 frame placed at (200, 200) in a 256×256 atlas passes the guard, and the placement recorded if the copy succeeded would stick out of the atlas |
| Atlas.AppendRawTextureChecked | crates/fine_render/src/texture/atlas.rs:222-235 | the intended guard: accepts iff layer < layer count and the rectangle fits at its origin, agrees with the original when it accepts, and keeps every frame in bounds |
| Atlas.AppendBytesCheckedInBounds | crates/fine_render/src/texture/atlas.rs:147-165 | with the intended guard, a batch of adds keeps an in-bounds atlas in bounds |
| TextureColor.Pixel | crates/fine_render/src/texture/mod.rs:19-26 | four bytes whose first three reassemble the colour's low 24 bits, little end first, and whose fourth is 0xFF |
| TextureColor.TileAt | crates/fine_render/src/texture/mod.rs:19-26 | byte `j` of copy `i` of a repeated pixel is the pixel's byte `j` |
| TextureColor.TileLength | crates/fine_render/src/texture/mod.rs:19-26 | `n` copies of a pixel take `n` times its length |
| TextureColor.PixelCount | crates/fine_render/src/texture/mod.rs:19 | `width * height` in u32, equal to the product when it fits |
| TextureColor.CreateTextureColor | crates/fine_render/src/texture/mod.rs:13-29 | the loop produces `4 * width * height` bytes, the pixel repeated once per texel |
| TextureColor.TextureColorPixel | crates/fine_render/src/texture/mod.rs:19-26 | texel `i` holds the pixel's bytes and an opaque alpha |
| TextureColor.AlphaIgnored | crates/fine_render/src/texture/mod.rs:19-26 | colours that differ only in their top byte produce identical textures |
| SceneNode.Default | crates/fine_transform/src/node.rs:14-29 | identity matrices, the default transform, both flags clear |
| SceneNode.FromMat4 | crates/fine_transform/src/node.rs:31-42 | the local matrix is kept, the transform is its decomposition, the world matrix is the identity and both flags are clear |
| SceneNode.Invalidate | crates/fine_transform/src/node.rs:66-69 | both flags set, nothing else changes |
| SceneNode.SetTransform | crates/fine_transform/src/node.rs:53-56 | the transform is replaced and both flags set; the cached matrices are untouched |
| SceneNode.GetMutTransform | crates/fine_transform/src/node.rs:48-51 | any edit through the mutable borrow lands in the transform with both flags set |
| SceneNode.IsInvalid | crates/fine_transform/src/node.rs:62-64 | reports the local flag only |
| SceneNode.UpdateLocalMatrix | crates/fine_transform/src/node.rs:71-79 | recomputes the local matrix from the transform iff the local flag is set; never clears a flag |
| SceneNode.UpdateWorldMatrix | crates/fine_transform/src/node.rs:81-91 | updates the local matrix, then, iff the world flag is set, sets the world matrix to parent world × local (or local without a parent); flags unchanged |
| SceneNode.FlagsMonotone | crates/fine_transform/src/node.rs:48-91 | after any sequence of operations a flag is set iff it was set before or some operation invalidated the node |
| SceneNode.InvalidatedAlwaysRecomputes | crates/fine_transform/src/node.rs:71-91 | once invalidated, every later update recomputes both matrices from the current transform |
| SceneNode.UpdateIdempotent | crates/fine_transform/src/node.rs:81-91 | updating twice with the same parent is the same as updating once |
| SceneNode.ValidIsFixpoint | crates/fine_transform/src/node.rs:71-91 | a node with both flags clear is unchanged by an update |
| SceneNode.FromMat4WorldStale | crates/fine_transform/src/node.rs:31-42 | a node built from a matrix keeps the identity world matrix through updates, whatever the parent |
| SceneNode.FromMat4Invalidated | crates/fine_transform/src/node.rs:31-42 | the intended constructor: same local matrix and transform, world flag set |
| SceneNode.FromMat4InvalidatedWorld | crates/fine_transform/src/node.rs:81-91 | with the intended constructor, the first update gives parent world × local (or local) |
| Binding.NewLayoutBuilder | crates/render/src/pipeline/binding.rs:4-6 | starts with no entries |
| Binding.SetEntry | crates/render/src/pipeline/binding.rs:9-11 | appends the entry and keeps the earlier ones |
| Binding.Bind | crates/render/src/pipeline/binding.rs:26-40 | at most one output per entry; every output carries an entry's binding and the resource the callback returned for it; every entry with a resource appears |
| Binding.BindAppend | crates/render/src/pipeline/binding.rs:26-40 | binding a concatenation binds each part in order |
| Binding.SetEntryThenBind | crates/render/src/pipeline/binding.rs:9-40 | a new entry adds its own binding, if any, at the end |
| Binding.BindTotal | crates/render/src/pipeline/binding.rs:26-40 | when the callback answers every entry, the output is entry by entry in order |

## Left out

- GPU objects (buffers, textures, views, render passes, the `Context`) are
  not modelled. Buffer creation is the byte sequence that would be
  uploaded. `bind` and `draw` are the list of render-pass commands.
- f32 values are opaque four-byte groups. No floating-point arithmetic
  happens in the core, and `bytemuck::cast_slice` is modelled as
  little-endian byte order.
- Counts and `vertex_size` (`u64`/`usize`) are unbounded naturals. The
  source would need more than 2^64 bytes to overflow them.
- `Geometry.Draw` models the `as u32` casts of the counts, which truncate.
- TextureColor.PixelCount: `width * height` wraps modulo 2^32. That is the
  release-build behaviour; a debug build panics on overflow instead.
- Simple accessors (`values`, `indices`, `vertex_size`, `width`, `height`,
  `layer_count`, `get_transform`, `get_world_matrix`, `get_layout`) are not
  separate members. They are the datatype fields.
- `create_geometry` (render crate) is not modelled. It is `Geometry::new`
  of a crate whose `Geometry` is not part of this model.
- The order of `HashMap` iteration is a parameter. The same order is used
  by `compute_vertex_count`, `create_vertex_buffer` and
  `create_vertex_attributes`, because one map that is not modified between
  these calls iterates in one order.
- The location iterator of `create_vertex_attributes_with_locations` is a
  finite sequence. An infinite iterator behaves like one longer than the
  stream list.
- The vertex-attribute constants assume `#[repr(C)]` packing of f32 fields
  with no padding. The model states them as cumulative offsets over the
  field formats.
- Atlas.AppendRawTexture: `Ok` assumes the texel copy (`write_texture`,
  atlas.rs:109-131) succeeds. The copy runs before the table insert, and
  no error handler is installed, so the program also stops at the copy
  when wgpu rejects it. That covers any layer of 1 or more, because the
  layer is passed as the mip level of a one-level texture, and any
  destination overrun. The model does not promise those panics.
- Atlas copies themselves are not modelled: the texel copy of
  `append_raw_texture`, `frame_to_raw`'s copy out, and `frame_to_texture`.
  Only the bookkeeping table and the guard are modelled.
- Atlas.AppendBytes: the user closure is a sequence of `add` calls. The
  closure's other effects, and the `RawTexture` made from the bytes, are
  not modelled.
- `Vertex.Len` and `Indice.Len` are plain length functions. Their meaning
  is stated by `LenFromBytes` in each module.
- `MAX_LAYER_COUNT` is dead code and is not modelled.
- `append_image` (a feature-gated wrapper over `append_bytes`) is not part
  of this model.
- SceneNode: matrix, quaternion and vector types, and
  `to_scale_rotation_translation` / `from_scale_rotation_translation` /
  `mul_mat4`, are parameters of the model. The scene graph walk
  (node_visitor) and the camera are not part of this model.
- Binding: wgpu layout entries and resources are type parameters.
  `BindGroupBuilder` construction (the GPU layout object) is not modelled.

## Findings

| source | as written | input that shows it | evidently intended | confidence | as-written member | corrected member |
|---|---|---|---|---|---|---|
| crates/fine_render/src/texture/atlas.rs:222-226 | the layer guard is `layer <= layer_count` | an atlas with `layer_count` 1 and `layer` 1 passes the guard, but only layer 0 exists; the call then stops only at the GPU copy, not at the guard | `layer < layer_count` | not executed | Atlas.LayerCountAccepted | Atlas.AppendRawTextureChecked |
| crates/fine_render/src/texture/atlas.rs:99-107 | only the source width and height are compared with the atlas; the destination origin is never checked | a 256×256 atlas, a 100×100 source and destination (200, 200) pass the guard and would be recorded if the copy succeeded; the call stops only at the GPU copy, not at the guard | origin plus size within the atlas | not executed | Atlas.DestinationUnchecked | Atlas.AppendBytesCheckedInBounds |
| crates/fine_transform/src/node.rs:31-42 | `from_mat4` takes the remaining fields from `Default`, so `invalid_world_matrix` is false | any non-identity matrix: after `update_world_matrix` the world matrix is still the identity | the world matrix is recomputed from the local matrix on the first update | not executed | SceneNode.FromMat4WorldStale | SceneNode.FromMat4Invalidated |
