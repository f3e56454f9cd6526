/** `VertexValues`: one attribute stream of 1-, 2-, 3- or 4-component 32-bit
    floats. A float is an opaque group of four bytes in the order the CPU
    stores them; no float arithmetic is modelled. */
module Vertex {
  import opened Bytes
  import Formats

  /** The in-memory bytes of one `f32`. */
  type F32 = b: seq<byte> | |b| == 4 witness [0, 0, 0, 0]

  /** An `f32` viewed as a plain byte sequence. */
  function Raw(f: F32): seq<byte>
  {
    f
  }

  datatype VertexValues =
    | Float32(scalars: seq<F32>)
    | Float32x2(pairs: seq<(F32, F32)>)
    | Float32x3(triples: seq<(F32, F32, F32)>)
    | Float32x4(quads: seq<(F32, F32, F32, F32)>)

  /** Number of elements (vertices) in the stream. */
  function Len(v: VertexValues): nat
  {
    match v
    case Float32(s) => |s|
    case Float32x2(s) => |s|
    case Float32x3(s) => |s|
    case Float32x4(s) => |s|
  }

  /** The GPU vertex format matching the stream's element shape. */
  function AttributeFormat(v: VertexValues): (f: Formats.VertexFormat)
    ensures f.Components() == match v
      case Float32(_) => 1
      case Float32x2(_) => 2
      case Float32x3(_) => 3
      case Float32x4(_) => 4
  {
    match v
    case Float32(_) => Formats.Float32
    case Float32x2(_) => Formats.Float32x2
    case Float32x3(_) => Formats.Float32x3
    case Float32x4(_) => Formats.Float32x4
  }

  /** Byte size of one element: the size of the stream's format. */
  function AttributeSize(v: VertexValues): nat
  {
    AttributeFormat(v).Size()
  }

  /** The element size is 4 bytes per float component of the format. */
  lemma AttributeSizeComponents(v: VertexValues)
    ensures AttributeSize(v) == 4 * AttributeFormat(v).Components()
    ensures 4 <= AttributeSize(v) <= 16
  {
  }

  /** The in-memory bytes of element `i`: its floats, component by component. */
  function ElementBytes(v: VertexValues, i: nat): (b: seq<byte>)
    requires i < Len(v)
    ensures |b| == AttributeSize(v)
    ensures |b| == 4 * AttributeFormat(v).Components()
  {
    match v
    case Float32(s) => Raw(s[i])
    case Float32x2(s) => Raw(s[i].0) + Raw(s[i].1)
    case Float32x3(s) => Raw(s[i].0) + Raw(s[i].1) + Raw(s[i].2)
    case Float32x4(s) => Raw(s[i].0) + Raw(s[i].1) + Raw(s[i].2) + Raw(s[i].3)
  }

  function Elements(v: VertexValues): (es: seq<seq<byte>>)
    ensures |es| == Len(v)
    ensures Uniform(es, AttributeSize(v))
  {
    seq(Len(v), i requires 0 <= i < Len(v) => ElementBytes(v, i))
  }

  /** `get_bytes`: the stream reinterpreted as a byte slice. */
  function GetBytes(v: VertexValues): (b: seq<byte>)
    ensures |b| == Len(v) * AttributeSize(v)
  {
    FlattenUniformLength(Elements(v), AttributeSize(v));
    Flatten(Elements(v))
  }

  /** Element `i` occupies the `i`-th chunk of `AttributeSize` bytes of
      `GetBytes`, which is what `chunks_exact(attribute_size)` relies on. */
  lemma GetBytesChunk(v: VertexValues, i: nat)
    requires i < Len(v)
    ensures i * AttributeSize(v) + AttributeSize(v) <= |GetBytes(v)|
    ensures GetBytes(v)[i * AttributeSize(v) .. i * AttributeSize(v) + AttributeSize(v)] == ElementBytes(v, i)
  {
    FlattenUniformChunk(Elements(v), AttributeSize(v), i);
  }

  /** `len` is the number of whole `attribute_size` chunks in the byte
      view, with no bytes left over, so `chunks_exact(attribute_size)`
      visits every element and nothing else. */
  lemma LenFromBytes(v: VertexValues)
    ensures |GetBytes(v)| % AttributeSize(v) == 0
    ensures Len(v) == |GetBytes(v)| / AttributeSize(v)
  {
    ChunkCount(Len(v), AttributeSize(v));
  }

  lemma GetBytesAt(v: VertexValues, i: nat, j: nat)
    requires i < Len(v) && j < AttributeSize(v)
    ensures i * AttributeSize(v) + j < |GetBytes(v)|
    ensures GetBytes(v)[i * AttributeSize(v) + j] == ElementBytes(v, i)[j]
  {
    FlattenUniformAt(Elements(v), AttributeSize(v), i, j);
  }

  /** `From<Vec<f32>>`. */
  function FromF32(s: seq<F32>): (v: VertexValues)
    ensures AttributeFormat(v) == Formats.Float32 && Len(v) == |s|
    ensures GetBytes(v) == Flatten(s)
  {
    var v := Float32(s);
    assert Elements(v) == s;
    v
  }

  /** `From<Vec<[f32; 2]>>`. */
  function FromF32x2(s: seq<(F32, F32)>): (v: VertexValues)
    ensures AttributeFormat(v) == Formats.Float32x2 && Len(v) == |s|
    ensures forall i :: 0 <= i < |s| ==> ElementBytes(v, i) == Raw(s[i].0) + Raw(s[i].1)
  {
    Float32x2(s)
  }

  /** `From<Vec<[f32; 3]>>`. */
  function FromF32x3(s: seq<(F32, F32, F32)>): (v: VertexValues)
    ensures AttributeFormat(v) == Formats.Float32x3 && Len(v) == |s|
    ensures forall i :: 0 <= i < |s| ==> ElementBytes(v, i) == Raw(s[i].0) + Raw(s[i].1) + Raw(s[i].2)
  {
    Float32x3(s)
  }

  /** `From<Vec<[f32; 4]>>`. */
  function FromF32x4(s: seq<(F32, F32, F32, F32)>): (v: VertexValues)
    ensures AttributeFormat(v) == Formats.Float32x4 && Len(v) == |s|
    ensures forall i :: 0 <= i < |s| ==> ElementBytes(v, i) == Raw(s[i].0) + Raw(s[i].1) + Raw(s[i].2) + Raw(s[i].3)
  {
    Float32x4(s)
  }
}
