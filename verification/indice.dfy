/** `IndiceValues`: the optional index stream, of 16-bit or 32-bit unsigned
    integers. Bytes are laid out little-endian, the byte order of every
    target the engine runs on. */
module Indice {
  import opened Bytes
  import Formats

  datatype IndiceValues = U16(shorts: seq<bv16>) | U32(words: seq<bv32>)

  /** Number of indices held. */
  function Len(ix: IndiceValues): nat
  {
    match ix
    case U16(s) => |s|
    case U32(s) => |s|
  }

  /** `index_size`: bytes per index. */
  function IndexSize(ix: IndiceValues): (n: nat)
    ensures n == IndexFormat(ix).Size()
  {
    match ix
    case U16(_) => 2
    case U32(_) => 4
  }

  /** `index_format`: the GPU index format of the held width. */
  function IndexFormat(ix: IndiceValues): (f: Formats.IndexFormat)
    ensures f == Formats.Uint16 <==> ix.U16?
  {
    match ix
    case U16(_) => Formats.Uint16
    case U32(_) => Formats.Uint32
  }

  function Le16(x: bv16): seq<byte>
  {
    [(x & 0xFF) as byte, (x >> 8) as byte]
  }

  function Le32(x: bv32): seq<byte>
  {
    [(x & 0xFF) as byte, ((x >> 8) & 0xFF) as byte, ((x >> 16) & 0xFF) as byte, (x >> 24) as byte]
  }

  function Elements(ix: IndiceValues): (es: seq<seq<byte>>)
    ensures |es| == Len(ix)
    ensures Uniform(es, IndexSize(ix))
  {
    match ix
    case U16(s) => seq(|s|, i requires 0 <= i < |s| => Le16(s[i]))
    case U32(s) => seq(|s|, i requires 0 <= i < |s| => Le32(s[i]))
  }

  /** `get_bytes`: the index stream reinterpreted as a byte slice. */
  function GetBytes(ix: IndiceValues): (b: seq<byte>)
    ensures |b| == Len(ix) * IndexSize(ix)
  {
    FlattenUniformLength(Elements(ix), IndexSize(ix));
    Flatten(Elements(ix))
  }

  function Word16(b0: byte, b1: byte): bv16
  {
    (b0 as bv16) | ((b1 as bv16) << 8)
  }

  function Word32(b0: byte, b1: byte, b2: byte, b3: byte): bv32
  {
    (b0 as bv32) | ((b1 as bv32) << 8) | ((b2 as bv32) << 16) | ((b3 as bv32) << 24)
  }

  /** Reads 16-bit little-endian indices back from bytes. */
  function DecodeU16(b: seq<byte>): seq<bv16>
    requires |b| % 2 == 0
  {
    seq(|b| / 2, i requires 0 <= i < |b| / 2 => Word16(b[2 * i], b[2 * i + 1]))
  }

  /** Reads 32-bit little-endian indices back from bytes. */
  function DecodeU32(b: seq<byte>): seq<bv32>
    requires |b| % 4 == 0
  {
    seq(|b| / 4, i requires 0 <= i < |b| / 4 => Word32(b[4 * i], b[4 * i + 1], b[4 * i + 2], b[4 * i + 3]))
  }

  lemma Le16RoundTrip(x: bv16)
    ensures Word16(Le16(x)[0], Le16(x)[1]) == x
  {
  }

  lemma Le32RoundTrip(x: bv32)
    ensures Word32(Le32(x)[0], Le32(x)[1], Le32(x)[2], Le32(x)[3]) == x
  {
  }

  /** `len` is the byte view's length in whole indices, with no bytes
      left over. */
  lemma LenFromBytes(ix: IndiceValues)
    ensures |GetBytes(ix)| % IndexSize(ix) == 0
    ensures Len(ix) == |GetBytes(ix)| / IndexSize(ix)
  {
    ChunkCount(Len(ix), IndexSize(ix));
  }

  /** The bytes of a 16-bit index stream decode back to the same indices. */
  lemma U16RoundTrip(s: seq<bv16>)
    ensures |GetBytes(U16(s))| % 2 == 0
    ensures DecodeU16(GetBytes(U16(s))) == s
  {
    var ix := U16(s);
    var b := GetBytes(ix);
    assert |b| == |s| * 2;
    forall i | 0 <= i < |s|
      ensures DecodeU16(b)[i] == s[i]
    {
      FlattenUniformAt(Elements(ix), 2, i, 0);
      FlattenUniformAt(Elements(ix), 2, i, 1);
      Le16RoundTrip(s[i]);
    }
  }

  /** The bytes of a 32-bit index stream decode back to the same indices. */
  lemma U32RoundTrip(s: seq<bv32>)
    ensures |GetBytes(U32(s))| % 4 == 0
    ensures DecodeU32(GetBytes(U32(s))) == s
  {
    var ix := U32(s);
    var b := GetBytes(ix);
    assert |b| == |s| * 4;
    forall i | 0 <= i < |s|
      ensures DecodeU32(b)[i] == s[i]
    {
      FlattenUniformAt(Elements(ix), 4, i, 0);
      FlattenUniformAt(Elements(ix), 4, i, 1);
      FlattenUniformAt(Elements(ix), 4, i, 2);
      FlattenUniformAt(Elements(ix), 4, i, 3);
      Le32RoundTrip(s[i]);
    }
  }

  /** `From<Vec<u16>>`. */
  function FromU16(s: seq<bv16>): (ix: IndiceValues)
    ensures IndexFormat(ix) == Formats.Uint16 && Len(ix) == |s|
    ensures DecodeU16(GetBytes(ix)) == s
  {
    U16RoundTrip(s);
    U16(s)
  }

  /** `From<Vec<u32>>`. */
  function FromU32(s: seq<bv32>): (ix: IndiceValues)
    ensures IndexFormat(ix) == Formats.Uint32 && Len(ix) == |s|
    ensures DecodeU32(GetBytes(ix)) == s
  {
    U32RoundTrip(s);
    U32(s)
  }
}
