/** The GPU layer's element formats that the geometry code names: the vertex
    formats of the four float stream shapes and the two index widths. */
module Formats {

  datatype VertexFormat = Float32 | Float32x2 | Float32x3 | Float32x4 {

    /** Number of 32-bit float components in one element. */
    function Components(): nat {
      match this
      case Float32 => 1
      case Float32x2 => 2
      case Float32x3 => 3
      case Float32x4 => 4
    }

    /** Byte size of one element, as the GPU layer defines it. */
    function Size(): nat {
      match this
      case Float32 => 4
      case Float32x2 => 8
      case Float32x3 => 12
      case Float32x4 => 16
    }
  }

  datatype IndexFormat = Uint16 | Uint32 {

    /** Byte size of one index. */
    function Size(): nat {
      match this
      case Uint16 => 2
      case Uint32 => 4
    }
  }
}
