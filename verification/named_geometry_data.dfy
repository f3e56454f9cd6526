/** `GeometryData` of the `fine_render` crate: attribute streams keyed by
    name in a `HashMap`, an optional index stream and the running
    `vertex_size`. Every operation that walks the map takes the map's
    iteration order `ord` as a parameter: any duplicate-free enumeration of
    the names, the same one for every walk over an unchanged map. */
module NamedGeometryData {
  import opened Bytes
  import opened Wrappers
  import opened Vertex
  import Indice
  import opened Interleave

  datatype GeometryData = GeometryData(
    vertexValues: map<string, VertexValues>,
    indexValues: Option<Indice.IndiceValues>,
    vertexSize: nat)

  /** No name occurs twice. */
  ghost predicate Distinct(ord: seq<string>)
  {
    forall i, j :: 0 <= i < j < |ord| ==> ord[i] != ord[j]
  }

  /** The names `ord` lists. */
  ghost function Elems(ord: seq<string>): set<string>
  {
    set i | 0 <= i < |ord| :: ord[i]
  }

  /** `ord` lists every key of `m` exactly once. */
  ghost predicate IsOrder(ord: seq<string>, m: map<string, VertexValues>)
  {
    Distinct(ord) && Elems(ord) == m.Keys
  }

  /** The streams in iteration order. */
  function Streams(m: map<string, VertexValues>, ord: seq<string>): (r: seq<VertexValues>)
    requires forall i :: 0 <= i < |ord| ==> ord[i] in m
    ensures |r| == |ord|
    ensures forall i :: 0 <= i < |ord| ==> r[i] == m[ord[i]]
  {
    seq(|ord|, i requires 0 <= i < |ord| => m[ord[i]])
  }

  /** Sum of the element sizes of the streams stored under `names`, in no
      particular order. */
  ghost function KeySum(m: map<string, VertexValues>, names: set<string>): nat
    requires names <= m.Keys
    decreases names
  {
    if names == {} then 0
    else
      var k :| k in names;
      AttributeSize(m[k]) + KeySum(m, names - {k})
  }

  /** Sum of the element sizes of all stored streams. */
  ghost function MapSizeSum(m: map<string, VertexValues>): nat
  {
    KeySum(m, m.Keys)
  }

  /** Any of the names can be taken out of the sum first. */
  lemma {:induction false} KeySumRemove(m: map<string, VertexValues>, names: set<string>, k: string)
    requires names <= m.Keys && k in names
    ensures KeySum(m, names) == AttributeSize(m[k]) + KeySum(m, names - {k})
    decreases names
  {
    var c :| c in names && KeySum(m, names) == AttributeSize(m[c]) + KeySum(m, names - {c});
    if c != k {
      KeySumRemove(m, names - {c}, k);
      KeySumRemove(m, names - {k}, c);
      assert names - {c} - {k} == names - {k} - {c};
    }
  }

  /** The sum only reads the streams stored under `names`. */
  lemma {:induction false} KeySumFrame(m1: map<string, VertexValues>, m2: map<string, VertexValues>, names: set<string>)
    requires names <= m1.Keys && names <= m2.Keys
    requires forall k :: k in names ==> m1[k] == m2[k]
    ensures KeySum(m1, names) == KeySum(m2, names)
    decreases names
  {
    if names != {} {
      var k :| k in names;
      KeySumRemove(m1, names, k);
      KeySumRemove(m2, names, k);
      KeySumFrame(m1, m2, names - {k});
    }
  }

  /** Whatever the iteration order, the streams' sizes add up to the same
      stride. */
  lemma OrderSum(m: map<string, VertexValues>, ord: seq<string>)
    requires IsOrder(ord, m)
    ensures SumSizes(Streams(m, ord)) == MapSizeSum(m)
  {
    PrefixSum(m, ord);
  }

  lemma {:induction false} PrefixSum(m: map<string, VertexValues>, ord: seq<string>)
    requires Distinct(ord) && Elems(ord) <= m.Keys
    ensures SumSizes(Streams(m, ord)) == KeySum(m, Elems(ord))
    decreases |ord|
  {
    if |ord| > 0 {
      var n := |ord| - 1;
      var ord' := ord[..n];
      assert Elems(ord) - {ord[n]} == Elems(ord') by {
        assert forall i :: 0 <= i < n ==> ord'[i] == ord[i];
      }
      PrefixSum(m, ord');
      assert Streams(m, ord)[..n] == Streams(m, ord');
      KeySumRemove(m, Elems(ord), ord[n]);
    }
  }

  /** The stride the stored streams need never exceeds `vertex_size`; it can
      fall short of it, because a name set twice is counted twice. */
  ghost predicate Valid(g: GeometryData)
  {
    MapSizeSum(g.vertexValues) <= g.vertexSize
  }

  /** `GeometryData::new`. */
  function New(): (g: GeometryData)
    ensures Valid(g)
    ensures g.vertexValues == map[] && g.indexValues.None? && g.vertexSize == 0
  {
    GeometryData(map[], None, 0)
  }

  /** `set_attribute`: stores `values` under `name`, replacing any stream of
      that name, and adds its element size to `vertex_size` either way. */
  function SetAttribute(g: GeometryData, name: string, values: VertexValues): (r: GeometryData)
    ensures name in r.vertexValues && r.vertexValues[name] == values
    ensures r.vertexValues.Keys == g.vertexValues.Keys + {name}
    ensures forall k :: k in g.vertexValues && k != name ==> r.vertexValues[k] == g.vertexValues[k]
    ensures r.vertexSize == g.vertexSize + AttributeSize(values)
    ensures r.indexValues == g.indexValues
    ensures Valid(g) ==> Valid(r)
  {
    var r := GeometryData(g.vertexValues[name := values], g.indexValues, g.vertexSize + AttributeSize(values));
    SetAttributeSum(g.vertexValues, name, values);
    r
  }

  /** Storing a stream adds at most its size to the stride. */
  lemma SetAttributeSum(m: map<string, VertexValues>, name: string, values: VertexValues)
    ensures MapSizeSum(m[name := values]) <= MapSizeSum(m) + AttributeSize(values)
    ensures name !in m ==> MapSizeSum(m[name := values]) == MapSizeSum(m) + AttributeSize(values)
    ensures name in m ==> MapSizeSum(m[name := values]) + AttributeSize(m[name]) == MapSizeSum(m) + AttributeSize(values)
  {
    var m' := m[name := values];
    var rest := m.Keys - {name};
    assert m'.Keys - {name} == rest;
    KeySumRemove(m', m'.Keys, name);
    KeySumFrame(m', m, rest);
    if name in m {
      KeySumRemove(m, m.Keys, name);
    } else {
      assert rest == m.Keys;
    }
  }

  /** Setting the same name twice keeps one stream but counts it twice:
      the stride then exceeds what the stored streams need. */
  lemma OverwriteOverCounts(name: string, first: VertexValues, second: VertexValues)
    ensures var g := SetAttribute(SetAttribute(New(), name, first), name, second);
      && g.vertexValues == map[name := second]
      && MapSizeSum(g.vertexValues) == AttributeSize(second)
      && g.vertexSize == AttributeSize(first) + AttributeSize(second)
      && MapSizeSum(g.vertexValues) < g.vertexSize
  {
    var m: map<string, VertexValues> := map[name := second];
    KeySumRemove(m, m.Keys, name);
    assert m.Keys - {name} == {};
  }

  /** `set_attribute` applied to each (name, stream) pair in turn. */
  function SetAttributes(g: GeometryData, pairs: seq<(string, VertexValues)>): GeometryData
    decreases |pairs|
  {
    if |pairs| == 0 then g else SetAttributes(SetAttribute(g, pairs[0].0, pairs[0].1), pairs[1..])
  }

  /** Sum of the element sizes of every stream ever passed, kept or not. */
  function PushedSizes(pairs: seq<(string, VertexValues)>): nat
  {
    if |pairs| == 0 then 0 else AttributeSize(pairs[0].1) + PushedSizes(pairs[1..])
  }

  /** After any sequence of `set_attribute` calls, `vertex_size` has grown by
      the sizes of all pushed streams, overwritten ones included, and still
      covers the stored streams; every name pushed is present, and the name
      of the final pair holds its stream (`SetAttributesLastWins` gives the
      value of every name). */
  lemma {:induction false} SetAttributesSize(g: GeometryData, pairs: seq<(string, VertexValues)>)
    requires Valid(g)
    ensures SetAttributes(g, pairs).vertexSize == g.vertexSize + PushedSizes(pairs)
    ensures Valid(SetAttributes(g, pairs))
    ensures SetAttributes(g, pairs).indexValues == g.indexValues
    ensures forall i :: 0 <= i < |pairs| ==> pairs[i].0 in SetAttributes(g, pairs).vertexValues
    ensures |pairs| > 0 ==> SetAttributes(g, pairs).vertexValues[pairs[|pairs| - 1].0] == pairs[|pairs| - 1].1
    decreases |pairs|
  {
    if |pairs| > 0 {
      var g' := SetAttribute(g, pairs[0].0, pairs[0].1);
      SetAttributesSize(g', pairs[1..]);
      var r := SetAttributes(g, pairs);
      assert r == SetAttributes(g', pairs[1..]);
      forall i | 0 <= i < |pairs| ensures pairs[i].0 in r.vertexValues {
        if i > 0 {
          assert pairs[i] == pairs[1..][i - 1];
        } else {
          SetAttributesKeeps(g', pairs[1..]);
        }
      }
      if |pairs| == 1 {
        assert pairs[1..] == [];
      } else {
        assert pairs[|pairs| - 1] == pairs[1..][|pairs[1..]| - 1];
      }
    }
  }

  /** Names are never removed. */
  lemma {:induction false} SetAttributesKeeps(g: GeometryData, pairs: seq<(string, VertexValues)>)
    ensures g.vertexValues.Keys <= SetAttributes(g, pairs).vertexValues.Keys
    decreases |pairs|
  {
    if |pairs| > 0 {
      SetAttributesKeeps(SetAttribute(g, pairs[0].0, pairs[0].1), pairs[1..]);
    }
  }

  /** After a sequence of `set_attribute` calls, a name holds the stream of
      its last push, and a name never pushed keeps the stream it had. */
  lemma {:induction false} SetAttributesLastWins(g: GeometryData, pairs: seq<(string, VertexValues)>)
    ensures forall i :: 0 <= i < |pairs| && (forall j :: i < j < |pairs| ==> pairs[j].0 != pairs[i].0) ==>
      && pairs[i].0 in SetAttributes(g, pairs).vertexValues
      && SetAttributes(g, pairs).vertexValues[pairs[i].0] == pairs[i].1
    ensures forall name :: name in g.vertexValues && (forall j :: 0 <= j < |pairs| ==> pairs[j].0 != name) ==>
      && name in SetAttributes(g, pairs).vertexValues
      && SetAttributes(g, pairs).vertexValues[name] == g.vertexValues[name]
    decreases |pairs|
  {
    if |pairs| > 0 {
      var g' := SetAttribute(g, pairs[0].0, pairs[0].1);
      var rest := pairs[1..];
      SetAttributesLastWins(g', rest);
      var r := SetAttributes(g, pairs);
      assert r == SetAttributes(g', rest);
      forall i | 0 <= i < |pairs| && (forall j :: i < j < |pairs| ==> pairs[j].0 != pairs[i].0)
        ensures pairs[i].0 in r.vertexValues && r.vertexValues[pairs[i].0] == pairs[i].1
      {
        forall j | i <= j < |rest| ensures rest[j].0 != pairs[i].0 {
          assert rest[j] == pairs[j + 1];
        }
        if i > 0 {
          assert pairs[i] == rest[i - 1];
        }
      }
      forall name | name in g.vertexValues && (forall j :: 0 <= j < |pairs| ==> pairs[j].0 != name)
        ensures name in r.vertexValues && r.vertexValues[name] == g.vertexValues[name]
      {
        forall j | 0 <= j < |rest| ensures rest[j].0 != name {
          assert rest[j] == pairs[j + 1];
        }
      }
    }
  }

  /** `set_indices`: replaces the index stream, nothing else. */
  function SetIndices(g: GeometryData, values: Option<Indice.IndiceValues>): (r: GeometryData)
    ensures r.indexValues == values
    ensures r.vertexValues == g.vertexValues && r.vertexSize == g.vertexSize
    ensures Valid(g) ==> Valid(r)
  {
    g.(indexValues := values)
  }

  /** `index_count`: absent exactly when there are no indices, otherwise the
      number of indices. */
  function IndexCount(g: GeometryData): (r: Option<nat>)
    ensures r.None? <==> g.indexValues.None?
    ensures r.Some? ==> r.value == Indice.Len(g.indexValues.value)
    ensures r.Some? ==> r.value * Indice.IndexSize(g.indexValues.value) == |CreateIndexBuffer(g).value|
  {
    match g.indexValues
    case None => None
    case Some(ix) => Some(Indice.Len(ix))
  }

  /** The bytes `create_index_buffer` uploads, if there are indices. */
  function CreateIndexBuffer(g: GeometryData): (r: Option<seq<byte>>)
    ensures r.Some? <==> g.indexValues.Some?
    ensures r.Some? ==> |r.value| == Indice.Len(g.indexValues.value) * Indice.IndexSize(g.indexValues.value)
  {
    match g.indexValues
    case None => None
    case Some(ix) => Some(Indice.GetBytes(ix))
  }

  /** All stored streams have the same length. */
  ghost predicate AllSameLen(m: map<string, VertexValues>)
  {
    forall a, b :: a in m && b in m ==> Len(m[a]) == Len(m[b])
  }

  /** `compute_vertex_count`: the common stream length, 0 for an empty map;
      `Err(name)` where the source panics on the stream called `name`. */
  function ComputeVertexCount(g: GeometryData, ord: seq<string>): (r: Result<nat, string>)
    requires IsOrder(ord, g.vertexValues)
    ensures r.Ok? <==> AllSameLen(g.vertexValues)
    ensures |g.vertexValues| == 0 ==> r == Ok(0)
    ensures r.Ok? ==> forall k :: k in g.vertexValues ==> Len(g.vertexValues[k]) == r.value
    ensures r.Err? ==> r.error in g.vertexValues
  {
    var vs := Streams(g.vertexValues, ord);
    var count := VertexCount(vs);
    assert Consistent(vs) <==> AllSameLen(g.vertexValues) by {
      if Consistent(vs) {
        forall a, b | a in g.vertexValues && b in g.vertexValues
          ensures Len(g.vertexValues[a]) == Len(g.vertexValues[b])
        {
          var i :| 0 <= i < |ord| && ord[i] == a;
          var j :| 0 <= j < |ord| && ord[j] == b;
          assert Len(vs[i]) == Len(vs[j]);
        }
      }
    }
    assert |g.vertexValues| == 0 ==> |ord| == 0 by {
      if |ord| > 0 { assert ord[0] in g.vertexValues; }
    }
    match count
    case Ok(n) =>
      assert forall k :: k in g.vertexValues ==> Len(g.vertexValues[k]) == n by {
        forall k | k in g.vertexValues ensures Len(g.vertexValues[k]) == n {
          var i :| 0 <= i < |ord| && ord[i] == k;
          assert vs[i] == g.vertexValues[k];
        }
      }
      Ok(n)
    case Err(e) => Err(ord[e])
  }

  /** The vertex count does not depend on the iteration order. */
  lemma VertexCountOrderIndependent(g: GeometryData, ord1: seq<string>, ord2: seq<string>)
    requires IsOrder(ord1, g.vertexValues) && IsOrder(ord2, g.vertexValues)
    ensures ComputeVertexCount(g, ord1).Ok? <==> ComputeVertexCount(g, ord2).Ok?
    ensures ComputeVertexCount(g, ord1).Ok? ==> ComputeVertexCount(g, ord1) == ComputeVertexCount(g, ord2)
  {
    if ComputeVertexCount(g, ord1).Ok? && |g.vertexValues| > 0 {
      var k :| k in g.vertexValues;
      assert Len(g.vertexValues[k]) == ComputeVertexCount(g, ord1).value;
    }
  }

  /** `create_vertex_buffer` without the upload: panics as
      `compute_vertex_count` does, otherwise yields `vertex_size *
      vertex_count` bytes in which vertex `i` holds element `i` of every
      stream, in iteration order, at the stream's cumulative offset, and
      zeros after the last stream. */
  method CreateVertexBuffer(g: GeometryData, ord: seq<string>) returns (r: Result<seq<byte>, string>)
    requires Valid(g) && IsOrder(ord, g.vertexValues)
    ensures r.Err? <==> ComputeVertexCount(g, ord).Err?
    ensures r.Err? ==> r.error == ComputeVertexCount(g, ord).error
    ensures r.Ok? ==> |r.value| == g.vertexSize * ComputeVertexCount(g, ord).value
    ensures r.Ok? ==>
      && SameLen(Streams(g.vertexValues, ord), ComputeVertexCount(g, ord).value)
      && SumSizes(Streams(g.vertexValues, ord)) <= g.vertexSize
      && r.value == VertexMajor(Streams(g.vertexValues, ord), g.vertexSize, ComputeVertexCount(g, ord).value)
  {
    var count := ComputeVertexCount(g, ord);
    if count.Err? {
      return Err(count.error);
    }
    var vs := Streams(g.vertexValues, ord);
    OrderSum(g.vertexValues, ord);
    var bytes := InterleaveStreams(vs, g.vertexSize, count.value);
    return Ok(bytes);
  }

  /** `create_vertex_attributes`: walks the streams in iteration order, gives
      each the next shader location (the number of attributes so far), its
      format and the running offset. */
  method CreateVertexAttributes(g: GeometryData, ord: seq<string>) returns (v: seq<VertexAttribute>)
    requires IsOrder(ord, g.vertexValues)
    ensures |v| == |ord| == |g.vertexValues.Keys|
    ensures forall i :: 0 <= i < |v| ==>
      v[i] == VertexAttribute(AttributeFormat(g.vertexValues[ord[i]]), Offset(Streams(g.vertexValues, ord), i), i)
  {
    var vs := Streams(g.vertexValues, ord);
    var offset := 0;
    v := [];
    for k := 0 to |ord|
      invariant |v| == k
      invariant offset == Offset(vs, k)
      invariant forall i :: 0 <= i < k ==>
        v[i] == VertexAttribute(AttributeFormat(g.vertexValues[ord[i]]), Offset(vs, i), i)
    {
      var attribute := VertexAttribute(AttributeFormat(vs[k]), offset, |v|);
      v := v + [attribute];
      OffsetNext(vs, k);
      offset := offset + AttributeSize(vs[k]);
    }
    assert |ord| == |g.vertexValues.Keys| by {
      DistinctCard(ord);
    }
  }

  /** A duplicate-free sequence has as many distinct elements as entries. */
  lemma {:induction false} DistinctCard(ord: seq<string>)
    requires Distinct(ord)
    ensures |Elems(ord)| == |ord|
    decreases |ord|
  {
    if |ord| > 0 {
      var n := |ord| - 1;
      var ord' := ord[..n];
      DistinctCard(ord');
      assert Elems(ord) == Elems(ord') + {ord[n]} by {
        assert forall i :: 0 <= i < n ==> ord'[i] == ord[i];
      }
    }
  }

  /** The layout and the buffer never diverge, whatever the iteration
      order: attribute `a` of the layout fits in the stride even when
      `vertex_size` over-counts, and vertex `i` holds element `i` of the
      stream named `ord[a]` at that attribute's offset. */
  lemma LayoutMatchesBuffer(g: GeometryData, ord: seq<string>, n: nat, i: nat, a: nat, j: nat)
    requires Valid(g) && IsOrder(ord, g.vertexValues) && ComputeVertexCount(g, ord) == Ok(n)
    requires i < n && a < |ord| && j < AttributeSize(g.vertexValues[ord[a]])
    ensures SameLen(Streams(g.vertexValues, ord), n) && SumSizes(Streams(g.vertexValues, ord)) <= g.vertexSize
    ensures Offset(Streams(g.vertexValues, ord), a) + AttributeSize(g.vertexValues[ord[a]]) <= g.vertexSize
    ensures AttributeByte(g, ord, n, i, a, j) == ElementBytes(g.vertexValues[ord[a]], i)[j]
  {
    OrderSum(g.vertexValues, ord);
    VertexMajorAt(Streams(g.vertexValues, ord), g.vertexSize, n, i, a, j);
    GetBytesAt(g.vertexValues[ord[a]], i, j);
  }

  /** The byte of the vertex buffer that attribute `a` of vertex `i` reads
      at byte `j`. */
  function AttributeByte(g: GeometryData, ord: seq<string>, n: nat, i: nat, a: nat, j: nat): byte
    requires IsOrder(ord, g.vertexValues)
    requires SameLen(Streams(g.vertexValues, ord), n) && SumSizes(Streams(g.vertexValues, ord)) <= g.vertexSize
    requires i < n && a < |ord| && j < AttributeSize(g.vertexValues[ord[a]])
  {
    var vs := Streams(g.vertexValues, ord);
    NatMul(i, g.vertexSize);
    VertexMajorAt(vs, g.vertexSize, n, i, a, j);
    VertexMajor(vs, g.vertexSize, n)[i * g.vertexSize + Offset(vs, a) + j]
  }
}
