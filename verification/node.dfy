/** The scene `Node` of `fine_transform`: a transform, a cached local
    matrix, a cached world matrix and the two flags that say when the
    caches must be recomputed. Matrices, vectors and quaternions are opaque
    type parameters; the matrix operations the node uses are passed in as a
    `MatrixLibrary`. */
module SceneNode {
  import opened Wrappers

  /** `Transform`: scale, rotation and translation. */
  datatype Transform<V, Q> = Transform(scale: V, rotation: Q, translation: V)

  /** The matrix operations a node relies on: `Mat4::IDENTITY`,
      `Transform::new()`, `mul_mat4`, `from_scale_rotation_translation` and
      `to_scale_rotation_translation`. */
  datatype MatrixLibrary<!M, !V, !Q> = MatrixLibrary(
    identity: M,
    defaultTransform: Transform<V, Q>,
    mul: (M, M) -> M,
    fromSRT: (V, Q, V) -> M,
    toSRT: M -> (V, Q, V))

  datatype Node<M, V, Q> = Node(
    transform: Transform<V, Q>,
    localMatrix: M,
    invalidLocalMatrix: bool,
    worldMatrix: M,
    invalidWorldMatrix: bool)

  /** `Node::default` (and `Node::new`): identity matrices, nothing to
      recompute. */
  function Default<M, V, Q>(lib: MatrixLibrary<M, V, Q>): (n: Node<M, V, Q>)
    ensures n.localMatrix == lib.identity && n.worldMatrix == lib.identity
    ensures n.transform == lib.defaultTransform
    ensures !n.invalidLocalMatrix && !n.invalidWorldMatrix
  {
    Node(lib.defaultTransform, lib.identity, false, lib.identity, false)
  }

  /** `from_mat4`: the given local matrix and its decomposition as the
      transform; the world matrix and both flags as in `default`. */
  function FromMat4<M, V, Q>(lib: MatrixLibrary<M, V, Q>, local: M): (n: Node<M, V, Q>)
    ensures n.localMatrix == local
    ensures n.transform == Transform(lib.toSRT(local).0, lib.toSRT(local).1, lib.toSRT(local).2)
    ensures n.worldMatrix == lib.identity
    ensures !n.invalidLocalMatrix && !n.invalidWorldMatrix
  {
    var srt := lib.toSRT(local);
    Default(lib).(localMatrix := local, transform := Transform(srt.0, srt.1, srt.2))
  }

  /** `invalidate`: both caches must be recomputed. */
  function Invalidate<M, V, Q>(n: Node<M, V, Q>): (r: Node<M, V, Q>)
    ensures r.invalidLocalMatrix && r.invalidWorldMatrix
    ensures r.transform == n.transform && r.localMatrix == n.localMatrix && r.worldMatrix == n.worldMatrix
  {
    n.(invalidLocalMatrix := true, invalidWorldMatrix := true)
  }

  /** `set_transform`: the new transform, and both caches invalid. */
  function SetTransform<M, V, Q>(n: Node<M, V, Q>, t: Transform<V, Q>): (r: Node<M, V, Q>)
    ensures r.transform == t
    ensures r.invalidLocalMatrix && r.invalidWorldMatrix
    ensures r.localMatrix == n.localMatrix && r.worldMatrix == n.worldMatrix
  {
    Invalidate(n.(transform := t))
  }

  /** `get_mut_transform` followed by the caller's edit of the borrowed
      transform: both caches invalid, whatever the edit. */
  function GetMutTransform<M, V, Q>(n: Node<M, V, Q>, edit: Transform<V, Q> -> Transform<V, Q>): (r: Node<M, V, Q>)
    ensures r.transform == edit(n.transform)
    ensures r.invalidLocalMatrix && r.invalidWorldMatrix
    ensures r.localMatrix == n.localMatrix && r.worldMatrix == n.worldMatrix
  {
    Invalidate(n).(transform := edit(n.transform))
  }

  /** `is_invalid`: reports the local flag only. */
  function IsInvalid<M, V, Q>(n: Node<M, V, Q>): (r: bool)
    ensures r <==> n.invalidLocalMatrix
  {
    n.invalidLocalMatrix
  }

  /** `update_local_matrix`: recomputes the local matrix from the transform
      when it is invalid. It does not clear the flag. */
  function UpdateLocalMatrix<M, V, Q>(lib: MatrixLibrary<M, V, Q>, n: Node<M, V, Q>): (r: Node<M, V, Q>)
    ensures n.invalidLocalMatrix ==>
      r.localMatrix == lib.fromSRT(n.transform.scale, n.transform.rotation, n.transform.translation)
    ensures !n.invalidLocalMatrix ==> r.localMatrix == n.localMatrix
    ensures r.transform == n.transform && r.worldMatrix == n.worldMatrix
    ensures r.invalidLocalMatrix == n.invalidLocalMatrix && r.invalidWorldMatrix == n.invalidWorldMatrix
  {
    if n.invalidLocalMatrix then
      n.(localMatrix := lib.fromSRT(n.transform.scale, n.transform.rotation, n.transform.translation))
    else n
  }

  /** `update_world_matrix`: updates the local matrix, then, when the world
      matrix is invalid, recomputes it as the parent's world matrix times
      the local matrix, or as the local matrix for a root. It does not clear
      the flag. */
  function UpdateWorldMatrix<M, V, Q>(lib: MatrixLibrary<M, V, Q>, n: Node<M, V, Q>, parent: Option<Node<M, V, Q>>): (r: Node<M, V, Q>)
    ensures r.localMatrix == UpdateLocalMatrix(lib, n).localMatrix
    ensures n.invalidWorldMatrix && parent.Some? ==> r.worldMatrix == lib.mul(parent.value.worldMatrix, r.localMatrix)
    ensures n.invalidWorldMatrix && parent.None? ==> r.worldMatrix == r.localMatrix
    ensures !n.invalidWorldMatrix ==> r.worldMatrix == n.worldMatrix
    ensures r.transform == n.transform
    ensures r.invalidLocalMatrix == n.invalidLocalMatrix && r.invalidWorldMatrix == n.invalidWorldMatrix
  {
    var m := UpdateLocalMatrix(lib, n);
    if m.invalidWorldMatrix then
      match parent
      case Some(p) => m.(worldMatrix := lib.mul(p.worldMatrix, m.localMatrix))
      case None => m.(worldMatrix := m.localMatrix)
    else m
  }

  /** One call on a node. */
  datatype Op<!M, !V, !Q> =
    | SetTransformOp(t: Transform<V, Q>)
    | GetMutTransformOp(edit: Transform<V, Q> -> Transform<V, Q>)
    | InvalidateOp
    | UpdateLocalOp
    | UpdateWorldOp(parent: Option<Node<M, V, Q>>)

  function Apply<M, V, Q>(lib: MatrixLibrary<M, V, Q>, n: Node<M, V, Q>, op: Op<M, V, Q>): Node<M, V, Q>
  {
    match op
    case SetTransformOp(t) => SetTransform(n, t)
    case GetMutTransformOp(edit) => GetMutTransform(n, edit)
    case InvalidateOp => Invalidate(n)
    case UpdateLocalOp => UpdateLocalMatrix(lib, n)
    case UpdateWorldOp(parent) => UpdateWorldMatrix(lib, n, parent)
  }

  /** The calls in order. */
  function Run<M, V, Q>(lib: MatrixLibrary<M, V, Q>, n: Node<M, V, Q>, ops: seq<Op<M, V, Q>>): Node<M, V, Q>
    decreases |ops|
  {
    if |ops| == 0 then n else Run(lib, Apply(lib, n, ops[0]), ops[1..])
  }

  /** Whether a call sets both flags. */
  predicate Invalidating<M, V, Q>(op: Op<M, V, Q>)
  {
    op.SetTransformOp? || op.GetMutTransformOp? || op.InvalidateOp?
  }

  /** No call ever clears a flag, and a flag becomes set exactly when it was
      set before or an invalidating call is made. */
  lemma {:induction false} FlagsMonotone<M, V, Q>(lib: MatrixLibrary<M, V, Q>, n: Node<M, V, Q>, ops: seq<Op<M, V, Q>>)
    ensures Run(lib, n, ops).invalidLocalMatrix
        <==> n.invalidLocalMatrix || exists i :: 0 <= i < |ops| && Invalidating(ops[i])
    ensures Run(lib, n, ops).invalidWorldMatrix
        <==> n.invalidWorldMatrix || exists i :: 0 <= i < |ops| && Invalidating(ops[i])
    decreases |ops|
  {
    if |ops| > 0 {
      var n' := Apply(lib, n, ops[0]);
      FlagsMonotone(lib, n', ops[1..]);
      assert (exists i :: 0 <= i < |ops| && Invalidating(ops[i]))
         <==> Invalidating(ops[0]) || exists i :: 0 <= i < |ops[1..]| && Invalidating(ops[1..][i]) by {
        if exists i :: 0 <= i < |ops| && Invalidating(ops[i]) {
          var i :| 0 <= i < |ops| && Invalidating(ops[i]);
          if i > 0 { assert Invalidating(ops[1..][i - 1]); }
        }
        if exists i :: 0 <= i < |ops[1..]| && Invalidating(ops[1..][i]) {
          var i :| 0 <= i < |ops[1..]| && Invalidating(ops[1..][i]);
          assert Invalidating(ops[i + 1]);
        }
      }
    }
  }

  /** Once invalidated, a node recomputes on every later update: whatever
      calls came in between, the next `update_world_matrix` yields the
      parent's world matrix times the matrix of the current transform. */
  lemma InvalidatedAlwaysRecomputes<M, V, Q>(lib: MatrixLibrary<M, V, Q>, n: Node<M, V, Q>, ops: seq<Op<M, V, Q>>,
                                              parent: Option<Node<M, V, Q>>)
    requires n.invalidLocalMatrix && n.invalidWorldMatrix
    ensures var m := Run(lib, n, ops);
      var local := lib.fromSRT(m.transform.scale, m.transform.rotation, m.transform.translation);
      && UpdateWorldMatrix(lib, m, parent).localMatrix == local
      && UpdateWorldMatrix(lib, m, parent).worldMatrix
         == (if parent.Some? then lib.mul(parent.value.worldMatrix, local) else local)
  {
    FlagsMonotone(lib, n, ops);
  }

  /** Updating twice with the same parent is updating once. */
  lemma UpdateIdempotent<M, V, Q>(lib: MatrixLibrary<M, V, Q>, n: Node<M, V, Q>, parent: Option<Node<M, V, Q>>)
    ensures UpdateWorldMatrix(lib, UpdateWorldMatrix(lib, n, parent), parent) == UpdateWorldMatrix(lib, n, parent)
  {
  }

  /** A node with both flags clear is a fixpoint of the update, whatever
      the parent. */
  lemma ValidIsFixpoint<M, V, Q>(lib: MatrixLibrary<M, V, Q>, n: Node<M, V, Q>, parent: Option<Node<M, V, Q>>)
    requires !n.invalidLocalMatrix && !n.invalidWorldMatrix
    ensures UpdateWorldMatrix(lib, n, parent) == n
  {
  }

  // ---------------------------------------------------------------------
  // `from_mat4` leaves the world matrix stale.

  /** Updating a node built by `from_mat4` leaves its world matrix at the
      identity, whatever its local matrix and its parent; by
      `UpdateIdempotent` further updates change nothing. */
  lemma FromMat4WorldStale<M, V, Q>(lib: MatrixLibrary<M, V, Q>, local: M, parent: Option<Node<M, V, Q>>)
    ensures UpdateWorldMatrix(lib, FromMat4(lib, local), parent).worldMatrix == lib.identity
    ensures UpdateWorldMatrix(lib, FromMat4(lib, local), parent).localMatrix == local
  {
  }

  /** `from_mat4` as evidently intended: the world matrix marked invalid, so
      that the first update derives it from the given local matrix. */
  function FromMat4Invalidated<M, V, Q>(lib: MatrixLibrary<M, V, Q>, local: M): (n: Node<M, V, Q>)
    ensures n.localMatrix == local && !n.invalidLocalMatrix && n.invalidWorldMatrix
    ensures n.transform == FromMat4(lib, local).transform
  {
    FromMat4(lib, local).(invalidWorldMatrix := true)
  }

  /** With the world flag set, updating a node built from a matrix yields
      that matrix as the world matrix of a root, and the parent's world
      matrix times it otherwise. */
  lemma FromMat4InvalidatedWorld<M, V, Q>(lib: MatrixLibrary<M, V, Q>, local: M, parent: Option<Node<M, V, Q>>)
    ensures UpdateWorldMatrix(lib, FromMat4Invalidated(lib, local), parent).worldMatrix
         == (if parent.Some? then lib.mul(parent.value.worldMatrix, local) else local)
  {
  }
}
