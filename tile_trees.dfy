/** Tile trees as read back from a tileset JSON written by another tool (py3dtiles): each node
  * has a `geometricError`, an optional `children` list, and any other members, which the
  * rewriters carry over untouched. Shared by the Python and JavaScript rescaling. */
module TileTrees {
  import opened Wrappers

  datatype TileNode<V> = TileNode(geometricError: real, kids: Kids<V>, others: seq<(string, V)>)

  /** The `children` member: a leaf has none (an empty list is still a member). */
  datatype Kids<V> = NoChildren | Children(nodes: seq<TileNode<V>>)

  /** `scale_geometric_error(leaf, scale)` / `scaleGeometricError(leaf, scale)`: the node with
    * its error multiplied, other members kept, and the children (if present) rescaled. */
  function Scaled<V>(t: TileNode<V>, s: real): TileNode<V>
    decreases t
  {
    match t.kids
    case NoChildren => TileNode(t.geometricError * s, NoChildren, t.others)
    case Children(cs) =>
      TileNode(t.geometricError * s,
               Children(seq(|cs|, i requires 0 <= i < |cs| => Scaled(cs[i], s))),
               t.others)
  }

  /** The node reached from `t` by following child indices. */
  function At<V>(t: TileNode<V>, path: seq<nat>): Option<TileNode<V>>
    decreases |path|
  {
    if path == [] then Some(t)
    else match t.kids
      case NoChildren => None
      case Children(cs) => if path[0] < |cs| then At(cs[path[0]], path[1..]) else None
  }

  /** Rescaling keeps the shape of the tree and every node's other members, adds `children` to
    * no leaf, and multiplies the error of every node by the factor. */
  lemma {:induction false} ScaledNodes<V>(t: TileNode<V>, s: real, path: seq<nat>)
    decreases |path|
    ensures At(Scaled(t, s), path).Some? <==> At(t, path).Some?
    ensures At(t, path).Some? ==>
      var a, b := At(Scaled(t, s), path).value, At(t, path).value;
      a.geometricError == b.geometricError * s && a.others == b.others &&
      a.kids.NoChildren? == b.kids.NoChildren? &&
      (a.kids.Children? ==> |a.kids.nodes| == |b.kids.nodes|)
  {
    if path != [] {
      match t.kids
      case NoChildren =>
      case Children(cs) =>
        if path[0] < |cs| {
          ScaledNodes(cs[path[0]], s, path[1..]);
        }
    }
  }

  /** Rescaling twice is rescaling once by the product. */
  lemma {:induction false} ScaleComposes<V>(t: TileNode<V>, a: real, b: real)
    decreases t
    ensures Scaled(Scaled(t, a), b) == Scaled(t, a * b)
  {
    match t.kids
    case NoChildren =>
    case Children(cs) =>
      var inner := Scaled(t, a).kids.nodes;
      forall i | 0 <= i < |cs|
        ensures Scaled(inner[i], b) == Scaled(cs[i], a * b)
      {
        ScaleComposes(cs[i], a, b);
      }
      assert Scaled(Scaled(t, a), b).kids.nodes == Scaled(t, a * b).kids.nodes;
  }

  /** The default factor 1 gives back the same tree. */
  lemma {:induction false} ScaleByOne<V>(t: TileNode<V>)
    decreases t
    ensures Scaled(t, 1.0) == t
  {
    match t.kids
    case NoChildren =>
    case Children(cs) =>
      forall i | 0 <= i < |cs|
        ensures Scaled(cs[i], 1.0) == cs[i]
      {
        ScaleByOne(cs[i]);
      }
      assert Scaled(t, 1.0).kids.nodes == cs;
  }

  /** No node's error exceeds its parent's. */
  predicate Monotone<V>(t: TileNode<V>)
    decreases t
  {
    match t.kids
    case NoChildren => true
    case Children(cs) =>
      forall i :: 0 <= i < |cs| ==> cs[i].geometricError <= t.geometricError && Monotone(cs[i])
  }

  /** A non-negative factor keeps errors non-increasing down the tree. */
  lemma {:induction false} ScaleKeepsMonotone<V>(t: TileNode<V>, s: real)
    requires Monotone(t) && s >= 0.0
    decreases t
    ensures Monotone(Scaled(t, s))
  {
    match t.kids
    case NoChildren =>
    case Children(cs) =>
      var scaled := Scaled(t, s).kids.nodes;
      forall i | 0 <= i < |cs|
        ensures scaled[i].geometricError <= t.geometricError * s && Monotone(scaled[i])
      {
        ScaleKeepsMonotone(cs[i], s);
        assert cs[i].geometricError * s <= t.geometricError * s by {
          MultiplyMonotone(cs[i].geometricError, t.geometricError, s);
        }
      }
  }

  lemma MultiplyMonotone(x: real, y: real, s: real)
    requires x <= y && s >= 0.0
    ensures x * s <= y * s
  {
    assert (y - x) * s >= 0.0;
  }
}
