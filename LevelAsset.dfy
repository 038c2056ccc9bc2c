/**
 * A level: a field size and an ordered list of layers. Setting the field size
 * resizes every layer; adding a layer does not.
 */
module LevelAssets {
  import opened Geometry
  import opened LevelLayers

  class LevelAsset {
    var fieldSize: Vector2Int
    var layers: seq<LevelLayer>

    /** The grid of every layer, in list order. */
    ghost var Layers: seq<seq<seq<int>>>
    ghost var Repr: set<object>

    ghost predicate Valid()
      reads this, Repr
      ensures Valid() ==> this in Repr
    {
      && this in Repr
      && |Layers| == |layers|
      && (forall i :: 0 <= i < |layers| ==> LayerValid(i))
      && (forall i, j :: 0 <= i < j < |layers| ==> Apart(i, j))
    }

    /** Layers i and j share no state. */
    ghost predicate Apart(i: int, j: int)
      reads this, Repr
      requires 0 <= i < |layers| && 0 <= j < |layers|
    {
      layers[i] in Repr && layers[j] in Repr && layers[i].Repr !! layers[j].Repr
    }

    /** Layer i is well formed, owned by the level, and its grid is Layers[i]. */
    ghost predicate LayerValid(i: int)
      reads this, Repr
      requires 0 <= i < |layers| && |Layers| == |layers|
    {
      && layers[i] in Repr
      && layers[i].Repr <= Repr
      && this !in layers[i].Repr
      && layers[i].Valid()
      && Layers[i] == layers[i].Grid()
    }

    /** ScriptableObject.CreateInstance<LevelAsset>(): a zero field size and no layers. */
    constructor ()
      ensures Valid() && fresh(Repr)
      ensures fieldSize == Vector2Int(0, 0) && layers == [] && Layers == []
    {
      fieldSize := Vector2Int(0, 0);
      layers := [];
      Layers := [];
      Repr := {this};
    }

    /**
     * SetFieldSize: the field size becomes `newFieldSize` and every layer is
     * resized to it, in order. Resizing throws for a size Resize rejects, but
     * only once there is a layer to resize.
     */
    method SetFieldSize(newFieldSize: Vector2Int)
      requires Valid()
      requires layers != [] ==> ResizeAccepts(newFieldSize)
      modifies Repr
      ensures Valid() && fresh(Repr - old(Repr))
      ensures fieldSize == newFieldSize
      ensures layers == old(layers)
      ensures forall i :: 0 <= i < |layers| ==> layers[i].name == old(layers[i].name)
      ensures |Layers| == |old(Layers)|
      ensures forall i :: 0 <= i < |Layers| ==> Layers[i] == Resized(old(Layers)[i], newFieldSize)
    {
      var i := 0;
      while i < |layers|
        invariant 0 <= i <= |layers|
        invariant layers == old(layers)
        invariant forall k :: 0 <= k < |layers| ==> layers[k].name == old(layers[k].name)
        invariant Valid() && fresh(Repr - old(Repr))
        invariant forall k :: 0 <= k < i ==> Layers[k] == Resized(old(Layers)[k], newFieldSize)
        invariant forall k :: i <= k < |layers| ==> Layers[k] == old(Layers)[k]
      {
        ResizeLayer(i, newFieldSize);
        i := i + 1;
      }
      label resized:
      fieldSize := newFieldSize;
      forall k | 0 <= k < |layers|
        ensures LayerValid(k)
      {
        assert old@resized(LayerValid(k));
      }
      forall j, k | 0 <= j < k < |layers|
        ensures Apart(j, k)
      {
        assert old@resized(Apart(j, k));
      }
    }

    /** One step of SetFieldSize's loop: `layers[i].Resize(size)`, with Layers[i] following. */
    method ResizeLayer(i: int, size: Vector2Int)
      requires Valid()
      requires 0 <= i < |layers|
      requires ResizeAccepts(size)
      modifies Repr
      ensures Valid() && fresh(Repr - old(Repr))
      ensures fieldSize == old(fieldSize) && layers == old(layers)
      ensures forall k :: 0 <= k < |layers| ==> layers[k].name == old(layers[k].name)
      ensures Layers == old(Layers)[i := Resized(old(Layers)[i], size)]
    {
      var layer := layers[i];
      assert LayerValid(i);
      ghost var before := layer.Repr;
      forall k | 0 <= k < |layers| && k != i
        ensures LayerValid(k) && layers[k].Repr !! before && layers[k] !in before
      {
        if k < i { assert Apart(k, i); } else { assert Apart(i, k); }
      }
      layer.Resize(size);
      Layers := Layers[i := layer.Grid()];
      Repr := Repr + layer.Repr;
      forall k | 0 <= k < |layers| && k != i
        ensures LayerValid(k)
      {
        assert old(LayerValid(k));
        assert layers[k].Repr == old(layers[k].Repr);
      }
      forall j, k | 0 <= j < k < |layers|
        ensures Apart(j, k)
      {
        assert old(Apart(j, k));
      }
    }

    /** AddLayer: the layer goes at the end, as it is; it is not resized to the field size. */
    method AddLayer(layer: LevelLayer)
      requires Valid() && layer.Valid()
      requires this !in layer.Repr && layer.Repr !! Repr
      modifies this
      ensures Valid() && Repr == old(Repr) + layer.Repr
      ensures fieldSize == old(fieldSize)
      ensures layers == old(layers) + [layer]
      ensures Layers == old(Layers) + [layer.Grid()]
    {
      layers := layers + [layer];
      Layers := Layers + [layer.Grid()];
      Repr := Repr + layer.Repr;
      forall k | 0 <= k < |layers|
        ensures LayerValid(k)
      {
        if k < |old(layers)| {
          assert old(LayerValid(k));
        }
      }
      forall j, k | 0 <= j < k < |layers|
        ensures Apart(j, k)
      {
        assert old(LayerValid(j));
        if k < |old(layers)| {
          assert old(Apart(j, k));
        }
      }
    }

    /** Contains: both coordinates lie in [0, fieldSize), checked axis by axis. */
    method Contains(point: Vector2Int) returns (inside: bool)
      ensures inside <==> InField(fieldSize, point)
      ensures fieldSize.x <= 0 || fieldSize.y <= 0 ==> !inside
    {
      var i := 0;
      while i < 2
        invariant 0 <= i <= 2
        invariant forall k :: 0 <= k < i ==> 0 <= Component(point, k) < Component(fieldSize, k)
      {
        var value := Component(point, i);
        if value < 0 || value >= Component(fieldSize, i) {
          return false;
        }
        i := i + 1;
      }
      assert 0 <= Component(point, 0) < Component(fieldSize, 0);
      assert 0 <= Component(point, 1) < Component(fieldSize, 1);
      return true;
    }

    /** The indexer `this[i]`: layer i, whose grid is Layers[i]. */
    function Layer(i: int): (layer: LevelLayer)
      reads this, Repr
      requires Valid()
      requires 0 <= i < |layers|
      ensures layer in Repr && layer.Valid() && layer.Repr <= Repr
      ensures layer.Grid() == Layers[i]
    {
      assert LayerValid(i);
      layers[i]
    }

    /** Whether `this[i][x, y]` finds a cell rather than throwing. */
    function HasCell(i: int, x: int, y: int): (b: bool)
      reads this, Repr
      requires Valid()
      ensures b <==> 0 <= i < |Layers| && 0 <= x < |Layers[i]| && 0 <= y < |Layers[i][x]|
    {
      0 <= i < |layers| && Layer(i).HasCell(x, y)
    }

    /** LayerCount: one per layer grid. */
    function LayerCount(): (n: nat)
      reads this, Repr
      requires Valid()
      ensures n == |Layers|
    {
      |layers|
    }

    /**
     * The write `this[i][x, y] = v`: cell (x, y) of layer i changes and
     * nothing else in the level does.
     */
    method SetLayerCell(i: int, x: int, y: int, v: int)
      requires Valid()
      requires 0 <= i < |layers|
      requires 0 <= x < |Layers[i]| && 0 <= y < |Layers[i][x]|
      modifies Repr
      ensures Valid() && Repr == old(Repr)
      ensures fieldSize == old(fieldSize) && layers == old(layers)
      ensures forall k :: 0 <= k < |layers| ==> layers[k].name == old(layers[k].name)
      ensures Layers == old(Layers)[i := old(Layers)[i][x := old(Layers)[i][x][y := v]]]
    {
      var layer := layers[i];
      assert LayerValid(i);
      ghost var before := layer.Repr;
      forall k | 0 <= k < |layers| && k != i
        ensures LayerValid(k) && layers[k].Repr !! before
      {
        if k < i { assert Apart(k, i); } else { assert Apart(i, k); }
      }
      layer.SetCell(x, y, v);
      Layers := Layers[i := layer.Grid()];
      forall k | 0 <= k < |layers| && k != i
        ensures LayerValid(k)
      {
        assert old(LayerValid(k));
        assert layers[k].Repr == old(layers[k].Repr);
      }
      forall j, k | 0 <= j < k < |layers|
        ensures Apart(j, k)
      {
        assert old(Apart(j, k));
      }
    }
  }
}
