/** Coordinate systems: an ordered, name-keyed, immutable collection of axes,
    with the voxel and diagonal variants. */
module CoordinateSystems {
  import opened Wrappers

  /** Voxel axes are rebuilt by VoxelCoordinateSystem; every other axis is
      given by the caller. */
  datatype AxisKind = Given | Voxel

  /** The axis attributes the core reads. */
  datatype Axis = Axis(name: string, length: int, start: real, step: real, kind: AxisKind)

  /** A voxel axis of `length` samples, indexed from 0 in unit steps. */
  function VoxelAxis(name: string, length: int): Axis
  {
    Axis(name, length, 0.0, 1.0, Voxel)
  }

  /** Voxel index `x` lies in `[0, length)`. */
  predicate VoxelValid(ax: Axis, x: int)
  {
    0 <= x < ax.length
  }

  datatype CoordinateSystem = CoordinateSystem(name: string, axes: seq<Axis>)

  datatype CoordError = KeyError(axis: string, names: seq<string>) | TypeError(message: string)

  predicate UniqueNames(axes: seq<Axis>)
  {
    forall i, j :: 0 <= i < j < |axes| ==> axes[i].name != axes[j].name
  }

  /** The invariant of every coordinate system: axis names are unique. */
  predicate WellFormed(cs: CoordinateSystem)
  {
    UniqueNames(cs.axes)
  }

  function Ndim(cs: CoordinateSystem): nat
  {
    |cs.axes|
  }

  function Names(axes: seq<Axis>): (names: seq<string>)
    ensures |names| == |axes|
    ensures forall i :: 0 <= i < |axes| ==> names[i] == axes[i].name
  {
    if axes == [] then [] else [axes[0].name] + Names(axes[1..])
  }

  /** The axis names in construction order. */
  function AxisNames(cs: CoordinateSystem): (names: seq<string>)
    ensures |names| == Ndim(cs)
    ensures forall i :: 0 <= i < Ndim(cs) ==> names[i] == cs.axes[i].name
  {
    Names(cs.axes)
  }

  /** The position of the first axis called `name`. */
  function Find(axes: seq<Axis>, name: string): (r: Option<nat>)
    ensures r.Some? ==> r.value < |axes| && axes[r.value].name == name
    ensures r.Some? ==> forall k :: 0 <= k < r.value ==> axes[k].name != name
    ensures r.None? <==> forall k :: 0 <= k < |axes| ==> axes[k].name != name
  {
    if axes == [] then None
    else if axes[0].name == name then Some(0)
    else match Find(axes[1..], name)
      case None => None
      case Some(k) => Some(k + 1)
  }

  /** `cs[name]`: the axis called `name`, or a KeyError listing the names. */
  function GetItem(cs: CoordinateSystem, name: string): (r: Result<Axis, CoordError>)
    ensures r.Success? <==> name in AxisNames(cs)
    ensures r.Success? ==> r.value in cs.axes && r.value.name == name
    ensures r.Failure? ==> r.error == KeyError(name, AxisNames(cs))
  {
    match Find(cs.axes, name)
    case Some(k) => Success(cs.axes[k])
    case None => Failure(KeyError(name, AxisNames(cs)))
  }

  /** `cs[name] = value` is always refused. */
  function SetItem(cs: CoordinateSystem, name: string, value: Axis): (r: Result<CoordinateSystem, CoordError>)
    ensures r.Failure? && r.error.TypeError?
  {
    Failure(TypeError("CoordinateSystem does not support axis assignment"))
  }

  function HasAxis(cs: CoordinateSystem, name: string): (b: bool)
    ensures b <==> name in AxisNames(cs)
  {
    Find(cs.axes, name).Some?
  }

  /** The axis called `name`, or `None`. */
  function GetAxis(cs: CoordinateSystem, name: string): (r: Option<Axis>)
    ensures r.None? <==> !HasAxis(cs, name)
    ensures r.Some? ==> GetItem(cs, name) == Success(r.value)
  {
    match GetItem(cs, name)
    case Success(ax) => Some(ax)
    case Failure(_) => None
  }

  /** In a well-formed system the lookup of each axis's name finds that axis. */
  lemma LookupFindsAxis(cs: CoordinateSystem, i: nat)
    requires WellFormed(cs) && i < Ndim(cs)
    ensures GetItem(cs, cs.axes[i].name) == Success(cs.axes[i])
    ensures GetAxis(cs, cs.axes[i].name) == Some(cs.axes[i])
  {
    var k := Find(cs.axes, cs.axes[i].name);
    assert k.Some?;
    assert k.value == i;
  }

  /** `__eq__`: `None` stands for an object lacking `name` or `axes`. */
  function Equals(cs: CoordinateSystem, other: Option<CoordinateSystem>): (b: bool)
    ensures b <==> other == Some(cs)
  {
    match other
    case None => false
    case Some(o) => (cs.name, cs.axes) == (o.name, o.axes)
  }

  /** `[s[i] for i in order]`. */
  function Permute<T>(s: seq<T>, order: seq<nat>): (r: seq<T>)
    requires forall k :: 0 <= k < |order| ==> order[k] < |s|
    ensures |r| == |order|
    ensures forall k :: 0 <= k < |order| ==> r[k] == s[order[k]]
  {
    if order == [] then [] else [s[order[0]]] + Permute(s, order[1..])
  }

  predicate DistinctIndices(order: seq<nat>, n: nat)
  {
    (forall k :: 0 <= k < |order| ==> order[k] < n) &&
    (forall k, l :: 0 <= k < l < |order| ==> order[k] != order[l])
  }

  /** `order` lists each of `0 .. n-1` exactly once. */
  predicate IsPermutation(order: seq<nat>, n: nat)
  {
    |order| == n && DistinctIndices(order, n) && forall i :: 0 <= i < n ==> i in order
  }

  function PositionOf(order: seq<nat>, i: nat): (k: nat)
    requires i in order
    ensures k < |order| && order[k] == i
  {
    if order[0] == i then 0 else 1 + PositionOf(order[1..], i)
  }

  /** The inverse permutation: position `i` holds where `i` sits in `order`. */
  function Inverse(order: seq<nat>): (inv: seq<nat>)
    requires IsPermutation(order, |order|)
    ensures IsPermutation(inv, |order|)
    ensures forall k :: 0 <= k < |order| ==> inv[order[k]] == k && order[inv[k]] == k
  {
    var inv := seq(|order|, i requires 0 <= i < |order| => PositionOf(order, i));
    assert forall k :: 0 <= k < |order| ==> inv[order[k]] == k by {
      forall k | 0 <= k < |order|
        ensures inv[order[k]] == k
      {
        var p := PositionOf(order, order[k]);
        assert order[p] == order[k];
      }
    }
    assert forall k :: 0 <= k < |order| ==> k in inv by {
      forall k | 0 <= k < |order|
        ensures k in inv
      {
        assert inv[order[k]] == k;
      }
    }
    inv
  }

  /** `reorder(name, order)`: a new system whose axes are picked by `order`,
      named `name` or, by default, as before. */
  function Reorder(cs: CoordinateSystem, name: Option<string>, order: seq<nat>): (r: CoordinateSystem)
    requires DistinctIndices(order, Ndim(cs))
    ensures r.name == (if name.Some? then name.value else cs.name)
    ensures Ndim(r) == |order| && forall k :: 0 <= k < |order| ==> r.axes[k] == cs.axes[order[k]]
    ensures WellFormed(cs) ==> WellFormed(r)
  {
    CoordinateSystem(if name.Some? then name.value else cs.name, Permute(cs.axes, order))
  }

  /** Reordering by a permutation and then by its inverse restores the axes. */
  lemma ReorderInverse(cs: CoordinateSystem, p: seq<nat>, n1: Option<string>, n2: Option<string>)
    requires IsPermutation(p, Ndim(cs))
    ensures Reorder(Reorder(cs, n1, p), n2, Inverse(p)).axes == cs.axes
  {
    var once := Reorder(cs, n1, p);
    var twice := Reorder(once, n2, Inverse(p));
    forall k | 0 <= k < Ndim(cs)
      ensures twice.axes[k] == cs.axes[k]
    {
      assert twice.axes[k] == once.axes[Inverse(p)[k]];
      assert p[Inverse(p)[k]] == k;
    }
  }

  function Reversed<T>(s: seq<T>): (r: seq<T>)
    ensures |r| == |s|
    ensures forall k :: 0 <= k < |s| ==> r[k] == s[|s| - 1 - k]
  {
    if s == [] then [] else Reversed(s[1..]) + [s[0]]
  }

  /** `reverse(name)`: the axes in the opposite order. */
  function Reverse(cs: CoordinateSystem, name: Option<string>): (r: CoordinateSystem)
    ensures r.name == (if name.Some? then name.value else cs.name)
    ensures Ndim(r) == Ndim(cs)
    ensures forall k :: 0 <= k < Ndim(cs) ==> r.axes[k] == cs.axes[Ndim(cs) - 1 - k]
    ensures WellFormed(cs) ==> WellFormed(r)
  {
    var r := CoordinateSystem(if name.Some? then name.value else cs.name, Reversed(cs.axes));
    assert WellFormed(cs) ==> WellFormed(r) by {
      if WellFormed(cs) {
        forall i, j | 0 <= i < j < Ndim(r)
          ensures r.axes[i].name != r.axes[j].name
        {
          assert r.axes[i] == cs.axes[Ndim(cs) - 1 - i];
          assert r.axes[j] == cs.axes[Ndim(cs) - 1 - j];
        }
      }
    }
    r
  }

  /** Reversing twice restores the axes; with no new names, the system. */
  lemma ReverseInvolution(cs: CoordinateSystem, name: Option<string>)
    ensures Reverse(Reverse(cs, name), None).axes == cs.axes
    ensures Reverse(Reverse(cs, None), None) == cs
  {
    ReversedTwice(cs.axes);
  }

  lemma ReversedTwice<T>(s: seq<T>)
    ensures Reversed(Reversed(s)) == s
  {
    var once := Reversed(s);
    var twice := Reversed(once);
    forall k | 0 <= k < |s|
      ensures twice[k] == s[k]
    {
      assert twice[k] == once[|s| - 1 - k];
    }
  }

  /** The per-axis validity test over the first `|axes|` coordinates. */
  function AllValid<X>(axes: seq<Axis>, x: seq<X>, valid: (Axis, X) -> bool): (b: bool)
    requires |x| >= |axes|
    ensures b <==> forall i :: 0 <= i < |axes| ==> valid(axes[i], x[i])
  {
    if axes == [] then true else valid(axes[0], x[0]) && AllValid(axes[1..], x[1..], valid)
  }

  /** `isvalid(x)`, with `valid` standing for each axis's own test. */
  function IsValid<X>(cs: CoordinateSystem, x: seq<X>, valid: (Axis, X) -> bool): (b: bool)
    requires |x| >= Ndim(cs)
    ensures b <==> forall i :: 0 <= i < Ndim(cs) ==> valid(cs.axes[i], x[i])
  {
    AllValid(cs.axes, x, valid)
  }

  function Lengths(axes: seq<Axis>): (shape: seq<int>)
    ensures |shape| == |axes|
    ensures forall i :: 0 <= i < |axes| ==> shape[i] == axes[i].length
  {
    if axes == [] then [] else [axes[0].length] + Lengths(axes[1..])
  }

  datatype VoxelCoordinateSystem = VoxelCoordinateSystem(system: CoordinateSystem, shape: seq<int>)

  /** `[VoxelAxis(ax.name, length) for (ax, length) in zip(axes, shape)]`. */
  function VoxelAxes(axes: seq<Axis>, shape: seq<int>): (vs: seq<Axis>)
    requires |shape| == |axes|
    ensures |vs| == |axes|
    ensures forall i :: 0 <= i < |axes| ==> vs[i] == VoxelAxis(axes[i].name, shape[i])
  {
    if axes == [] then [] else [VoxelAxis(axes[0].name, shape[0])] + VoxelAxes(axes[1..], shape[1..])
  }

  /** An explicit shape wins; otherwise the axis lengths give it. The axes
      are rebuilt as voxel axes of those lengths, names and order kept. */
  function MakeVoxel(name: string, axes: seq<Axis>, shape: Option<seq<int>>): (v: VoxelCoordinateSystem)
    requires shape.Some? ==> |shape.value| == |axes|
    ensures |v.shape| == |axes|
    ensures shape.Some? ==> v.shape == shape.value
    ensures shape.None? ==> forall i :: 0 <= i < |axes| ==> v.shape[i] == axes[i].length
    ensures v.system.name == name && Ndim(v.system) == |axes|
    ensures forall i :: 0 <= i < |axes| ==> v.system.axes[i] == VoxelAxis(axes[i].name, v.shape[i])
    ensures UniqueNames(axes) ==> WellFormed(v.system)
  {
    var s := if shape.Some? then shape.value else Lengths(axes);
    VoxelCoordinateSystem(CoordinateSystem(name, VoxelAxes(axes, s)), s)
  }

  /** A voxel coordinate is valid exactly when each index is in `[0, shape[i])`. */
  lemma VoxelValidity(name: string, axes: seq<Axis>, shape: Option<seq<int>>, x: seq<int>)
    requires shape.Some? ==> |shape.value| == |axes|
    requires |x| >= |axes|
    ensures var v := MakeVoxel(name, axes, shape);
      IsValid(v.system, x, VoxelValid) <==> forall i :: 0 <= i < |axes| ==> 0 <= x[i] < v.shape[i]
  {
  }

  datatype DiagonalCoordinateSystem = DiagonalCoordinateSystem(system: CoordinateSystem, shape: seq<int>)

  function MakeDiagonal(name: string, axes: seq<Axis>): (d: DiagonalCoordinateSystem)
    ensures d.system == CoordinateSystem(name, axes)
    ensures |d.shape| == |axes| && forall i :: 0 <= i < |axes| ==> d.shape[i] == axes[i].length
  {
    DiagonalCoordinateSystem(CoordinateSystem(name, axes), Lengths(axes))
  }

  /** Starts 10 and 20 with steps 2 and 3 give [[2,0,10],[0,3,20],[0,0,1]]. */
  lemma TransformExample()
    ensures var axes := [Axis("x", 5, 10.0, 2.0, Given), Axis("y", 7, 20.0, 3.0, Given)];
      TransformEntry(axes, 0, 0) == 2.0 && TransformEntry(axes, 0, 1) == 0.0 && TransformEntry(axes, 0, 2) == 10.0 &&
      TransformEntry(axes, 1, 0) == 0.0 && TransformEntry(axes, 1, 1) == 3.0 && TransformEntry(axes, 1, 2) == 20.0 &&
      TransformEntry(axes, 2, 0) == 0.0 && TransformEntry(axes, 2, 1) == 0.0 && TransformEntry(axes, 2, 2) == 1.0
  {
  }

  /** The homogeneous transform: each axis's step on the diagonal, its start
      in the last column, 1 in the corner and 0 elsewhere. */
  method Transform(d: DiagonalCoordinateSystem) returns (m: array2<real>)
    ensures fresh(m)
    ensures m.Length0 == Ndim(d.system) + 1 && m.Length1 == Ndim(d.system) + 1
    ensures forall i, j :: 0 <= i < m.Length0 && 0 <= j < m.Length1 ==>
      m[i, j] == TransformEntry(d.system.axes, i, j)
  {
    var axes := d.system.axes;
    var n := |axes|;
    m := new real[n + 1, n + 1]((i, j) => 0.0);
    m[n, n] := 1.0;
    for i := 0 to n
      invariant forall r, c :: 0 <= r <= n && 0 <= c <= n ==>
        m[r, c] == if r < i || r == n then TransformEntry(axes, r, c) else 0.0
    {
      m[i, i] := axes[i].step;
      m[i, n] := axes[i].start;
    }
  }

  /** Entry `(i, j)` of the transform of `axes`. */
  function TransformEntry(axes: seq<Axis>, i: nat, j: nat): real
  {
    var n := |axes|;
    if i < n && j == i then axes[i].step
    else if i < n && j == n then axes[i].start
    else if i == n && j == n then 1.0
    else 0.0
  }
}
