/** Stepping through the slices of an N-dimensional grid along one axis:
    Slicer, SliceIterator and AllSliceIterator. */
module Slicers {
  import opened Wrappers
  import opened Records

  function Max(a: int, b: int): int { if a < b then b else a }

  /** Number of emissions of a walk whose cursor starts at `first` and
      advances by `stride` per emission; the end test `cursor >= last`
      follows each emission, so there is always at least one. */
  function Emissions(first: int, last: int, stride: int): (n: nat)
    requires stride > 0
    decreases last - first
  {
    if first + stride >= last then 1 else 1 + Emissions(first + stride, last, stride)
  }

  /** With `first < last` the walk emits the ceiling of the extent over the
      stride: the smallest `n` with `n * stride >= last - first`. */
  lemma {:induction false} EmissionsIsCeiling(first: int, last: int, stride: int)
    requires stride > 0 && first < last
    ensures (Emissions(first, last, stride) - 1) * stride < last - first
    ensures last - first <= Emissions(first, last, stride) * stride
    decreases last - first
  {
    var n := Emissions(first, last, stride);
    if first + stride < last {
      EmissionsIsCeiling(first + stride, last, stride);
      var m := Emissions(first + stride, last, stride);
      assert n == 1 + m;
      assert n * stride == stride + m * stride;
      assert (n - 1) * stride == m * stride;
    }
  }

  /** Starting at an extent already covered, one emission is made. */
  lemma EmissionsEmptyExtent(first: int, last: int, stride: int)
    requires stride > 0 && first >= last
    ensures Emissions(first, last, stride) == 1
  {
  }

  /** Shape [13, 128, 128], axis 0, unit steps, one slice per step: 13 emissions. */
  lemma {:induction false} ThirteenSlices()
    ensures Emissions(0, 13, 1) == 13
  {
    EmissionsIsCeiling(0, 13, 1);
  }

  /** If the `k`-th emission is the first whose advanced cursor reaches
      `last`, then `k` is the number of emissions. */
  lemma {:induction false} EmissionsExact(first: int, last: int, stride: int, k: int)
    requires stride > 0 && k >= 1
    requires first + k * stride >= last
    requires k == 1 || first + (k - 1) * stride < last
    ensures Emissions(first, last, stride) == k
    decreases k
  {
    if k > 1 {
      assert (k - 1) * stride >= stride by {
        assert (k - 1) * stride == (k - 2) * stride + stride;
        assert (k - 2) * stride >= 0;
      }
      assert first + stride < last;
      assert (first + stride) + (k - 1) * stride == first + k * stride;
      assert k - 1 == 1 || (first + stride) + (k - 2) * stride < last by {
        assert (first + stride) + (k - 2) * stride == first + (k - 1) * stride;
      }
      EmissionsExact(first + stride, last, stride, k - 1);
    }
  }

  /** While the cursor after `k` emissions is still below `last`, more
      emissions follow. */
  lemma {:induction false} EmissionsBelow(first: int, last: int, stride: int, k: int)
    requires stride > 0 && k >= 0
    requires k == 0 || first + k * stride < last
    ensures k < Emissions(first, last, stride)
    decreases k
  {
    if k > 0 {
      assert (k - 1) * stride >= 0;
      assert k * stride == (k - 1) * stride + stride;
      assert first + stride < last;
      assert k - 1 == 0 || (first + stride) + (k - 1) * stride < last;
      EmissionsBelow(first + stride, last, stride, k - 1);
    }
  }

  /** One more emission from cursor `cursor` after `e` emissions keeps the
      Slicer's cursor formula and count bounds. */
  lemma StepKeepsCount(first: int, last: int, stride: int, e: nat, cursor: int)
    requires cursor == first + e * stride
    requires e == 0 || cursor < last
    ensures cursor + stride == first + (e + 1) * stride
    ensures stride > 0 && cursor + stride >= last ==> e + 1 == Emissions(first, last, stride)
    ensures stride > 0 && cursor + stride < last ==> e + 1 < Emissions(first, last, stride)
  {
    assert (e + 1) * stride == e * stride + stride;
    if stride > 0 {
      if cursor + stride >= last {
        EmissionsExact(first, last, stride, e + 1);
      } else {
        EmissionsBelow(first, last, stride, e + 1);
      }
    }
  }

  /** The iterator that steps through the slices of an array whose shape is
      `end` along dimension `axis`, `nslice` slices at a time. Only the first
      `nslicedim` dimensions take part in the emitted descriptors. */
  class Slicer {
    const end: seq<int>
    const start: seq<int>
    const step: seq<int>
    const axis: nat
    const nslicedim: nat
    const nslice: int
    /** The cursor along `axis` (the source's `self.slice`). */
    var slice: int
    var last: int
    var isend: bool
    /** Emissions made since the last reset. */
    ghost var emissions: nat

    /** The number of dimensions of the traversed array. */
    function Ndim(): nat { |end| }

    /** How far the cursor advances per emission. */
    function Stride(): int
      requires axis < |step|
    {
      nslice * step[axis]
    }

    ghost predicate Valid()
      reads this
    {
      axis < nslicedim && nslicedim <= |end| && nslicedim <= |start| && nslicedim <= |step| &&
      last == end[axis] &&
      slice == start[axis] + emissions * Stride() &&
      (isend <==> emissions > 0 && slice >= last) &&
      (emissions > 1 ==> slice - Stride() < last) &&
      (Stride() > 0 ==>
        (isend ==> emissions == Emissions(start[axis], last, Stride())) &&
        (!isend ==> emissions < Emissions(start[axis], last, Stride())))
    }

    /** The descriptors of one emission with the cursor at `cursor`: the
        fixed range of every other dimension, and `nslice` steps of `axis`. */
    ghost predicate Emission(slices: seq<Slice>, cursor: int)
      requires Valid()
      reads this
    {
      |slices| == nslicedim &&
      slices[axis] == Slice(cursor, cursor + Stride(), step[axis]) &&
      forall i :: 0 <= i < nslicedim && i != axis ==> slices[i] == Slice(start[i], end[i], step[i])
    }

    /** The source's `__init__` followed by `__iter__`. `nslicedim` is raised
        to at least `axis + 1`; `start` and `step` default to all zeros and
        all ones of that length. */
    constructor (end: seq<int>, axis: nat, nslicedim: nat, nslice: int,
                 start: Option<seq<int>>, step: Option<seq<int>>)
      requires Max(nslicedim, axis + 1) <= |end|
      requires start.Some? ==> Max(nslicedim, axis + 1) <= |start.value|
      requires step.Some? ==> Max(nslicedim, axis + 1) <= |step.value|
      ensures Valid()
      ensures this.end == end && this.axis == axis && this.nslice == nslice
      ensures Ndim() == |end|
      ensures this.nslicedim == Max(nslicedim, axis + 1) && this.nslicedim >= axis + 1
      ensures this.start == if start.Some? then start.value else seq(this.nslicedim, _ => 0)
      ensures this.step == if step.Some? then step.value else seq(this.nslicedim, _ => 1)
      ensures slice == this.start[axis] && last == end[axis] && !isend && emissions == 0
    {
      var n := Max(nslicedim, axis + 1);
      this.end := end;
      this.axis := axis;
      this.nslice := nslice;
      this.nslicedim := n;
      this.start := if start.Some? then start.value else seq(n, _ => 0);
      this.step := if step.Some? then step.value else seq(n, _ => 1);
      new;
      Reset();
    }

    /** `__iter__`: put the cursor back at the start of `axis`. */
    method Reset()
      requires axis < nslicedim && nslicedim <= |end| && nslicedim <= |start| && nslicedim <= |step|
      modifies this`slice, this`last, this`isend, this`emissions
      ensures Valid()
      ensures slice == start[axis] && last == end[axis] && !isend && emissions == 0
    {
      isend := false;
      slice := start[axis];
      last := end[axis];
      emissions := 0;
    }

    /** `next`: `None` once exhausted; otherwise the descriptors at the
        current cursor and whether this is the last emission. */
    method Next() returns (r: Option<(seq<Slice>, bool)>)
      requires Valid()
      modifies this`slice, this`isend, this`emissions
      ensures Valid()
      ensures old(isend) ==> r == None && slice == old(slice) && isend && emissions == old(emissions)
      ensures !old(isend) ==>
        r.Some? && Emission(r.value.0, old(slice)) &&
        slice == old(slice) + Stride() && emissions == old(emissions) + 1 &&
        isend == (slice >= last) && r.value.1 == isend
    {
      if isend {
        return None;
      }
      ghost var cursor, e, stride := slice, emissions, Stride();
      var slices: seq<Slice> := [];
      var i := 0;
      while i < nslicedim
        invariant 0 <= i <= nslicedim && |slices| == i
        invariant emissions == e && !isend
        invariant slice == if i > axis then cursor + stride else cursor
        invariant axis < i ==> slices[axis] == Slice(cursor, cursor + stride, step[axis])
        invariant forall j :: 0 <= j < i && j != axis ==> slices[j] == Slice(start[j], end[j], step[j])
      {
        if axis != i {
          slices := slices + [Slice(start[i], end[i], step[i])];
        } else {
          slices := slices + [Slice(slice, slice + nslice * step[i], step[i])];
          slice := slice + nslice * step[i];
        }
        i := i + 1;
      }
      StepKeepsCount(start[axis], last, stride, e, cursor);
      emissions := e + 1;
      if slice >= last {
        isend := true;
      }
      r := Some((slices, isend));
    }
  }

  /** Stepping through an array of shape `shape`: each step yields the
      descriptors of the underlying Slicer, without the is-last flag. */
  class SliceIterator {
    const slicer: Slicer
    /** The full descriptor of every participating dimension. */
    const allslice: seq<Slice>

    ghost predicate Valid()
      reads this, slicer
    {
      slicer.Valid()
    }

    constructor (shape: seq<int>, axis: nat, nslicedim: nat, nslice: int,
                 start: Option<seq<int>>, step: Option<seq<int>>)
      requires Max(nslicedim, axis + 1) <= |shape|
      requires start.Some? ==> Max(nslicedim, axis + 1) <= |start.value|
      requires step.Some? ==> Max(nslicedim, axis + 1) <= |step.value|
      ensures Valid() && fresh(slicer)
      ensures slicer.end == shape && slicer.axis == axis && slicer.nslice == nslice
      ensures slicer.nslicedim == Max(nslicedim, axis + 1) && slicer.last == shape[axis]
      ensures slicer.start == if start.Some? then start.value else seq(slicer.nslicedim, _ => 0)
      ensures slicer.step == if step.Some? then step.value else seq(slicer.nslicedim, _ => 1)
      ensures !slicer.isend && slicer.slice == slicer.start[axis] && slicer.emissions == 0
      ensures |allslice| == slicer.nslicedim
      ensures forall i :: 0 <= i < |allslice| ==>
        allslice[i] == Slice(slicer.start[i], slicer.end[i], slicer.step[i])
    {
      var s := new Slicer(shape, axis, nslicedim, nslice, start, step);
      slicer := s;
      allslice := seq(s.nslicedim, i requires 0 <= i < s.nslicedim => Slice(s.start[i], s.end[i], s.step[i]));
    }

    method Reset()
      requires Valid()
      modifies slicer
      ensures Valid()
      ensures !slicer.isend && slicer.slice == slicer.start[slicer.axis] && slicer.emissions == 0
    {
      slicer.Reset();
    }

    /** The same descriptors `Slicer.Next` computes, as a "slice" record. */
    method Next() returns (r: Option<IterNext>)
      requires Valid()
      modifies slicer
      ensures Valid()
      ensures old(slicer.isend) ==> r == None && slicer.slice == old(slicer.slice) && slicer.isend
      ensures !old(slicer.isend) ==>
        r.Some? && r.value.SliceNext? && slicer.Emission(r.value.slice, old(slicer.slice)) &&
        slicer.slice == old(slicer.slice) + slicer.Stride() &&
        slicer.emissions == old(slicer.emissions) + 1 &&
        slicer.isend == (slicer.slice >= slicer.last)
    {
      var s := slicer.Next();
      if s.None? {
        return None;
      }
      r := Some(SliceNext(s.value.0));
    }
  }

  /** A single emission covering all of axis 0 of `shape`. */
  class AllSliceIterator {
    const shape: seq<int>
    var isend: bool

    constructor (shape: seq<int>)
      ensures this.shape == shape && !isend
    {
      this.shape := shape;
      isend := false;
    }

    /** `__iter__`: re-arm the single emission. */
    method Reset()
      modifies this
      ensures !isend
    {
      isend := false;
    }

    /** The one record `[0, shape[0])` with step 1, then `None`. */
    method Next() returns (r: Option<IterNext>)
      requires !isend ==> |shape| >= 1
      modifies this
      ensures isend
      ensures old(isend) ==> r == None
      ensures !old(isend) ==> r == Some(SliceNext([Slice(0, shape[0], 1)]))
    {
      if isend {
        return None;
      }
      var s := Slice(0, shape[0], 1);
      isend := true;
      r := Some(SliceNext([s]));
    }
  }
}
