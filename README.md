# Voxel grid traversal and coordinate systems, in Dafny

This project models two parts of the neuroimaging reference package.

- **The grid iterators** (`lib/neuroimaging/reference/iterators.py`):
  - `Slicer` walks an N-dimensional shape along one axis. Each step emits one `(start, stop, step)` descriptor per participating dimension, together with an is-last flag.
  - `SliceIterator` wraps a Slicer and emits "slice" records.
  - `AllSliceIterator` makes one emission covering all of axis 0.
  - `ParcelIterator` emits one boolean mask per label.
  - `SliceParcelIterator` walks rows of labels, and within each row that row's keys.
- **The coordinate systems** (`lib/neuroimaging/reference/coordinate_system.py`):
  - `CoordinateSystem` is an ordered, name-keyed, immutable collection of axes. It supports lookup, `reorder`, `reverse`, equality and validity checking.
  - `VoxelCoordinateSystem` rebuilds its axes as voxel axes of a resolved shape.
  - `DiagonalCoordinateSystem` builds a homogeneous diagonal transform.

How the model is laid out:

- Each iterator is a `class`. Its cursor and end flag are fields, and its `Next` method changes them. Each step's "no more elements" (`StopIteration`) is the result `None`. Three of the classes keep a ghost record of their progress, and their invariant `Valid()` ties that record to a specification function. `SliceIterator` and `AllSliceIterator` keep none: the first inherits the Slicer's record, and the second has only its single emission.
  - Slicer: the emission count.
  - ParcelIterator: the records for the label set.
  - SliceParcelIterator: the whole stream `Stream(labels, keys, 0)`.
- Coordinate systems never change after construction, so they are datatypes and functions. `Transform` fills a zeroed `array2<real>` in a loop, as the source fills its numpy matrix.

Modules: `Wrappers` (Option, Result), `Records` (slice descriptors, keys, the tagged `IterNext` record), `Slicers`, `Parcels` and `CoordinateSystems`.

Where the model follows the evident intent rather than the code as written:

- `ParcelIterator.__init__` reads `keys[0]` even when `keys` is `None` (iterators.py:146). Here, no keys (and an empty key list) means the flat, scalar layout.
- The length check in `SliceParcelIterator.__init__` names the undefined `labelset` (iterators.py:185). Here it compares `labels` with `keys`, and a mismatch is `Failure(ValueError(..))` from `Create`.
- `SliceParcelIteratorNext.__init__` calls the base constructors without `self` (iterators.py:168-169). Here the record carries label, mask and slice index.
- Under Python 2 the loop variable of the list comprehension in `ParcelIterator.next` leaks and rebinds `label` (iterators.py:159-161), so a compound key is reported by its last paired component. Here the record carries the key itself; both readings are in the model (see "## Findings").
- `curlabelset` is never initialised, so the first `next` only works through the bare `except` (iterators.py:195-201). Here it starts out empty, so the first step takes the `except` branch the code relies on.

Two behaviours of the code are kept as written, although the class docstring (iterators.py:174-179) speaks of the unique elements of the keys:

- The inner walk of `SliceParcelIterator` iterates each row of keys as given. Nothing removes repeats (iterators.py:198).
- Moving to a row whose keys are empty raises `StopIteration` from inside the `except` block (iterators.py:199). That happens before `curslice` is incremented, so the traversal ends early there. `Next` returns `None` in that case and clears the ghost flag `aligned`. The stream property is proved for traversals in which no row of keys is empty. If the caller goes on calling `next` after that, `curslice` lags one row behind: with `keys = [[], [1]]` the second call emits label 1 with index 0, masked against `labels[0]` (iterators.py:198-203), where `Stream` has index 1 and `labels[1]`. `Next` models this as written.

## Model

| member | source | states |
|---|---|---|
| `Slicers.Slicer.constructor` | lib/neuroimaging/reference/iterators.py:38-58 | `ndim == len(end)`; `nslicedim` becomes `max(nslicedim, axis+1)`; `start`/`step` default to all-0/all-1 of that length; the cursor is at `start[axis]`, `last == end[axis]`, not at end |
| `Slicers.Slicer.Reset` | lib/neuroimaging/reference/iterators.py:54-58 | `__iter__` puts the cursor at `start[axis]`, sets `last` to `end[axis]` and clears `isend` |
| `Slicers.Slicer.Next` | lib/neuroimaging/reference/iterators.py:60-76 | at end: `None`, state unchanged. Otherwise exactly `nslicedim` descriptors: `(start[i], end[i], step[i])` off the axis, `(c, c + nslice*step[axis], step[axis])` on it. The cursor advances by `nslice*step[axis]`. The flag returned with the emission is `cursor >= end[axis]` |
| `Slicers.StepKeepsCount` | lib/neuroimaging/reference/iterators.py:69-75 | one advance keeps `cursor == start + emissions*stride`. With positive stride the count is reached exactly when the advanced cursor reaches `last` |
| `Slicers.EmissionsExact` | lib/neuroimaging/reference/iterators.py:69-76 | the first emission whose advanced cursor reaches `last` is emission number `Emissions(first, last, stride)` |
| `Slicers.EmissionsBelow` | lib/neuroimaging/reference/iterators.py:69-76 | while the cursor is below `last`, fewer than `Emissions` emissions have been made |
| `Slicers.EmissionsIsCeiling` | lib/neuroimaging/reference/iterators.py:54-76 | for `start < end` the number of emissions is the ceiling of `(end-start)/(nslice*step)` |
| `Slicers.EmissionsEmptyExtent` | lib/neuroimaging/reference/iterators.py:75-76 | with `start >= end` there is still exactly one emission, because the end test follows it |
| `Slicers.ThirteenSlices` | lib/neuroimaging/reference/iterators.py:54-76 | an axis of extent 13 with unit steps gives 13 emissions |
| `Slicers.SliceIterator.constructor` | lib/neuroimaging/reference/iterators.py:90-95 | builds the Slicer over `shape` with the given `axis`, `nslice`, `nslicedim`, `start` and `step` (so the stride and emission count carry over), armed at `start[axis]` with `last == shape[axis]`; `allslice[i] == (start[i], end[i], step[i])` for each `i < nslicedim` |
| `Slicers.SliceIterator.Reset` | lib/neuroimaging/reference/iterators.py:54-58 | the inherited `__iter__`: cursor back at the start, not at end |
| `Slicers.SliceIterator.Next` | lib/neuroimaging/reference/iterators.py:98-100 | yields a "slice" record with the same descriptors `Slicer.Next` computes, without the flag; `None` once the Slicer is at end |
| `Slicers.AllSliceIterator.constructor` | lib/neuroimaging/reference/iterators.py:114-117 | keeps `shape` and starts armed (`isend` false) |
| `Slicers.AllSliceIterator.Reset` | lib/neuroimaging/reference/iterators.py:109-111 | `__iter__` re-arms the single emission |
| `Slicers.AllSliceIterator.Next` | lib/neuroimaging/reference/iterators.py:120-124 | the first call yields the one descriptor `(0, shape[0], 1)`; every later call yields `None` |
| `Parcels.ColumnProduct` | lib/neuroimaging/reference/iterators.py:159-160 | the product of the 0/1 row equalities is 0 or 1, and it is 1 exactly when every paired row matches its key component |
| `Parcels.ProductMask` | lib/neuroimaging/reference/iterators.py:159-160 | a compound key's mask has one entry per column. An entry is true iff every row `zip` pairs with a key component equals that component |
| `Parcels.Insert` | lib/neuroimaging/reference/iterators.py:143 | inserting into a strictly ascending sequence keeps it strictly ascending, and adds exactly the new value |
| `Parcels.Unique` | lib/neuroimaging/reference/iterators.py:143 | `N.unique`: strictly ascending, and it holds exactly the values of the flattened labels |
| `Parcels.ParcelCount` | lib/neuroimaging/reference/iterators.py:143-157 | without keys there is one step per distinct label value |
| `Parcels.ParcelMasksPartition` | lib/neuroimaging/reference/iterators.py:143-157 | without keys every element is in the mask of exactly one emitted label |
| `Parcels.Dedup` | lib/neuroimaging/reference/iterators.py:144 | explicit keys lose their repeats and keep exactly their values |
| `Parcels.ParcelRecord` | lib/neuroimaging/reference/iterators.py:155-161 | a "parcel" record labelled with the key. A scalar key's mask has the flattened length and is elementwise equality; a compound key's mask is `ProductMask`, one entry per column |
| `Parcels.ParcelLabelsDistinct` | lib/neuroimaging/reference/iterators.py:141-161 | distinct labels of the label set give records with distinct labels, so each record names the label it masks |
| `Parcels.ParcelRecordAsWritten` | lib/neuroimaging/reference/iterators.py:155-161 | the record as line 161 builds it under Python 2: the same mask, but a compound key paired with at least one row is labelled by its last paired component |
| `Parcels.AsWrittenLabelsCollide` | lib/neuroimaging/reference/iterators.py:159-161 | rows `[[1,2],[3,4]]` with keys `(1,3)` and `(2,3)`: as written both records are labelled 3; the intended records carry their own keys |
| `Parcels.ParcelIterator.constructor` | lib/neuroimaging/reference/iterators.py:141-148 | the label set is the ascending distinct values without keys, and the de-duplicated keys otherwise; nothing consumed yet |
| `Parcels.ParcelIterator.Next` | lib/neuroimaging/reference/iterators.py:154-161 | the next label of the label set with its mask, consuming one label; `None` once all were visited. After the whole walk the ghost record holds every label's record, in order, and the label set has no repeats |
| `Parcels.RowRecordsAt` | lib/neuroimaging/reference/iterators.py:203-210 | a row yields one "slice/parcel" record per key, in order: label, equality mask over that row, row index |
| `Parcels.StreamRecords` | lib/neuroimaging/reference/iterators.py:194-210 | every record of a traversal names a valid row, takes its label from that row's keys and masks that row; row indices never decrease |
| `Parcels.SliceParcelIterator.constructor` | lib/neuroimaging/reference/iterators.py:181-191 | with equal lengths: no row taken, current keys empty, `curslice == -1` |
| `Parcels.SliceParcelIterator.Create` | lib/neuroimaging/reference/iterators.py:181-186 | fails with a ValueError exactly when `len(labels) != len(keys)`; otherwise a fresh iterator at its start |
| `Parcels.SliceParcelIterator.Reset` | lib/neuroimaging/reference/iterators.py:189-191 | `__iter__` resets only `curslice` to -1 |
| `Parcels.SliceParcelIterator.TakeLabel` | lib/neuroimaging/reference/iterators.py:195-210 | while the current row has keys: take the next one, and mask row `curslice` (Python indexing, so -1 is the last row) |
| `Parcels.SliceParcelIterator.TakeRow` | lib/neuroimaging/reference/iterators.py:197-210 | on moving to a non-empty row of keys: `curslice` rises by exactly 1 and the first key of that row is emitted against `labels[curslice]` |
| `Parcels.SliceParcelIterator.Next` | lib/neuroimaging/reference/iterators.py:194-210 | the four cases of `next`, with the whole new state. With no empty key row and no reset mid-walk, the final `None` comes with everything emitted equal to `Stream(labels, keys, 0)` |
| `CoordinateSystems.AxisNames` | lib/neuroimaging/reference/coordinate_system.py:19-25 | the axis names in construction order, one per axis (`ndim` of them) |
| `CoordinateSystems.GetItem` | lib/neuroimaging/reference/coordinate_system.py:33-38 | succeeds iff the name is an axis name, with an axis of that name; otherwise a KeyError carrying the name and all axis names |
| `CoordinateSystems.LookupFindsAxis` | lib/neuroimaging/reference/coordinate_system.py:28-35 | with unique names, looking up axis `i`'s name returns axis `i` (by `[]` and by `getaxis`) |
| `CoordinateSystems.SetItem` | lib/neuroimaging/reference/coordinate_system.py:40-41 | assignment always fails with a TypeError |
| `CoordinateSystems.HasAxis` | lib/neuroimaging/reference/coordinate_system.py:68-69 | true iff the name is one of the axis names |
| `CoordinateSystems.GetAxis` | lib/neuroimaging/reference/coordinate_system.py:72-73 | `None` iff the axis is absent; otherwise the axis `[]` returns |
| `CoordinateSystems.Equals` | lib/neuroimaging/reference/coordinate_system.py:44-46 | equal iff the other object is a coordinate system with the same name and the same axes in order; an object without them is unequal |
| `CoordinateSystems.Permute` | lib/neuroimaging/reference/coordinate_system.py:60 | the package helper `reorder`: position `k` holds `s[order[k]]` |
| `CoordinateSystems.Reorder` | lib/neuroimaging/reference/coordinate_system.py:54-60 | axes `[axes[i] for i in order]`; the old name when none is given; unique names are kept |
| `CoordinateSystems.Inverse` | lib/neuroimaging/reference/coordinate_system.py:54-60 | the inverse of a permutation is a permutation, and composing the two either way gives the identity |
| `CoordinateSystems.ReorderInverse` | lib/neuroimaging/reference/coordinate_system.py:54-60 | reordering by `p` and then by its inverse restores the axes |
| `CoordinateSystems.Reversed` | lib/neuroimaging/reference/coordinate_system.py:65 | the package helper `reverse`: position `k` holds `s[n-1-k]` |
| `CoordinateSystems.Reverse` | lib/neuroimaging/reference/coordinate_system.py:63-65 | the axes in the opposite order; the old name by default; unique names are kept |
| `CoordinateSystems.ReverseInvolution` | lib/neuroimaging/reference/coordinate_system.py:63-65 | reversing twice restores the axes, and with default names the whole system |
| `CoordinateSystems.IsValid` | lib/neuroimaging/reference/coordinate_system.py:76-80 | true iff `axes[i].valid(x[i])` holds for every `i < ndim` |
| `CoordinateSystems.MakeVoxel` | lib/neuroimaging/reference/coordinate_system.py:92-98 | an explicit shape wins, otherwise the axis lengths give it. The axes become voxel axes with the same names, in the same order, with lengths `shape[i]` |
| `CoordinateSystems.VoxelValidity` | lib/neuroimaging/reference/coordinate_system.py:84-98 | a voxel coordinate is valid iff `0 <= x[i] < shape[i]` for every axis |
| `CoordinateSystems.MakeDiagonal` | lib/neuroimaging/reference/coordinate_system.py:103-105 | the system keeps name and axes; its shape is the axis lengths |
| `CoordinateSystems.Transform` | lib/neuroimaging/reference/coordinate_system.py:107-117 | an `(ndim+1)×(ndim+1)` matrix: `[i,i] = step_i`, `[i,ndim] = start_i`, `[ndim,ndim] = 1`, zero elsewhere |
| `CoordinateSystems.TransformExample` | lib/neuroimaging/reference/coordinate_system.py:107-117 | starts 10, 20 and steps 2, 3 give `[[2,0,10],[0,3,20],[0,0,1]]` |

## Left out

- Trait and attribute machinery is left out: `HasTraits`, keyword arguments, `readonly`/`constant`, the `type` strings and the `odict` base class. Fields are modelled directly, and the `type` tag of a record is the variant of `IterNext`.
- Python's `for` calls `__iter__` before `next`. For `Slicer` and `SliceIterator`, `isend` and `slice` are set only by `__iter__` (iterators.py:54-58), and for `SliceParcelIterator` so is `curslice` (iterators.py:189-191); `next` fails without them. So the constructors of these three classes also do what `__iter__` does, and their `Reset` is `__iter__`. `AllSliceIterator.__init__` already clears `isend` (iterators.py:117), and `ParcelIterator.__iter__` only returns the iterator (iterators.py:151), so `ParcelIterator` has no `Reset`.
- Slicer: `axis` is a natural number, so a negative axis is not modelled. In the source, `end=[4,5,6]`, `axis=-1`, `nslicedim=3` keeps `nslicedim` at 3 (iterators.py:46), and `__iter__` reads `start[-1]` and `end[-1]` through negative indexing (iterators.py:56-57). The loop at iterators.py:64-73 then never meets `i == axis`, so no descriptor for the axis is emitted and the cursor never moves. So iterators.py:75 never sets `isend`, and the walk never ends. With the default `nslicedim` (0, iterators.py:34) and the default `start`, `axis=-1` gives `nslicedim = 0` and an empty `start`, so the IndexError comes at `start[axis]`.
- Slicer: `end`, `start` and `step` must each have at least `nslicedim` entries. This is a precondition; the source would fail with an IndexError when it reads past the end.
- Slicer: the emission count is stated for a positive stride `nslice*step[axis]`. With a zero or negative stride the end test after the advance (iterators.py:72-75) decides it. If `start[axis] + stride < end[axis]`, the cursor never rises and the walk never ends. Otherwise the walk makes one emission, flagged last. For that case the invariant keeps only the cursor formula and `isend <==> emissions > 0 && slice >= last`.
- AllSliceIterator.Next: the record holds a one-element list `[slice(0, shape[0], 1)]`, while the source holds the bare slice. `shape` must not be empty.
- ParcelIterator: the label array is given as its rows (the first dimension), each flattened and all of one length. Scalar keys see the fully flattened array; compound keys see the rows, as the source's reshape does.
- ParcelIterator.constructor: explicit keys must be all scalar or all compound. The source chooses the layout from `keys[0]` alone, and gives meaningless masks for mixed keys.
- ParcelIterator.constructor: Python's `set` has no defined order, so de-duplicated keys keep their first-occurrence order.
- ProductMask: when no row is paired with a key component, the source's `N.product([])` is the scalar 1.0. The model gives an all-true mask of the row width instead. The model also reads `N.product` over the list of row masks as a reduction along the first axis, giving one AND per column, as Numeric and early numpy did. A later numpy's `product`, whose `axis` defaults to `None`, would instead reduce the whole key to a single 0/1 scalar.
- ParcelIterator.constructor and SliceParcelIterator.Next: labels are values, so the reshaping of the caller's own array is not modelled. `N.asarray(labels)` (iterators.py:142) returns the caller's ndarray itself, and the shape assignment at iterators.py:146-148 flattens that array for the caller too. Likewise, when `labels` is a list of ndarrays, iterators.py:203-208 reshapes the caller's row in place. The model does not capture this aliasing, nor the changed shape the caller sees afterwards.
- SliceParcelIterator: each row of labels is taken as already flattened, so the `N.array` conversion and reshape (iterators.py:205-208) are not modelled.
- Label values are integers. numpy dtypes, other label types and floating point are not modelled.
- Axis, VoxelAxis and `Axis.valid` come from `neuroimaging.reference.axis` (coordinate_system.py:7), outside the modelled files. An axis is a record of name, length, start and step. The validity test is a function parameter; for voxel axes it is `0 <= x < length`. A voxel axis is assumed to start at 0 with step 1.
- CoordinateSystems: unique axis names are the invariant (`WellFormed`). Because of it, `Reorder` takes distinct indices. What the ordered dictionary would do with repeated names is not modelled.
- IsValid: a coordinate shorter than `ndim` is a precondition; the source would fail with an IndexError. A longer coordinate is accepted, as in the source.
- Reorder: `order` holds natural numbers below `ndim`. Python's `[s[i] for i in order]` also accepts negative indices, counted from the end; those are not modelled.
- MakeVoxel: an explicit shape must have one entry per axis. The source's `zip` would silently truncate.
- Transform: entries are `real`. IEEE double precision and the `N.float64` dtype are not modelled, since the transform only places values.
- `__str__` (coordinate_system.py:49-51) is not modelled, because it is formatting only.
- `neuroimaging/modalities/fmri/tests/test_fmri.py` is not part of this model: it is a test harness that reads image files.
- `nipy/neurospin/bindings/setup.py` is not part of this model: it is build configuration.

## Findings

| source | as written | input that shows it | evidently intended | confidence | as-written member | corrected member |
|---|---|---|---|---|---|---|
| lib/neuroimaging/reference/iterators.py:159-161 | under Python 2 the comprehension `for labeled,label in zip(self.labels, label)` rebinds `label`, so the record of a compound key carries its last paired component | rows `[[1,2],[3,4]]`, keys `(1,3)` and `(2,3)`: both records are labelled 3 | the record carries the key whose mask it holds | high (not executed) | `Parcels.ParcelRecordAsWritten`, shown by `Parcels.AsWrittenLabelsCollide` | `Parcels.ParcelRecord`, with `Parcels.ParcelLabelsDistinct`; `Parcels.ParcelIterator` uses it |
