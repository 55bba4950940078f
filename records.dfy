/** The values the iterators hand to their callers. */
module Records {

  /** A Python `slice(start, stop, step)` over one dimension. */
  datatype Slice = Slice(start: int, stop: int, step: int)

  /** A label a parcel iterator looks for: one value compared with every
      element, or one value per row of the label array. */
  datatype Key = Scalar(value: int) | Compound(parts: seq<int>)

  /** The record one step yields: SliceIteratorNext (type "slice"),
      ParcelIteratorNext (type "parcel") and SliceParcelIteratorNext
      (type "slice/parcel"). */
  datatype IterNext =
    | SliceNext(slice: seq<Slice>)
    | ParcelNext(key: Key, where: seq<bool>)
    | SliceParcelNext(key: Key, where: seq<bool>, index: int)
}
