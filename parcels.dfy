/** Walking a label array parcel by parcel: ParcelIterator and the two-level
    SliceParcelIterator, with the masks they emit. */
module Parcels {
  import opened Wrappers
  import opened Records

  datatype IterError = ValueError(message: string)

  /** The elements of a label array in row-major order (numpy `flat`). */
  function Flatten(rows: seq<seq<int>>): (flat: seq<int>)
  {
    if rows == [] then [] else rows[0] + Flatten(rows[1..])
  }

  /** Number of columns once every dimension after the first is flattened. */
  function Width(rows: seq<seq<int>>): nat
  {
    if rows == [] then 0 else |rows[0]|
  }

  /** Every row has the same flattened length, as in a numpy array. */
  predicate Rectangular(rows: seq<seq<int>>)
  {
    forall i :: 0 <= i < |rows| ==> |rows[i]| == Width(rows)
  }

  /** Elementwise equality of `labels` with `value` (numpy `equal`). */
  function EqualMask(labels: seq<int>, value: int): seq<bool>
  {
    seq(|labels|, j requires 0 <= j < |labels| => labels[j] == value)
  }

  /** Column `j` of the product, over the first `n` rows, of each row's 0/1
      equality with the matching component of a compound key. */
  function ColumnProduct(rows: seq<seq<int>>, parts: seq<int>, j: nat, n: nat): (p: int)
    requires n <= |rows| && n <= |parts|
    requires forall i :: 0 <= i < n ==> j < |rows[i]|
    ensures p == 0 || p == 1
    ensures p == 1 <==> forall i :: 0 <= i < n ==> rows[i][j] == parts[i]
  {
    if n == 0 then 1
    else ColumnProduct(rows, parts, j, n - 1) * (if rows[n - 1][j] == parts[n - 1] then 1 else 0)
  }

  function Min(a: int, b: int): int { if a < b then a else b }

  /** The mask of a compound key: the product over the rows that `zip`
      pairs with the key's components, read as a boolean per column. */
  function ProductMask(rows: seq<seq<int>>, parts: seq<int>): (m: seq<bool>)
    requires Rectangular(rows)
    ensures |m| == Width(rows)
    ensures forall j :: 0 <= j < |m| ==>
      (m[j] <==> forall i :: 0 <= i < Min(|rows|, |parts|) ==> rows[i][j] == parts[i])
  {
    var n := Min(|rows|, |parts|);
    seq(Width(rows), j requires 0 <= j < Width(rows) => ColumnProduct(rows, parts, j, n) == 1)
  }

  predicate StrictlyIncreasing(s: seq<int>)
  {
    forall i, j :: 0 <= i < j < |s| ==> s[i] < s[j]
  }

  /** Insertion of `x` into a strictly increasing sequence, dropping it when
      already present. */
  function Insert(u: seq<int>, x: int): (r: seq<int>)
    requires StrictlyIncreasing(u)
    ensures StrictlyIncreasing(r)
    ensures forall y :: y in r <==> y in u || y == x
  {
    if u == [] then [x]
    else if x < u[0] then [x] + u
    else if x == u[0] then u
    else
      var t := Insert(u[1..], x);
      assert forall k :: 0 <= k < |t| ==> t[k] in t;
      assert forall k :: 1 <= k < |u| ==> u[0] < u[k];
      [u[0]] + t
  }

  /** The distinct values of `s`, ascending (numpy `unique`). */
  function Unique(s: seq<int>): (r: seq<int>)
    ensures StrictlyIncreasing(r)
    ensures forall y :: y in r <==> y in s
  {
    if s == [] then [] else Insert(Unique(s[..|s| - 1]), s[|s| - 1])
  }

  /** A sequence without repeats has as many distinct values as elements. */
  lemma {:induction false} IncreasingCount(s: seq<int>)
    requires StrictlyIncreasing(s)
    ensures |set y | y in s| == |s|
  {
    if s != [] {
      var p := s[..|s| - 1];
      IncreasingCount(p);
      assert s == p + [s[|s| - 1]];
      assert (set y | y in s) == (set y | y in p) + {s[|s| - 1]};
      assert s[|s| - 1] !in p;
    }
  }

  /** A ParcelIterator without keys makes one step per distinct label value. */
  lemma ParcelCount(flat: seq<int>)
    ensures |Unique(flat)| == |set y | y in flat|
  {
    IncreasingCount(Unique(flat));
    assert (set y | y in Unique(flat)) == (set y | y in flat);
  }

  /** The masks of the label values emitted without keys partition the
      elements: each element lies in exactly one of them. */
  lemma ParcelMasksPartition(flat: seq<int>, j: nat)
    requires j < |flat|
    ensures exists k :: 0 <= k < |Unique(flat)| && EqualMask(flat, Unique(flat)[k])[j]
    ensures forall k1, k2 ::
      (0 <= k1 < |Unique(flat)| && 0 <= k2 < |Unique(flat)| &&
       EqualMask(flat, Unique(flat)[k1])[j] && EqualMask(flat, Unique(flat)[k2])[j]) ==> k1 == k2
  {
    var u := Unique(flat);
    assert flat[j] in u;
    var k :| 0 <= k < |u| && u[k] == flat[j];
    assert EqualMask(flat, u[k])[j];
  }

  predicate NoDuplicates(s: seq<Key>)
  {
    forall i, j :: 0 <= i < j < |s| ==> s[i] != s[j]
  }

  /** The keys without repeats, each at its first occurrence. */
  function Dedup(s: seq<Key>): (r: seq<Key>)
    ensures NoDuplicates(r)
    ensures forall x :: x in r <==> x in s
  {
    if s == [] then []
    else
      var d := Dedup(s[..|s| - 1]);
      if s[|s| - 1] in d then d else d + [s[|s| - 1]]
  }

  function Scalars(values: seq<int>): (ks: seq<Key>)
    ensures |ks| == |values| && forall i :: 0 <= i < |values| ==> ks[i] == Scalar(values[i])
  {
    if values == [] then [] else [Scalar(values[0])] + Scalars(values[1..])
  }

  /** Explicit keys are all scalar or all compound. */
  predicate UniformKeys(keys: seq<Key>)
  {
    forall i :: 0 <= i < |keys| ==> keys[i].Compound? == keys[0].Compound?
  }

  /** What a ParcelIterator emits for `key`: elementwise equality over the
      flattened labels for a scalar, the row-wise product for a compound. */
  function ParcelRecord(labels: seq<seq<int>>, key: Key): (r: IterNext)
    requires Rectangular(labels)
    ensures r.ParcelNext? && r.key == key
    ensures key.Scalar? ==>
      |r.where| == |Flatten(labels)| &&
      forall j :: 0 <= j < |r.where| ==> (r.where[j] <==> Flatten(labels)[j] == key.value)
    ensures key.Compound? ==> |r.where| == Width(labels) && r.where == ProductMask(labels, key.parts)
  {
    match key
    case Scalar(v) => ParcelNext(key, EqualMask(Flatten(labels), v))
    case Compound(parts) => ParcelNext(key, ProductMask(labels, parts))
  }

  /** Distinct labels of the label set give records with distinct labels, so
      every record says which label its mask belongs to. */
  lemma ParcelLabelsDistinct(labels: seq<seq<int>>, labelset: seq<Key>, i: int, j: int)
    requires Rectangular(labels) && NoDuplicates(labelset)
    requires 0 <= i < j < |labelset|
    ensures ParcelRecord(labels, labelset[i]).key != ParcelRecord(labels, labelset[j]).key
  {
  }

  /** The record `next` builds as written. Under Python 2 the loop variable of
      the list comprehension over `zip(self.labels, label)` leaks into `next`,
      so a compound key that pairs with at least one row is reported by its
      last paired component; the mask is the intended one. */
  function ParcelRecordAsWritten(labels: seq<seq<int>>, key: Key): (r: IterNext)
    requires Rectangular(labels)
    ensures r.ParcelNext? && r.where == ParcelRecord(labels, key).where
    ensures key.Compound? && Min(|labels|, |key.parts|) > 0 ==>
      r.key == Scalar(key.parts[Min(|labels|, |key.parts|) - 1])
    ensures !(key.Compound? && Min(|labels|, |key.parts|) > 0) ==> r == ParcelRecord(labels, key)
  {
    match key
    case Scalar(_) => ParcelRecord(labels, key)
    case Compound(parts) =>
      var n := Min(|labels|, |parts|);
      if n == 0 then ParcelRecord(labels, key)
      else ParcelNext(Scalar(parts[n - 1]), ProductMask(labels, parts))
  }

  /** Rows `[[1, 2], [3, 4]]` with the keys `(1, 3)` and `(2, 3)`: as written
      both records carry the label 3, while the intended records carry their
      own keys. */
  lemma AsWrittenLabelsCollide()
    ensures Rectangular([[1, 2], [3, 4]])
    ensures ParcelRecordAsWritten([[1, 2], [3, 4]], Compound([1, 3])).key == Scalar(3)
    ensures ParcelRecordAsWritten([[1, 2], [3, 4]], Compound([2, 3])).key == Scalar(3)
    ensures ParcelRecord([[1, 2], [3, 4]], Compound([1, 3])).key == Compound([1, 3])
    ensures ParcelRecord([[1, 2], [3, 4]], Compound([2, 3])).key == Compound([2, 3])
  {
    assert Width([[1, 2], [3, 4]]) == 2;
  }

  /** Scalars of a strictly increasing sequence are pairwise distinct. */
  lemma ScalarsDistinct(values: seq<int>)
    requires StrictlyIncreasing(values)
    ensures NoDuplicates(Scalars(values))
  {
    var ks := Scalars(values);
    forall i, j | 0 <= i < j < |ks|
      ensures ks[i] != ks[j]
    {
      assert values[i] < values[j];
    }
  }

  /** One step per label of `labelset`; `labels` holds the rows of the label
      array (its first dimension), each flattened. */
  class ParcelIterator {
    const labels: seq<seq<int>>
    const labelset: seq<Key>
    /** How much of `labelset` has been consumed. */
    var pos: nat
    ghost var emitted: seq<IterNext>

    ghost predicate Valid()
      reads this
    {
      Rectangular(labels) && NoDuplicates(labelset) && pos <= |labelset| && |emitted| == pos &&
      forall k :: 0 <= k < pos ==> emitted[k] == ParcelRecord(labels, labelset[k])
    }

    /** Without keys the label set is the ascending distinct values of the
        flattened labels; explicit keys are de-duplicated. */
    constructor (labels: seq<seq<int>>, keys: Option<seq<Key>>)
      requires Rectangular(labels)
      requires keys.Some? ==> UniformKeys(keys.value)
      ensures Valid() && this.labels == labels && pos == 0 && emitted == []
      ensures labelset == if keys.None? then Scalars(Unique(Flatten(labels))) else Dedup(keys.value)
    {
      if keys.None? {
        ScalarsDistinct(Unique(Flatten(labels)));
      }
      this.labels := labels;
      labelset := if keys.None? then Scalars(Unique(Flatten(labels))) else Dedup(keys.value);
      pos := 0;
      emitted := [];
    }

    /** The next label with its mask, or `None` once every label was visited. */
    method Next() returns (r: Option<IterNext>)
      requires Valid()
      modifies this`pos, this`emitted
      ensures Valid()
      ensures old(pos) == |labelset| ==> r == None && pos == old(pos) && emitted == old(emitted)
      ensures old(pos) < |labelset| ==>
        pos == old(pos) + 1 && r == Some(ParcelRecord(labels, labelset[old(pos)])) &&
        emitted == old(emitted) + [r.value]
    {
      if pos == |labelset| {
        return None;
      }
      var key := labelset[pos];
      var rec := ParcelRecord(labels, key);
      pos := pos + 1;
      emitted := emitted + [rec];
      r := Some(rec);
    }
  }

  /** What a SliceParcelIterator emits for the labels `ks` of one row. */
  function RowRecords(row: seq<int>, ks: seq<int>, index: int): seq<IterNext>
  {
    if ks == [] then []
    else [SliceParcelNext(Scalar(ks[0]), EqualMask(row, ks[0]), index)] + RowRecords(row, ks[1..], index)
  }

  /** One record per key of the row, in the keys' order. */
  lemma {:induction false} RowRecordsAt(row: seq<int>, ks: seq<int>, index: int)
    ensures |RowRecords(row, ks, index)| == |ks|
    ensures forall j :: 0 <= j < |ks| ==>
      RowRecords(row, ks, index)[j] == SliceParcelNext(Scalar(ks[j]), EqualMask(row, ks[j]), index)
  {
    if ks != [] {
      RowRecordsAt(row, ks[1..], index);
    }
  }

  /** Everything a SliceParcelIterator emits from row `i` on, when no row of
      keys is empty. */
  function Stream(labels: seq<seq<int>>, keys: seq<seq<int>>, i: nat): seq<IterNext>
    requires |keys| <= |labels|
    decreases |keys| - i
  {
    if i >= |keys| then [] else RowRecords(labels[i], keys[i], i) + Stream(labels, keys, i + 1)
  }

  /** Every record of the stream names its row, takes its label from that
      row's keys and masks that row; the row index never decreases. */
  lemma {:induction false} StreamRecords(labels: seq<seq<int>>, keys: seq<seq<int>>, i: nat)
    requires |keys| <= |labels|
    ensures forall r :: r in Stream(labels, keys, i) ==>
      r.SliceParcelNext? && i <= r.index < |keys| && r.key.Scalar? && r.key.value in keys[r.index] &&
      r.where == EqualMask(labels[r.index], r.key.value)
    ensures forall a, b :: 0 <= a < b < |Stream(labels, keys, i)| ==>
      Stream(labels, keys, i)[a].index <= Stream(labels, keys, i)[b].index
    decreases |keys| - i
  {
    if i < |keys| {
      StreamRecords(labels, keys, i + 1);
      var row := RowRecords(labels[i], keys[i], i);
      var rest := Stream(labels, keys, i + 1);
      RowRecordsAt(labels[i], keys[i], i);
      assert Stream(labels, keys, i) == row + rest;
      forall r | r in row
        ensures r.SliceParcelNext? && r.index == i && r.key.Scalar? && r.key.value in keys[i] &&
          r.where == EqualMask(labels[i], r.key.value)
      {
        var j :| 0 <= j < |row| && row[j] == r;
      }
    }
  }

  /** What a SliceParcelIterator still emits, while aligned, after taking
      `outer` rows of keys with `inner` left of the last one. */
  function PendingOf(labels: seq<seq<int>>, keys: seq<seq<int>>, outer: nat, inner: seq<int>): seq<IterNext>
    requires |keys| <= |labels| && outer <= |keys|
  {
    (if outer == 0 then [] else RowRecords(labels[outer - 1], inner, outer - 1)) +
    Stream(labels, keys, outer)
  }

  /** Taking the next label of the current row emits the head of what is pending. */
  lemma PendingConsume(labels: seq<seq<int>>, keys: seq<seq<int>>, outer: nat, inner: seq<int>)
    requires |keys| <= |labels| && 1 <= outer <= |keys| && inner != []
    ensures PendingOf(labels, keys, outer, inner) ==
      [SliceParcelNext(Scalar(inner[0]), EqualMask(labels[outer - 1], inner[0]), outer - 1)] +
      PendingOf(labels, keys, outer, inner[1..])
  {
    var row := RowRecords(labels[outer - 1], inner, outer - 1);
    assert row == [row[0]] + RowRecords(labels[outer - 1], inner[1..], outer - 1);
  }

  /** Moving to a row with keys emits that row's first label next. */
  lemma PendingFetch(labels: seq<seq<int>>, keys: seq<seq<int>>, outer: nat)
    requires |keys| <= |labels| && outer < |keys| && keys[outer] != []
    ensures PendingOf(labels, keys, outer, []) ==
      [SliceParcelNext(Scalar(keys[outer][0]), EqualMask(labels[outer], keys[outer][0]), outer)] +
      PendingOf(labels, keys, outer + 1, keys[outer][1..])
  {
    var ks := keys[outer];
    var head := SliceParcelNext(Scalar(ks[0]), EqualMask(labels[outer], ks[0]), outer);
    var tail := RowRecords(labels[outer], ks[1..], outer);
    var rest := Stream(labels, keys, outer + 1);
    assert RowRecords(labels[outer], ks, outer) == [head] + tail;
    assert Stream(labels, keys, outer) == ([head] + tail) + rest;
    assert PendingOf(labels, keys, outer + 1, ks[1..]) == tail + rest;
    assert PendingOf(labels, keys, outer, []) == Stream(labels, keys, outer) by {
      if outer > 0 {
        assert RowRecords(labels[outer - 1], [], outer - 1) == [];
      }
    }
  }

  /** What has been emitted, followed by what is pending, is the stream. */
  predicate Aligned(labels: seq<seq<int>>, keys: seq<seq<int>>, outer: nat, inner: seq<int>, emitted: seq<IterNext>)
    requires |keys| <= |labels| && outer <= |keys|
  {
    emitted + PendingOf(labels, keys, outer, inner) == Stream(labels, keys, 0)
  }

  lemma ConsumeKeepsAligned(labels: seq<seq<int>>, keys: seq<seq<int>>, outer: nat, inner: seq<int>, emitted: seq<IterNext>)
    requires |keys| <= |labels| && 1 <= outer <= |keys| && inner != []
    requires Aligned(labels, keys, outer, inner, emitted)
    ensures Aligned(labels, keys, outer, inner[1..],
      emitted + [SliceParcelNext(Scalar(inner[0]), EqualMask(labels[outer - 1], inner[0]), outer - 1)])
  {
    PendingConsume(labels, keys, outer, inner);
  }

  lemma FetchKeepsAligned(labels: seq<seq<int>>, keys: seq<seq<int>>, outer: nat, emitted: seq<IterNext>)
    requires |keys| <= |labels| && outer < |keys| && keys[outer] != []
    requires Aligned(labels, keys, outer, [], emitted)
    ensures Aligned(labels, keys, outer + 1, keys[outer][1..],
      emitted + [SliceParcelNext(Scalar(keys[outer][0]), EqualMask(labels[outer], keys[outer][0]), outer)])
  {
    PendingFetch(labels, keys, outer);
  }

  /** Once every row is taken, what was emitted is the whole stream. */
  lemma ExhaustedAligned(labels: seq<seq<int>>, keys: seq<seq<int>>, emitted: seq<IterNext>)
    requires |keys| <= |labels|
    requires Aligned(labels, keys, |keys|, [], emitted)
    ensures emitted == Stream(labels, keys, 0)
  {
    if |keys| > 0 {
      assert RowRecords(labels[|keys| - 1], [], |keys| - 1) == [];
    }
    assert PendingOf(labels, keys, |keys|, []) == [];
  }

  /** Python indexing of the outer label list, where -1 is the last row. */
  function RowAt(labels: seq<seq<int>>, i: int): seq<int>
    requires -|labels| <= i < |labels|
  {
    if i < 0 then labels[|labels| + i] else labels[i]
  }

  /** Outer walk over the rows of `labels`, inner walk over each row's keys. */
  class SliceParcelIterator {
    const labels: seq<seq<int>>
    const keys: seq<seq<int>>
    /** Rows of `keys` taken so far (the position of `iter(keys)`). */
    var outer: nat
    /** What is left of the current row's keys (`curlabelset`). */
    var inner: seq<int>
    var curslice: int
    var curlabels: seq<int>
    /** No reset mid-stream and no empty row of keys met so far. */
    ghost var aligned: bool
    ghost var emitted: seq<IterNext>

    ghost predicate Valid()
      reads this
    {
      |labels| == |keys| && outer <= |keys| && -1 <= curslice < outer &&
      (inner != [] ==> outer >= 1) &&
      (aligned ==> curslice == outer - 1 && Aligned(labels, keys, outer, inner, emitted))
    }

    /** The source's `__init__` (with the current row's keys starting out
        empty) followed by `__iter__`. */
    constructor (labels: seq<seq<int>>, keys: seq<seq<int>>)
      requires |labels| == |keys|
      ensures Valid() && this.labels == labels && this.keys == keys
      ensures outer == 0 && inner == [] && curslice == -1 && aligned && emitted == []
    {
      this.labels := labels;
      this.keys := keys;
      outer := 0;
      inner := [];
      curslice := -1;
      curlabels := [];
      aligned := true;
      emitted := [];
    }

    /** Construction fails when `labels` and `keys` differ in length. */
    static method Create(labels: seq<seq<int>>, keys: seq<seq<int>>)
      returns (r: Result<SliceParcelIterator, IterError>)
      ensures r.Failure? <==> |labels| != |keys|
      ensures r.Failure? ==> r.error == ValueError("labels and labelset do not have the same length")
      ensures r.Success? ==>
        fresh(r.value) && r.value.Valid() && r.value.labels == labels && r.value.keys == keys &&
        r.value.outer == 0 && r.value.inner == [] && r.value.curslice == -1 &&
        r.value.aligned && r.value.emitted == []
    {
      if |labels| != |keys| {
        return Failure(ValueError("labels and labelset do not have the same length"));
      }
      var it := new SliceParcelIterator(labels, keys);
      r := Success(it);
    }

    /** `__iter__`: only the slice index is reset. */
    method Reset()
      requires Valid()
      modifies this`curslice, this`aligned
      ensures Valid() && curslice == -1 && aligned == (old(aligned) && outer == 0)
    {
      curslice := -1;
      aligned := aligned && outer == 0;
    }

    /** The first branch of `next`: the current row still has keys. */
    method TakeLabel() returns (rec: IterNext)
      requires Valid() && inner != []
      modifies this`inner, this`curlabels, this`emitted
      ensures Valid()
      ensures inner == old(inner)[1..] && curlabels == RowAt(labels, curslice)
      ensures rec == SliceParcelNext(Scalar(old(inner)[0]), EqualMask(curlabels, old(inner)[0]), curslice)
      ensures emitted == old(emitted) + [rec]
    {
      var value := inner[0];
      var row := RowAt(labels, curslice);
      rec := SliceParcelNext(Scalar(value), EqualMask(row, value), curslice);
      if aligned {
        ConsumeKeepsAligned(labels, keys, outer, inner, emitted);
      }
      inner, curlabels, emitted := inner[1..], row, emitted + [rec];
    }

    /** The `except` branch of `next` when the next row has keys: move to
        that row and take its first label. */
    method TakeRow() returns (rec: IterNext)
      requires Valid() && inner == [] && outer < |keys| && keys[outer] != []
      modifies this`inner, this`outer, this`curslice, this`curlabels, this`emitted
      ensures Valid()
      ensures inner == keys[old(outer)][1..] && outer == old(outer) + 1
      ensures curslice == old(curslice) + 1 && curlabels == labels[curslice]
      ensures rec == SliceParcelNext(Scalar(keys[old(outer)][0]), EqualMask(curlabels, keys[old(outer)][0]), curslice)
      ensures emitted == old(emitted) + [rec]
    {
      var o, ks := outer, keys[outer];
      var c := curslice + 1;
      var row := RowAt(labels, c);
      rec := SliceParcelNext(Scalar(ks[0]), EqualMask(row, ks[0]), c);
      ghost var e1 := emitted + [rec];
      if aligned {
        FetchKeepsAligned(labels, keys, o, emitted);
      }
      inner, outer, curslice, curlabels, emitted := ks[1..], o + 1, c, row, e1;
    }

    /** The next label of the current row, moving to the next row when the
        current one is used up; `None` once the rows run out, and also when
        the row moved to has no keys. */
    method Next() returns (r: Option<IterNext>)
      requires Valid()
      modifies this
      ensures Valid()
      ensures old(inner) != [] ==>
        inner == old(inner)[1..] && outer == old(outer) && curslice == old(curslice) &&
        curlabels == RowAt(labels, curslice) &&
        r == Some(SliceParcelNext(Scalar(old(inner)[0]), EqualMask(curlabels, old(inner)[0]), curslice))
      ensures old(inner) == [] && old(outer) == |keys| ==>
        r == None && inner == [] && outer == old(outer) && curslice == old(curslice) &&
        curlabels == old(curlabels)
      ensures old(inner) == [] && old(outer) < |keys| && keys[old(outer)] == [] ==>
        r == None && inner == [] && outer == old(outer) + 1 && curslice == old(curslice) &&
        curlabels == old(curlabels)
      ensures old(inner) == [] && old(outer) < |keys| && keys[old(outer)] != [] ==>
        inner == keys[old(outer)][1..] && outer == old(outer) + 1 && curslice == old(curslice) + 1 &&
        curlabels == labels[curslice] &&
        r == Some(SliceParcelNext(Scalar(keys[old(outer)][0]), EqualMask(curlabels, keys[old(outer)][0]), curslice))
      ensures emitted == if r.Some? then old(emitted) + [r.value] else old(emitted)
      ensures aligned == (old(aligned) && !(old(inner) == [] && old(outer) < |keys| && keys[old(outer)] == []))
      ensures old(aligned) && (forall i :: 0 <= i < |keys| ==> keys[i] != []) ==> aligned
      ensures r.None? && aligned ==> emitted == Stream(labels, keys, 0)
    {
      if inner != [] {
        var rec := TakeLabel();
        return Some(rec);
      }
      if outer == |keys| {
        if aligned {
          ExhaustedAligned(labels, keys, emitted);
        }
        return None;
      }
      if keys[outer] == [] {
        inner := keys[outer];
        outer := outer + 1;
        aligned := false;
        return None;
      }
      var rec := TakeRow();
      r := Some(rec);
    }
  }
}
