/** String columns: the two-pass encoder of the table scan, and TopN's slice of an encoded
    column, which shifts pointers and rebases offsets in place. */
module StringColumns {

  type Byte = b: nat | b < 256
  type Text = seq<Byte>

  function Flatten<T>(chunks: seq<seq<T>>): seq<T> {
    if chunks == [] then [] else Flatten(chunks[..|chunks| - 1]) + chunks[|chunks| - 1]
  }

  lemma FlattenStep<T>(chunks: seq<seq<T>>, i: nat)
    requires i < |chunks|
    ensures Flatten(chunks[..i + 1]) == Flatten(chunks[..i]) + chunks[i]
  {
    assert chunks[..i + 1][..i] == chunks[..i];
  }

  /** The first `n` offsets and bytes of a column. */
  function Offset(rows: seq<Text>, k: nat): nat
    requires k <= |rows|
  {
    |Flatten(rows[..k])|
  }

  /** An encoded column: all bytes, and where each row begins and ends. */
  ghost predicate Encodes(data: seq<Byte>, offsets: seq<nat>, rows: seq<Text>) {
    && data == Flatten(rows) && |offsets| == |rows| + 1
    && forall k :: 0 <= k <= |rows| ==> offsets[k] == Offset(rows, k)
  }

  /** The bytes between two neighbouring offsets. */
  function Decode(data: seq<Byte>, offsets: seq<nat>, k: nat): Text
    requires k + 1 < |offsets| && offsets[k] <= offsets[k + 1] <= |data|
  {
    data[offsets[k]..offsets[k + 1]]
  }

  lemma {:induction false} FlattenPrefix<T>(chunks: seq<seq<T>>, k: nat)
    requires k <= |chunks|
    ensures Flatten(chunks[..k]) <= Flatten(chunks)
    decreases |chunks|
  {
    if k < |chunks| {
      FlattenPrefix(chunks[..|chunks| - 1], k);
      assert chunks[..|chunks| - 1][..k] == chunks[..k];
    } else {
      assert chunks[..k] == chunks;
    }
  }

  /** Decoding by offsets gives the rows back, in order. */
  lemma RoundTrip(data: seq<Byte>, offsets: seq<nat>, rows: seq<Text>, k: nat)
    requires Encodes(data, offsets, rows) && k < |rows|
    ensures offsets[k] <= offsets[k + 1] <= |data| && Decode(data, offsets, k) == rows[k]
  {
    FlattenStep(rows, k);
    FlattenPrefix(rows, k + 1);
    FlattenPrefix(rows, k);
  }

  // The first pass: the byte size of a column, chunk by chunk and row by row.
  method ColumnSize(chunks: seq<seq<Text>>) returns (size: nat)
    ensures size == |Flatten(Flatten(chunks))|
  {
    size := 0;
    for i := 0 to |chunks|
      invariant size == |Flatten(Flatten(chunks[..i]))|
    {
      ghost var before := Flatten(chunks[..i]);
      FlattenStep(chunks, i);
      assert chunks[i][..0] == [] && before + [] == before;
      for row := 0 to |chunks[i]|
        invariant size == |Flatten(before + chunks[i][..row])|
      {
        Snoc(before + chunks[i][..row], chunks[i][row]);
        assert before + chunks[i][..row + 1] == before + chunks[i][..row] + [chunks[i][row]];
        size := size + |chunks[i][row]|;
      }
      assert chunks[i][..|chunks[i]|] == chunks[i];
    }
    assert chunks[..|chunks|] == chunks;
  }

  lemma Snoc<T>(chunks: seq<seq<T>>, last: seq<T>)
    ensures Flatten(chunks + [last]) == Flatten(chunks) + last
  {
    assert (chunks + [last])[..|chunks|] == chunks;
  }

  method CopyBytes(to: array<Byte>, at: nat, from: Text)
    requires at + |from| <= to.Length
    modifies to
    ensures to[..at] == old(to[..at]) && to[at..at + |from|] == from && to[at + |from|..] == old(to[at + |from|..])
  {
    for i := 0 to |from|
      invariant forall k :: 0 <= k < i ==> to[at + k] == from[k]
      invariant forall k :: 0 <= k < to.Length && !(at <= k < at + i) ==> to[k] == old(to[k])
    {
      to[at + i] := from[i];
    }
  }

  /** The rows that the column holds so far. */
  ghost predicate Filled(data: seq<Byte>, offsets: seq<nat>, rows: seq<Text>) {
    && Flatten(rows) <= data && |rows| < |offsets|
    && forall k :: 0 <= k <= |rows| ==> offsets[k] == Offset(rows, k)
  }

  lemma OffsetsExtend(rows: seq<Text>, row: Text, k: nat)
    requires k <= |rows|
    ensures Offset(rows + [row], k) == Offset(rows, k)
    ensures Offset(rows + [row], |rows| + 1) == Offset(rows, |rows|) + |row|
  {
    assert (rows + [row])[..k] == rows[..k];
    assert (rows + [row])[..|rows| + 1] == rows + [row] && rows[..|rows|] == rows;
    Snoc(rows, row);
  }

  lemma FilledFrom(data: seq<Byte>, offsets: seq<nat>, rows: seq<Text>, row: Text, data': seq<Byte>, offsets': seq<nat>)
    requires Filled(data, offsets, rows) && |rows| + 1 < |offsets| && |data'| == |data|
    requires var at := |Flatten(rows)|; at + |row| <= |data| && data'[..at] == data[..at] && data'[at..at + |row|] == row
    requires offsets' == offsets[|rows| + 1 := offsets[|rows|] + |row|]
    ensures Filled(data', offsets', rows + [row]) && |Flatten(rows + [row])| == |Flatten(rows)| + |row|
  {
    var at := |Flatten(rows)|;
    Snoc(rows, row);
    assert Flatten(rows) == data[..at];
    assert data'[..at + |row|] == data'[..at] + data'[at..at + |row|];
    assert Flatten(rows + [row]) == data'[..at + |row|];
    forall k | 0 <= k <= |rows| + 1
      ensures offsets'[k] == Offset(rows + [row], k)
    {
      OffsetsExtend(rows, row, if k <= |rows| then k else 0);
    }
  }

  // Row `index`: its bytes behind those of the rows before, then its end offset.
  method AppendRow(data: array<Byte>, offsets: array<nat>, at: nat, index: nat, row: Text, ghost rows: seq<Text>)
    requires Filled(data[..], offsets[..], rows) && at == |Flatten(rows)| && index == |rows|
    requires at + |row| <= data.Length && index + 1 < offsets.Length
    modifies data, offsets
    ensures Filled(data[..], offsets[..], rows + [row]) && at + |row| == |Flatten(rows + [row])|
  {
    hide Flatten, Filled;
    ghost var data0, offsets0 := data[..], offsets[..];
    CopyBytes(data, at, row);
    ghost var data1 := data[..];
    assert offsets[..] == offsets0;
    offsets[index + 1] := offsets[index] + |row|;
    assert data[..] == data1;
    FilledFrom(data0, offsets0, rows, row, data[..], offsets[..]);
  }

  // The rows of one chunk.
  method AppendChunk(data: array<Byte>, offsets: array<nat>, start: nat, startIdx: nat, chunk: seq<Text>,
                     ghost before: seq<Text>, ghost all: seq<Text>)
    returns (at: nat)
    requires before + chunk <= all && data.Length == |Flatten(all)| && offsets.Length == |all| + 1
    requires Filled(data[..], offsets[..], before) && start == |Flatten(before)| && startIdx == |before|
    modifies data, offsets
    ensures Filled(data[..], offsets[..], before + chunk) && at == |Flatten(before + chunk)|
  {
    hide Flatten, Filled;
    at := start;
    assert before + chunk[..0] == before;
    for row := 0 to |chunk|
      invariant at == |Flatten(before + chunk[..row])| && Filled(data[..], offsets[..], before + chunk[..row])
    {
      ghost var soFar := before + chunk[..row];
      assert before + chunk[..row + 1] == soFar + [chunk[row]];
      RowFits(all, soFar, chunk[row]);
      AppendRow(data, offsets, at, startIdx + row, chunk[row], soFar);
      at := at + |chunk[row]|;
    }
    assert before + chunk[..|chunk|] == before + chunk;
  }

  // The second pass over the same rows, in whatever chunks, into buffers of the first pass's size;
  // `ok` is the check that the sizes agree.
  method EncodeColumn(chunks: seq<seq<Text>>, columnSize: nat, data: array<Byte>, offsets: array<nat>) returns (ok: bool)
    requires data.Length == columnSize == |Flatten(Flatten(chunks))| && offsets.Length == |Flatten(chunks)| + 1
    modifies data, offsets
    ensures ok && Encodes(data[..], offsets[..], Flatten(chunks))
  {
    hide Filled, Offset;
    ghost var all := Flatten(chunks);
    offsets[0] := 0;
    var at, startIdx := 0, 0;
    assert chunks[..0] == [];
    assert Filled(data[..], offsets[..], []) by { NothingFilled(data[..], offsets[..]); }
    for i := 0 to |chunks|
      invariant startIdx == |Flatten(chunks[..i])| && at == |Flatten(Flatten(chunks[..i]))|
      invariant Filled(data[..], offsets[..], Flatten(chunks[..i]))
    {
      FlattenStep(chunks, i);
      FlattenPrefix(chunks, i + 1);
      at := AppendChunk(data, offsets, at, startIdx, chunks[i], Flatten(chunks[..i]), all);
      startIdx := startIdx + |chunks[i]|;
    }
    assert chunks[..|chunks|] == chunks;
    FilledEncodes(data[..], offsets[..], all);
    ok := columnSize == offsets[startIdx];
  }

  lemma NothingFilled(data: seq<Byte>, offsets: seq<nat>)
    requires |offsets| > 0 && offsets[0] == 0
    ensures Filled(data, offsets, [])
  {
  }

  /** The next row fits in what the first pass counted. */
  lemma RowFits(all: seq<Text>, soFar: seq<Text>, row: Text)
    requires soFar + [row] <= all
    ensures |Flatten(soFar)| + |row| <= |Flatten(all)| && |soFar| + 1 <= |all|
  {
    FlattenPrefix(all, |soFar| + 1);
    assert all[..|soFar| + 1] == soFar + [row];
    Snoc(soFar, row);
  }

  lemma FilledEncodes(data: seq<Byte>, offsets: seq<nat>, rows: seq<Text>)
    requires Filled(data, offsets, rows) && |data| == |Flatten(rows)| && |offsets| == |rows| + 1
    ensures Encodes(data, offsets, rows) && offsets[|rows|] == |data|
  {
    assert rows[..|rows|] == rows;
    assert data[..|data|] == data;
  }

  // -------------------------------------------------------------------------------------------
  // TopN
  // -------------------------------------------------------------------------------------------

  // subtractToEach on device memory.
  method SubtractToEach(values: array<nat>, from: nat, delta: nat, count: nat)
    requires from + count <= values.Length && forall k :: from <= k < from + count ==> delta <= values[k]
    modifies values
    ensures forall k :: 0 <= k < values.Length ==>
              values[k] == if from <= k < from + count then old(values[k]) - delta else old(values[k])
  {
    for i := 0 to count
      invariant forall k :: 0 <= k < values.Length ==>
                  values[k] == if from <= k < from + i then old(values[k]) - delta else old(values[k])
    {
      values[from + i] := values[from + i] - delta;
    }
  }

  /** A slice of an encoded column: where its data and its offsets begin, its rows, its bytes. */
  datatype Slice = Slice(dataStart: nat, offsetStart: nat, count: nat, numBytes: nat)

  function Min(a: nat, b: nat): (m: nat)
    ensures m <= a && m <= b && (m == a || m == b)
  {
    if a < b then a else b
  }

  /** Row `k` of the slice, read through the shifted pointers, is row `k` from where it starts. */
  ghost predicate DecodesTo(data: seq<Byte>, offsets: seq<nat>, slice: Slice, rows: seq<Text>, k: nat)
    requires slice.dataStart <= |data| && slice.offsetStart + slice.count < |offsets|
    requires slice.offsetStart + slice.count <= |rows| && k < slice.count
  {
    var d, o := data[slice.dataStart..], offsets[slice.offsetStart..];
    o[k] <= o[k + 1] <= |d| && Decode(d, o, k) == rows[slice.offsetStart + k]
  }

  lemma RebasedDecodes(data: seq<Byte>, before: seq<nat>, after: seq<nat>, rows: seq<Text>, slice: Slice, k: nat)
    requires Encodes(data, before, rows) && |after| == |before| && slice.offsetStart + slice.count <= |rows|
    requires k < slice.count && slice.dataStart == before[slice.offsetStart] <= |data|
    requires var i := slice.offsetStart + k;
             before[i] == after[i] + slice.dataStart && before[i + 1] == after[i + 1] + slice.dataStart
    ensures DecodesTo(data, after, slice, rows, k)
  {
    var i := slice.offsetStart + k;
    RoundTrip(data, before, rows, i);
    assert after[slice.offsetStart..][k] == after[i] && after[slice.offsetStart..][k + 1] == after[i + 1];
    assert data[slice.dataStart..][after[i]..after[i + 1]] == data[before[i]..before[i + 1]];
  }

  // GetData of TopN for a string column: skip `offset` rows, keep at most `limit`.
  method TopNStrings(data: seq<Byte>, offsets: array<nat>, numBytes: nat, limit: nat, offset: nat, ghost rows: seq<Text>)
    returns (slice: Slice)
    requires Encodes(data, offsets[..], rows) && numBytes == |data|
    modifies offsets
    ensures limit == 0 || offset >= |rows| ==> slice.count == 0 && offsets[..] == old(offsets[..])
    ensures limit > 0 && offset < |rows| ==>
              && slice.count <= limit && offset + slice.count <= |rows|
              && (slice.count == limit || offset + slice.count == |rows|) && slice.offsetStart == offset
              && slice.offsetStart + slice.count < offsets.Length && slice.dataStart + slice.numBytes == |data|
              && forall k :: 0 <= k < slice.count ==> DecodesTo(data, offsets[..], slice, rows, k)
    // offsets outside the slice keep their values, those inside are rebased
    ensures limit > 0 && offset < |rows| ==> forall k :: 0 <= k < offsets.Length ==>
              old(offsets[k]) == offsets[k] + if offset <= k <= offset + slice.count then slice.dataStart else 0
  {
    if limit == 0 {
      return Slice(0, 0, 0, 0);
    }
    if offset >= offsets.Length - 1 {
      return Slice(0, 0, 0, 0);
    }
    var limitConst := Min(limit, offsets.Length - 1 - offset);
    var bytesSkipped := offsets[offset];
    forall k | offset <= k <= |rows|
      ensures bytesSkipped <= offsets[k] <= |data|
    {
      OffsetsGrow(rows, offset, k);
    }
    slice := Slice(bytesSkipped, offset, limitConst, numBytes - bytesSkipped);
    ghost var before := offsets[..];
    SubtractToEach(offsets, offset, bytesSkipped, limitConst + 1);
    forall k | 0 <= k < limitConst
      ensures DecodesTo(data, offsets[..], slice, rows, k)
    {
      RebasedDecodes(data, before, offsets[..], rows, slice, k);
    }
  }

  lemma OffsetsGrow(rows: seq<Text>, a: nat, b: nat)
    requires a <= b <= |rows|
    ensures Offset(rows, a) <= Offset(rows, b) <= |Flatten(rows)|
  {
    FlattenPrefix(rows, b);
    FlattenPrefix(rows[..b], a);
    assert rows[..b][..a] == rows[..a];
  }

  /** The byte count that TopN passes on is that of its rows if and only if the rows it cuts off
      at the end hold no bytes. */
  lemma TopNBytesIff(rows: seq<Text>, offset: nat, count: nat)
    requires offset + count <= |rows|
    ensures Offset(rows, |rows|) - Offset(rows, offset) == Offset(rows, offset + count) - Offset(rows, offset)
            <==> forall k :: offset + count <= k < |rows| ==> rows[k] == []
    decreases |rows| - offset - count
  {
    if offset + count < |rows| {
      TopNBytesIff(rows, offset, count + 1);
      FlattenStep(rows, offset + count);
      OffsetsGrow(rows, offset + count + 1, |rows|);
    }
  }
}
