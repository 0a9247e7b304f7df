/** Validity masks: one mask per scanned chunk, a whole number of 64-bit words each, appended one
    behind the other into the mask of the column. */
module ValidityMasks {
  import opened Options

  const WORD := 64
  const MASK_PADDING := 64

  function Sum(counts: seq<nat>): nat {
    if counts == [] then 0 else Sum(counts[..|counts| - 1]) + counts[|counts| - 1]
  }

  /** The bytes of a chunk's mask. */
  function ValidityMaskSize(rows: nat): (bytes: nat)
    ensures bytes % 8 == 0 && rows <= bytes * 8 < rows + 64
  {
    (rows + WORD - 1) / WORD * 8
  }

  function MaskBits(rows: nat): (bits: nat)
    ensures bits % 64 == 0 && rows <= bits < rows + 64
  {
    (rows + WORD - 1) / WORD * WORD
  }

  function MaskBytes(counts: seq<nat>): nat {
    if counts == [] then 0 else MaskBytes(counts[..|counts| - 1]) + ValidityMaskSize(counts[|counts| - 1])
  }

  /** getMaskBytesSize: the bytes of a column's mask, padded as cuDF wants it. */
  function GetMaskBytesSize(columnLength: nat): (bytes: nat)
    ensures bytes % 64 == 0 && columnLength <= bytes * 8 < columnLength + 512
  {
    var necessaryBytes := (columnLength + 7) / 8;
    64 * ((necessaryBytes + 63) / 64)
  }

  /** The total of the first pass, rounded up. */
  function MaskSize(counts: seq<nat>): (bytes: nat)
    ensures bytes % 64 == 0 && MaskBytes(counts) <= bytes < MaskBytes(counts) + 64
  {
    MASK_PADDING * ((MaskBytes(counts) + 63) / 64)
  }

  /** Every chunk but the last non-empty one fills its words. */
  predicate Full(counts: seq<nat>) {
    forall i, j :: 0 <= i < j < |counts| && counts[j] > 0 ==> counts[i] % 64 == 0
  }

  lemma CeilAtMost(n: nat, k: nat)
    requires n <= 64 * k
    ensures (n + 63) / 64 <= k
  {
  }

  lemma CeilCovers(n: nat)
    ensures n <= 64 * ((n + 63) / 64)
  {
  }

  /** Full words in front do not change how many words the rest needs. */
  lemma WordsAdd(full: nat, rows: nat)
    requires full % WORD == 0
    ensures ValidityMaskSize(full + rows) == full / 8 + ValidityMaskSize(rows) && full == full / 8 * 8
  {
    var q := full / WORD;
    assert full == WORD * q;
    assert (full + rows + WORD - 1) / WORD == q + (rows + WORD - 1) / WORD;
  }

  lemma FullWords(a: nat, b: nat)
    requires a % WORD == 0 && b % WORD == 0
    ensures (a + b) % WORD == 0 && ValidityMaskSize(b) * 8 == b
  {
    var q := b / WORD;
    assert b == WORD * q;
    assert (b + WORD - 1) / WORD == q;
  }

  /** Full chunks add up to full words. */
  lemma {:induction false} SumOfFull(counts: seq<nat>)
    requires forall i :: 0 <= i < |counts| ==> counts[i] % WORD == 0
    ensures Sum(counts) % WORD == 0 && MaskBytes(counts) * 8 == Sum(counts)
  {
    hide ValidityMaskSize;
    if counts != [] {
      var k := |counts| - 1;
      SumOfFull(counts[..k]);
      FullWords(Sum(counts[..k]), counts[k]);
    }
  }

  /** Chunk by chunk, full chunks need the bytes that one mask over all rows needs. */
  lemma {:induction false} BytesOfFull(counts: seq<nat>)
    requires Full(counts)
    ensures MaskBytes(counts) == ValidityMaskSize(Sum(counts))
  {
    if counts != [] {
      var k := |counts| - 1;
      if counts[k] == 0 {
        BytesOfFull(counts[..k]);
        NoBytes();
      } else {
        SumOfFull(counts[..k]);
        WordsAdd(Sum(counts[..k]), counts[k]);
      }
    }
  }

  /** Rounding up to a multiple of 64, when `q` is known. */
  lemma RoundUp(bytes: nat, q: nat, rest: nat)
    requires bytes == 64 * q + rest && rest <= 64
    ensures (bytes + 63) / 64 == if rest == 0 then q else q + 1
  {
  }

  lemma RoundedAlike(rows: nat)
    ensures MASK_PADDING * ((ValidityMaskSize(rows) + 63) / 64) == GetMaskBytesSize(rows)
  {
    var q, r := rows / 512, rows % 512;
    var w, b := (r + 63) / 64, (r + 7) / 8;
    assert rows == 512 * q + r;
    assert ValidityMaskSize(rows) == 64 * q + 8 * w by {
      assert (rows + WORD - 1) / WORD == 8 * q + w;
    }
    assert (rows + 7) / 8 == 64 * q + b;
    RoundUp(ValidityMaskSize(rows), q, 8 * w);
    RoundUp((rows + 7) / 8, q, b);
  }

  /** With full chunks the mask region has the size that cuDF expects for the column. */
  lemma FullMaskSize(counts: seq<nat>)
    requires Full(counts)
    ensures MaskSize(counts) == GetMaskBytesSize(Sum(counts))
  {
    BytesOfFull(counts);
    RoundedAlike(Sum(counts));
  }

  /** Two masks take at least as many words as one over the rows of both. */
  lemma WordsSplit(a: nat, b: nat)
    ensures ValidityMaskSize(a + b) <= ValidityMaskSize(a) + ValidityMaskSize(b)
  {
    CeilCovers(a);
    CeilCovers(b);
    CeilAtMost(a + b, (a + 63) / 64 + (b + 63) / 64);
  }

  lemma {:induction false} BytesSuffice(counts: seq<nat>)
    ensures MaskBytes(counts) >= ValidityMaskSize(Sum(counts))
  {
    hide ValidityMaskSize;
    if counts != [] {
      var k := |counts| - 1;
      BytesSuffice(counts[..k]);
      WordsSplit(Sum(counts[..k]), counts[k]);
    } else {
      NoBytes();
    }
  }

  lemma NoBytes()
    ensures ValidityMaskSize(0) == 0
  {
  }

  /** The second pass may see the same rows in other chunks; if those are full, the region that the
      first pass sized is large enough for them. */
  lemma SecondPassFits(first: seq<nat>, second: seq<nat>)
    requires Sum(first) == Sum(second) && Full(second)
    ensures MaskBytes(second) <= MaskSize(first)
  {
    BytesSuffice(first);
    BytesOfFull(second);
  }

  // -------------------------------------------------------------------------------------------
  // Bits
  // -------------------------------------------------------------------------------------------

  /** A chunk: which rows are valid, and its mask, which is absent when all rows are. */
  datatype Chunk = Chunk(valid: seq<bool>, mask: Option<seq<bool>>) {

    predicate WellFormed() {
      match mask
      case Some(bits) => |bits| == MaskBits(|valid|) && bits[..|valid|] == valid
      case None => forall i :: 0 <= i < |valid| ==> valid[i]
    }

    /** The bits that are written for the chunk. */
    function Bits(): (bits: seq<bool>)
      requires WellFormed()
      ensures |bits| == MaskBits(|valid|) && bits[..|valid|] == valid
    {
      if mask.Some? then mask.value else seq(MaskBits(|valid|), _ => true)
    }
  }

  function Counts(chunks: seq<Chunk>): (counts: seq<nat>)
    ensures |counts| == |chunks|
  {
    seq(|chunks|, i requires 0 <= i < |chunks| => |chunks[i].valid|)
  }

  /** Which rows of the column are valid. */
  function Valid(chunks: seq<Chunk>): seq<bool> {
    if chunks == [] then [] else Valid(chunks[..|chunks| - 1]) + chunks[|chunks| - 1].valid
  }

  predicate AllWellFormed(chunks: seq<Chunk>) {
    forall i :: 0 <= i < |chunks| ==> chunks[i].WellFormed()
  }

  /** The bits of all chunks, appended. */
  function Appended(chunks: seq<Chunk>): seq<bool>
    requires AllWellFormed(chunks)
  {
    if chunks == [] then [] else Appended(chunks[..|chunks| - 1]) + chunks[|chunks| - 1].Bits()
  }

  lemma AppendStep(chunks: seq<Chunk>, i: nat)
    requires AllWellFormed(chunks) && i < |chunks|
    ensures Appended(chunks[..i + 1]) == Appended(chunks[..i]) + chunks[i].Bits()
    ensures Valid(chunks[..i + 1]) == Valid(chunks[..i]) + chunks[i].valid
  {
    assert chunks[..i + 1][..i] == chunks[..i];
  }

  // One chunk's mask, or ones if it has none, at bit `at`.
  method WriteChunk(chunk: Chunk, region: array<bool>, at: nat)
    requires chunk.WellFormed() && at + MaskBits(|chunk.valid|) <= region.Length
    modifies region
    ensures region[..at] == old(region[..at])
    ensures region[at..at + |chunk.Bits()|] == chunk.Bits()
    ensures region[at + |chunk.Bits()|..] == old(region[at + MaskBits(|chunk.valid|)..])
  {
    var size := MaskBits(|chunk.valid|);
    ghost var bits, before := chunk.Bits(), region[..];
    for k := 0 to size
      invariant forall j :: 0 <= j < k ==> region[at + j] == bits[j]
      invariant forall j :: 0 <= j < region.Length && !(at <= j < at + k) ==> region[j] == before[j]
    {
      region[at + k] := if chunk.mask.None? then true else chunk.mask.value[k];
    }
    assert region[..at] == before[..at];
    assert region[at..at + size] == bits;
    assert region[at + size..] == before[at + size..];
  }

  predicate AllZero(bits: seq<bool>) {
    forall k :: 0 <= k < |bits| ==> !bits[k]
  }

  lemma Extended(was: seq<bool>, now: seq<bool>, at: nat, bits: seq<bool>)
    requires |was| == |now| && at + |bits| <= |was| && AllZero(was[at..])
    requires now[..at] == was[..at] && now[at..at + |bits|] == bits && now[at + |bits|..] == was[at + |bits|..]
    ensures now[..at + |bits|] == was[..at] + bits && AllZero(now[at + |bits|..])
  {
    assert now[..at + |bits|] == now[..at] + now[at..at + |bits|];
    assert now[at + |bits|..] == was[at..][|bits|..];
  }

  // The mask of one column, set to zero and then written chunk by chunk.
  method WriteMasks(chunks: seq<Chunk>, region: array<bool>)
    requires AllWellFormed(chunks) && |Appended(chunks)| <= region.Length
    modifies region
    ensures region[..|Appended(chunks)|] == Appended(chunks) && AllZero(region[|Appended(chunks)|..])
  {
    hide Chunk.Bits, Chunk.WellFormed, MaskBits;
    for k := 0 to region.Length
      invariant forall j :: 0 <= j < k ==> !region[j]
    {
      region[k] := false;
    }
    var at := 0;
    assert chunks[..0] == [] && region[..0] == [] && Appended([]) == [];
    for i := 0 to |chunks|
      invariant at == |Appended(chunks[..i])| <= region.Length && region[..at] == Appended(chunks[..i])
      invariant AllZero(region[at..])
    {
      AppendStep(chunks, i);
      AppendedGrows(chunks, i + 1);
      ghost var bits, was, size := chunks[i].Bits(), region[..], MaskBits(|chunks[i].valid|);
      WriteChunk(chunks[i], region, at);
      Extended(was, region[..], at, bits);
      at := at + MaskBits(|chunks[i].valid|);
    }
    assert chunks[..|chunks|] == chunks;
  }

  lemma {:induction false} AppendedGrows(chunks: seq<Chunk>, i: nat)
    requires AllWellFormed(chunks) && i <= |chunks|
    ensures |Appended(chunks[..i])| <= |Appended(chunks)|
    decreases |chunks|
  {
    if i < |chunks| {
      AppendedGrows(chunks[..|chunks| - 1], i);
      assert chunks[..|chunks| - 1][..i] == chunks[..i];
    } else {
      assert chunks[..i] == chunks;
    }
  }

  lemma {:induction false} AppendedSize(chunks: seq<Chunk>)
    requires AllWellFormed(chunks)
    ensures |Appended(chunks)| == 8 * MaskBytes(Counts(chunks)) && |Valid(chunks)| == Sum(Counts(chunks))
  {
    if chunks != [] {
      AppendedSize(chunks[..|chunks| - 1]);
      assert Counts(chunks)[..|chunks| - 1] == Counts(chunks[..|chunks| - 1]);
    }
  }

  /** The appended masks read, bit by bit, as the mask of the column. */
  predicate Agree(chunks: seq<Chunk>)
    requires AllWellFormed(chunks)
  {
    Valid(chunks) <= Appended(chunks)
  }

  lemma FullFront(chunks: seq<Chunk>)
    requires chunks != [] && Full(Counts(chunks))
    ensures var front := chunks[..|chunks| - 1];
            && Counts(chunks)[..|chunks| - 1] == Counts(front) && Full(Counts(front))
            && (|chunks[|chunks| - 1].valid| > 0 ==> forall i :: 0 <= i < |front| ==> Counts(front)[i] % WORD == 0)
  {
    var counts, front := Counts(chunks), chunks[..|chunks| - 1];
    assert forall i :: 0 <= i < |front| ==> Counts(front)[i] == counts[i];
    if |chunks[|chunks| - 1].valid| > 0 {
      assert counts[|chunks| - 1] > 0;
    }
  }

  lemma {:induction false} FullMasksAgree(chunks: seq<Chunk>)
    requires AllWellFormed(chunks) && Full(Counts(chunks))
    ensures Agree(chunks)
  {
    hide Full, Chunk.WellFormed, Chunk.Bits, Counts;
    if chunks != [] {
      var front, last := chunks[..|chunks| - 1], chunks[|chunks| - 1];
      FullFront(chunks);
      FullMasksAgree(front);
      if |last.valid| > 0 {
        SumOfFull(Counts(front));
        AppendedSize(front);
        assert Valid(front) == Appended(front);
        assert last.Bits()[..|last.valid|] == last.valid;
      }
    }
  }

  lemma {:induction false} Prefixes(chunks: seq<Chunk>, k: nat)
    requires AllWellFormed(chunks) && k <= |chunks|
    ensures Appended(chunks[..k]) <= Appended(chunks) && Valid(chunks[..k]) <= Valid(chunks)
    decreases |chunks|
  {
    if k < |chunks| {
      Prefixes(chunks[..|chunks| - 1], k);
      assert chunks[..|chunks| - 1][..k] == chunks[..k];
    } else {
      assert chunks[..k] == chunks;
    }
  }

  lemma CountsOf(chunks: seq<Chunk>, k: nat)
    requires k <= |chunks|
    ensures Counts(chunks[..k]) == Counts(chunks)[..k]
  {
  }

  /** A chunk that ends within a word, and the first row that follows it. */
  lemma NotFull(counts: seq<nat>) returns (i: nat, j: nat)
    requires !Full(counts)
    ensures i < j < |counts| && counts[i] % WORD != 0 && counts[j] > 0 && Sum(counts[..j]) == Sum(counts[..i + 1])
    ensures forall k :: 0 <= k < i ==> counts[k] % WORD == 0
  {
    hide Sum;
    var a, b :| 0 <= a < b < |counts| && counts[b] > 0 && counts[a] % WORD != 0;
    i := 0;
    while counts[i] % WORD == 0
      invariant i <= a && forall k :: 0 <= k < i ==> counts[k] % WORD == 0
      decreases a - i
    {
      i := i + 1;
    }
    j := i + 1;
    while counts[j] == 0
      invariant i < j <= b && Sum(counts[..j]) == Sum(counts[..i + 1])
      decreases b - j
    {
      SumStep(counts, j);
      j := j + 1;
    }
  }

  function Ones(rows: nat): Chunk {
    Chunk(seq(rows, _ => true), None)
  }

  function Zeros(rows: nat): Chunk {
    Chunk(seq(rows, _ => false), Some(seq(MaskBits(rows), _ => false)))
  }

  /** Rows in chunks of these sizes are always masked right. */
  ghost predicate AlwaysAgree(counts: seq<nat>) {
    forall chunks :: AllWellFormed(chunks) && Counts(chunks) == counts ==> Agree(chunks)
  }

  /** Chunk-wise masks equal the column's mask, whatever the rows hold, if and only if every chunk
      but the last non-empty one has a multiple of 64 rows. */
  lemma MasksAgreeIff(counts: seq<nat>)
    ensures AlwaysAgree(counts) <==> Full(counts)
  {
    if Full(counts) {
      forall chunks | AllWellFormed(chunks) && Counts(chunks) == counts
        ensures Agree(chunks)
      {
        FullMasksAgree(chunks);
      }
    } else {
      var i, j := NotFull(counts);
      var chunks := seq(|counts|, k requires 0 <= k < |counts| => if k == j then Zeros(counts[k]) else Ones(counts[k]));
      assert AllWellFormed(chunks) && Counts(chunks) == counts;
      Disagree(chunks, i, j);
    }
  }

  /** The padding behind chunk `i` is read as the first row of chunk `j`. */
  lemma Disagree(chunks: seq<Chunk>, i: nat, j: nat)
    requires AllWellFormed(chunks) && i < j < |chunks|
    requires var counts := Counts(chunks);
             && counts[i] % WORD != 0 && counts[j] > 0 && Sum(counts[..j]) == Sum(counts[..i + 1])
             && forall k :: 0 <= k < i ==> counts[k] % WORD == 0
    requires chunks[i] == Ones(|chunks[i].valid|) && chunks[j] == Zeros(|chunks[j].valid|)
    ensures !Agree(chunks)
  {
    hide Chunk.WellFormed, Appended, Valid, Counts, MaskBytes, Sum;
    var counts := Counts(chunks);
    CountsOf(chunks, i);
    CountsOf(chunks, j);
    SumOfFull(counts[..i]);
    AppendedSize(chunks[..i]);
    AppendedSize(chunks[..j]);
    SumStep(counts, i);
    AppendStep(chunks, i);
    AppendStep(chunks, j);
    Prefixes(chunks, i + 1);
    Prefixes(chunks, j + 1);
    var at := Sum(counts[..i + 1]);
    var bits := chunks[i].Bits();
    ChunkCount(chunks, i);
    ChunkCount(chunks, j);
    PaddingBehind(counts[i]);
    assert |Appended(chunks[..i])| == at - counts[i] && |Valid(chunks[..j])| == at;
    assert Appended(chunks[..i + 1])[at] == bits[counts[i]];
    assert Valid(chunks[..j + 1])[at] == chunks[j].valid[0];
  }

  lemma SumStep(counts: seq<nat>, i: nat)
    requires i < |counts|
    ensures Sum(counts[..i + 1]) == Sum(counts[..i]) + counts[i]
  {
    assert counts[..i + 1][..i] == counts[..i];
  }

  lemma ChunkCount(chunks: seq<Chunk>, i: nat)
    requires i < |chunks|
    ensures Counts(chunks)[i] == |chunks[i].valid|
  {
  }

  lemma PaddingBehind(rows: nat)
    requires rows % WORD != 0
    ensures rows < MaskBits(rows)
  {
  }
}
