/** The packed layout: one record per table row and rank, resumed from a torn file. */
module EngramPacked {
  import opened Results
  import opened Bytes
  import opened EngramPlan
  import opened EngramCopy

  // Per rank: a 4096-byte header and one 264-byte record (weight row, scale row) per table row,
  // written block by block.

  const MAGIC: nat := 0x31344E4531565344
  const PACKED_HEADER_BYTES: nat := 4096
  const PACKED_ROW_BYTES: nat := 264

  // ----- which rows a rank holds -----

  /** `rows * rank // tp`. */
  function RankLo(rows: nat, tp: nat, rank: nat): nat
    requires tp > 0
  {
    rows * rank / tp
  }

  lemma MulOrder(a: nat, b: nat, d: nat)
    requires a <= b
    ensures a * d <= b * d
  {
  }

  lemma Distribute(a: nat, b: nat, d: nat)
    ensures (a + b) * d == a * d + b * d
  {
  }

  lemma QuotientOrder(a: nat, b: nat, d: nat)
    requires a * d < b * d + d
    ensures a <= b
  {
    Distribute(b, 1, d);
    if a > b {
      MulOrder(b + 1, a, d);
    }
  }

  lemma DivStep(rows: nat, tp: nat, k: nat)
    requires tp > 0
    ensures rows / tp <= (k + rows) / tp - k / tp <= rows / tp + 1
  {
    var q, a, c := rows / tp, k / tp, (k + rows) / tp;
    Distribute(a, q, tp);
    Distribute(a + q, 1, tp);
    QuotientOrder(a + q, c, tp);
    QuotientOrder(c, a + q + 1, tp);
  }

  lemma RankStep(rows: nat, tp: nat, r: nat)
    requires tp > 0
    ensures rows / tp <= RankLo(rows, tp, r + 1) - RankLo(rows, tp, r) <= rows / tp + 1
  {
    assert rows * (r + 1) == rows * r + rows;
    DivStep(rows, tp, rows * r);
  }

  /** The rank ranges are consecutive, cover the table, and differ in size by at most one row. */
  lemma RanksPartition(rows: nat, tp: nat)
    requires tp > 0
    ensures RankLo(rows, tp, 0) == 0 && RankLo(rows, tp, tp) == rows
    ensures forall r: nat :: r < tp ==>
      rows / tp <= RankLo(rows, tp, r + 1) - RankLo(rows, tp, r) <= rows / tp + 1
  {
    QuotientOrder(rows * tp / tp, rows, tp);
    QuotientOrder(rows, rows * tp / tp, tp);
    forall r: nat | r < tp
      ensures rows / tp <= RankLo(rows, tp, r + 1) - RankLo(rows, tp, r) <= rows / tp + 1
    {
      RankStep(rows, tp, r);
    }
  }

  // ----- the file of one rank -----

  /** A table to pack: where its two planes start, and how many rows it has. */
  datatype Table = Table(weight: string, weightOff: nat, scale: string, scaleOff: nat, rows: nat)

  function RowBytesAt(source: map<string, seq<byte>>, shard: string, off: nat, row: nat, rowBytes: nat): (s: seq<byte>) {
    Slice(Shard(source, shard), off + row * rowBytes, rowBytes)
  }

  /** One record: the weight row, then the scale row. */
  function Record(source: map<string, seq<byte>>, t: Table, row: nat): seq<byte> {
    RowBytesAt(source, t.weight, t.weightOff, row, WEIGHT_BYTES) + RowBytesAt(source, t.scale, t.scaleOff, row, SCALE_BYTES)
  }

  function Records(source: map<string, seq<byte>>, t: Table, lo: nat, hi: nat): seq<byte>
    requires lo <= hi
    decreases hi - lo
  {
    if lo == hi then [] else Records(source, t, lo, hi - 1) + Record(source, t, hi - 1)
  }

  function PackedHeader(layer: nat, lo: nat, hi: nat, rows: nat): (h: seq<byte>)
    ensures |h| == PACKED_HEADER_BYTES
  {
    PackLE(MAGIC, 8) + PackLE(layer, 8) + PackLE(lo, 8) + PackLE(hi, 8) + PackLE(rows, 8) + PackLE(PACKED_ROW_BYTES, 8)
    + Zeros(PACKED_HEADER_BYTES - 48)
  }

  function PackedFile(source: map<string, seq<byte>>, t: Table, layer: nat, lo: nat, hi: nat): seq<byte>
    requires lo <= hi
  {
    PackedHeader(layer, lo, hi, t.rows) + Records(source, t, lo, hi)
  }

  /** The checkpoint holds every row of both planes. */
  ghost predicate TableAvailable(source: map<string, seq<byte>>, t: Table) {
    && t.weightOff + t.rows * WEIGHT_BYTES <= |Shard(source, t.weight)|
    && t.scaleOff + t.rows * SCALE_BYTES <= |Shard(source, t.scale)|
  }

  lemma {:induction false} RecordsSize(source: map<string, seq<byte>>, t: Table, lo: nat, hi: nat)
    requires TableAvailable(source, t) && lo <= hi <= t.rows
    ensures |Records(source, t, lo, hi)| == (hi - lo) * PACKED_ROW_BYTES
    decreases hi - lo
  {
    if lo < hi {
      RecordsSize(source, t, lo, hi - 1);
    }
  }

  lemma {:induction false} RecordsSplit(source: map<string, seq<byte>>, t: Table, lo: nat, mid: nat, hi: nat)
    requires lo <= mid <= hi
    ensures Records(source, t, lo, hi) == Records(source, t, lo, mid) + Records(source, t, mid, hi)
    decreases hi - mid
  {
    if mid < hi {
      RecordsSplit(source, t, lo, mid, hi - 1);
    }
  }

  /** The reader's rule: the record of row `row` starts at `4096 + (row - lo) * 264`. */
  lemma RecordAt(source: map<string, seq<byte>>, t: Table, layer: nat, lo: nat, hi: nat, row: nat)
    requires TableAvailable(source, t) && lo <= row < hi <= t.rows
    ensures Slice(PackedFile(source, t, layer, lo, hi), PACKED_HEADER_BYTES + (row - lo) * PACKED_ROW_BYTES, PACKED_ROW_BYTES)
         == Record(source, t, row)
  {
    var front := PackedHeader(layer, lo, hi, t.rows) + Records(source, t, lo, row);
    var rest := Records(source, t, row + 1, hi);
    RecordsAround(source, t, lo, hi, row);
    RecordsSize(source, t, lo, row);
    assert PackedFile(source, t, layer, lo, hi) == front + Record(source, t, row) + rest;
  }

  lemma RecordsAround(source: map<string, seq<byte>>, t: Table, lo: nat, hi: nat, row: nat)
    requires TableAvailable(source, t) && lo <= row < hi <= t.rows
    ensures Records(source, t, lo, hi) == Records(source, t, lo, row) + Record(source, t, row) + Records(source, t, row + 1, hi)
  {
    RecordsSplit(source, t, lo, row, hi);
    RecordsSplit(source, t, row, row + 1, hi);
    assert Records(source, t, row, row + 1) == [] + Record(source, t, row);
  }

  // ----- resuming -----

  /** Whole records a partial of `size` bytes claims to hold; none when it claims too many. */
  function HaveRows(partial: Option<seq<byte>>, count: nat): nat {
    if partial.None? || |partial.value| < PACKED_HEADER_BYTES then 0
    else
      var n := (|partial.value| - PACKED_HEADER_BYTES) / PACKED_ROW_BYTES;
      if n > count then 0 else n
  }

  datatype PackError = RankOutOfRange | ShortRead | SizeMismatch

  /** What is in the file before the first record of this run is written. */
  function ResumeBase(layer: nat, lo: nat, hi: nat, rows: nat, partial: Option<seq<byte>>): seq<byte>
    requires lo <= hi
  {
    if HaveRows(partial, hi - lo) == 0 then PackedHeader(layer, lo, hi, rows) else partial.value
  }

  /** The bytes of the file once rows `lo + have ..` have been written over what it held. */
  function Resumed(source: map<string, seq<byte>>, t: Table, layer: nat, lo: nat, hi: nat, partial: Option<seq<byte>>): seq<byte>
    requires lo <= hi
  {
    var have := HaveRows(partial, hi - lo);
    Pwrite(ResumeBase(layer, lo, hi, t.rows, partial), PACKED_HEADER_BYTES + have * PACKED_ROW_BYTES,
           Records(source, t, lo + have, hi))
  }

  function PackedSize(count: nat): nat {
    PACKED_HEADER_BYTES + count * PACKED_ROW_BYTES
  }

  function RankHi(rows: nat, tp: nat, rank: nat, limitRows: Option<nat>): nat
    requires tp > 0 && rank < tp
  {
    var hi := RankLo(rows, tp, rank + 1);
    match limitRows
    case None => hi
    case Some(n) => Min(hi, RankLo(rows, tp, rank) + n)
  }

  lemma RankRange(rows: nat, tp: nat, rank: nat, limitRows: Option<nat>)
    requires tp > 0 && rank < tp
    ensures RankLo(rows, tp, rank) <= RankHi(rows, tp, rank, limitRows)
  {
    RankOrder(rows, tp, rank);
  }

  lemma RankOrder(rows: nat, tp: nat, r: nat)
    requires tp > 0
    ensures RankLo(rows, tp, r) <= RankLo(rows, tp, r + 1)
  {
    RankStep(rows, tp, r);
  }

  ghost predicate RowsAvailable(source: map<string, seq<byte>>, t: Table, row: nat, n: nat) {
    && t.weightOff + (row + n) * WEIGHT_BYTES <= |Shard(source, t.weight)|
    && t.scaleOff + (row + n) * SCALE_BYTES <= |Shard(source, t.scale)|
  }

  /** One block of `n` records, interleaved row by row. */
  method Interleave(weight: seq<byte>, scale: seq<byte>, n: nat,
                    ghost source: map<string, seq<byte>>, ghost t: Table, ghost row: nat) returns (block: seq<byte>)
    requires RowsAvailable(source, t, row, n)
    requires weight == Slice(Shard(source, t.weight), t.weightOff + row * WEIGHT_BYTES, n * WEIGHT_BYTES)
    requires scale == Slice(Shard(source, t.scale), t.scaleOff + row * SCALE_BYTES, n * SCALE_BYTES)
    ensures block == Records(source, t, row, row + n)
  {
    block := [];
    var i := 0;
    while i < n
      invariant 0 <= i <= n
      invariant block == Records(source, t, row, row + i)
    {
      BlockRow(source, t.weight, t.weightOff, row, n, WEIGHT_BYTES, i);
      BlockRow(source, t.scale, t.scaleOff, row, n, SCALE_BYTES, i);
      block := block + (weight[i * WEIGHT_BYTES..(i + 1) * WEIGHT_BYTES] + scale[i * SCALE_BYTES..(i + 1) * SCALE_BYTES]);
      i := i + 1;
    }
  }

  /** `source.read`: the bytes asked for, or an error when the shard is too short. */
  function ReadExactly(source: map<string, seq<byte>>, shard: string, off: nat, n: nat): (r: Option<seq<byte>>)
    ensures r.Some? <==> n == 0 || off + n <= |Shard(source, shard)|
    ensures r.Some? ==> r.value == Slice(Shard(source, shard), off, n)
  {
    if n == 0 then Some([])
    else if off + n <= |Shard(source, shard)| then Some(Slice(Shard(source, shard), off, n)) else None
  }

  lemma RowsFit(source: map<string, seq<byte>>, t: Table, lo: nat, mid: nat)
    requires lo <= mid && RowsAvailable(source, t, mid, 0)
    ensures |Records(source, t, lo, mid)| == (mid - lo) * PACKED_ROW_BYTES
  {
    RecordsSize(source, t.(rows := mid), lo, mid);
  }

  /** The file of rows `lo..`, written up to record `start` over `base`, from record `have` on. */
  ghost predicate WrittenTo(source: map<string, seq<byte>>, t: Table, base: seq<byte>, lo: nat, have: nat, start: nat, file: seq<byte>) {
    have <= start && file == Pwrite(base, PackedSize(have), Records(source, t, lo + have, lo + start))
  }

  /** Writing one more block extends what the file holds by the block's records. */
  lemma BlockWritten(source: map<string, seq<byte>>, t: Table, base: seq<byte>, lo: nat, have: nat, start: nat, next: nat, file: seq<byte>)
    requires WrittenTo(source, t, base, lo, have, start, file)
    requires start <= next && RowsAvailable(source, t, lo + next, 0)
    ensures WrittenTo(source, t, base, lo, have, next, Pwrite(file, PackedSize(start), Records(source, t, lo + start, lo + next)))
  {
    var done, block := Records(source, t, lo + have, lo + start), Records(source, t, lo + start, lo + next);
    RowsFit(source, t, lo + have, lo + start);
    RecordsSplit(source, t, lo + have, lo + start, lo + next);
    PwriteThen(base, PackedSize(have), done, PackedSize(start), block, Records(source, t, lo + have, lo + next));
  }

  lemma AllWritten(source: map<string, seq<byte>>, t: Table, layer: nat, lo: nat, hi: nat, partial: Option<seq<byte>>, file: seq<byte>)
    requires lo <= hi
    requires WrittenTo(source, t, ResumeBase(layer, lo, hi, t.rows, partial), lo, HaveRows(partial, hi - lo), hi - lo, file)
    ensures file == Resumed(source, t, layer, lo, hi, partial)
  {
    assert lo + (hi - lo) == hi;
  }

  /** Read and interleave rows `row .. row + n`, unless the checkpoint is too short. */
  method PackBlock(source: map<string, seq<byte>>, t: Table, row: nat, n: nat) returns (block: Option<seq<byte>>)
    requires n > 0
    ensures block.Some? <==> RowsAvailable(source, t, row + n, 0)
    ensures block.Some? ==> block.value == Records(source, t, row, row + n)
  {
    Distribute(row, n, WEIGHT_BYTES);
    Distribute(row, n, SCALE_BYTES);
    var weight := ReadExactly(source, t.weight, t.weightOff + row * WEIGHT_BYTES, n * WEIGHT_BYTES);
    var scale := ReadExactly(source, t.scale, t.scaleOff + row * SCALE_BYTES, n * SCALE_BYTES);
    if weight.None? || scale.None? {
      return None;
    }
    var records := Interleave(weight.value, scale.value, n, source, t, row);
    block := Some(records);
  }

  /**
    What one layer's run returns: a short read when rows are missing and the checkpoint ends before the
    last of them; else the resumed file if it has the expected size; else the size is wrong.
   */
  ghost predicate Packed(source: map<string, seq<byte>>, t: Table, layer: nat, lo: nat, hi: nat, partial: Option<seq<byte>>,
                         r: Result<seq<byte>, PackError>)
    requires lo <= hi
  {
    var resumed := Resumed(source, t, layer, lo, hi, partial);
    if HaveRows(partial, hi - lo) < hi - lo && !RowsAvailable(source, t, hi, 0) then r == Err(ShortRead)
    else r == if |resumed| == PackedSize(hi - lo) then Ok(resumed) else Err(SizeMismatch)
  }

  /**
    `build_packed` for one layer: resume from whatever partial is there, write the missing records
    block by block, and publish only a file of the expected size.
   */
  method BuildPacked(source: map<string, seq<byte>>, t: Table, layer: nat, tp: int, rank: int,
                     limitRows: Option<nat>, chunk: nat, partial: Option<seq<byte>>)
    returns (r: Result<seq<byte>, PackError>)
    ensures !(0 <= rank < tp) <==> r == Err(RankOutOfRange)
    ensures 0 <= rank < tp ==>
      var lo, hi := RankLo(t.rows, tp, rank), RankHi(t.rows, tp, rank, limitRows);
      lo <= hi && Packed(source, t, layer, lo, hi, partial, r)
  {
    if !(0 <= rank < tp) {
      return Err(RankOutOfRange);
    }
    var lo, hi := RankLo(t.rows, tp, rank), RankHi(t.rows, tp, rank, limitRows);
    RankRange(t.rows, tp, rank, limitRows);
    r := WriteRecords(source, t, layer, lo, hi, chunk, partial);
  }

  /** The checkpoint holds the first `rows` rows of both planes. */
  ghost predicate RowsUpTo(source: map<string, seq<byte>>, t: Table, rows: nat) {
    RowsAvailable(source, t, rows, 0)
  }

  lemma FewerRows(source: map<string, seq<byte>>, t: Table, few: nat, many: nat)
    requires few <= many
    ensures RowsUpTo(source, t, many) ==> RowsUpTo(source, t, few)
  {
  }

  /** One block: read, interleaved and written after the records that are there. */
  method FillBlock(source: map<string, seq<byte>>, t: Table, lo: nat, ghost have: nat, start: nat, n: nat, ghost base: seq<byte>, file: seq<byte>)
    returns (r: Option<seq<byte>>)
    requires n > 0 && WrittenTo(source, t, base, lo, have, start, file)
    ensures r.Some? ==> WrittenTo(source, t, base, lo, have, start + n, r.value)
    ensures r.Some? <==> RowsUpTo(source, t, lo + start + n)
  {
    var block := PackBlock(source, t, lo + start, n);
    if block.None? {
      return None;
    }
    BlockWritten(source, t, base, lo, have, start, start + n, file);
    return Some(Pwrite(file, PackedSize(start), block.value));
  }

  lemma NothingWritten(source: map<string, seq<byte>>, t: Table, base: seq<byte>, lo: nat, have: nat)
    ensures WrittenTo(source, t, base, lo, have, have, base)
  {
  }

  /** The blocks from record `have` on. */
  method FillRecords(source: map<string, seq<byte>>, t: Table, lo: nat, have: nat, count: nat, blockRows: nat, base: seq<byte>)
    returns (r: Option<seq<byte>>)
    requires have <= count && blockRows > 0
    ensures r.Some? ==> WrittenTo(source, t, base, lo, have, count, r.value)
    ensures r.Some? <==> have == count || RowsUpTo(source, t, lo + count)
  {
    var file, start := base, have;
    NothingWritten(source, t, base, lo, have);
    while start < count
      invariant have <= start <= count
      invariant WrittenTo(source, t, base, lo, have, start, file)
      invariant start == have || RowsUpTo(source, t, lo + start)
    {
      var n := Min(blockRows, count - start);
      var next := FillBlock(source, t, lo, have, start, n, base, file);
      if next.None? {
        FewerRows(source, t, lo + start + n, lo + count);
        assert !RowsUpTo(source, t, lo + count);
        return None;
      }
      file := next.value;
      start := start + n;
    }
    return Some(file);
  }

  method WriteRecords(source: map<string, seq<byte>>, t: Table, layer: nat, lo: nat, hi: nat, chunk: nat, partial: Option<seq<byte>>)
    returns (r: Result<seq<byte>, PackError>)
    requires lo <= hi
    ensures Packed(source, t, layer, lo, hi, partial, r) && r != Err(RankOutOfRange)
  {
    var count := hi - lo;
    var have := HaveRows(partial, count);
    var base := ResumeBase(layer, lo, hi, t.rows, partial);
    var file := FillRecords(source, t, lo, have, count, BlockRows(count - have, chunk), base);
    OutcomeIs(source, t, layer, lo, hi, partial, file);
    r := Outcome(file, count);
  }

  function Max(a: nat, b: nat): nat { if a >= b then a else b }

  /** Rows to a block: as many whole records as the chunk size holds, but not more than are missing. */
  function BlockRows(missing: nat, chunk: nat): (n: nat)
    ensures n > 0
  {
    Max(1, Min(missing, Max(1, chunk / PACKED_ROW_BYTES)))
  }

  /** The size test before the rename. */
  function Outcome(file: Option<seq<byte>>, count: nat): Result<seq<byte>, PackError> {
    if file.None? then Err(ShortRead)
    else if |file.value| == PackedSize(count) then Ok(file.value) else Err(SizeMismatch)
  }

  lemma OutcomeIs(source: map<string, seq<byte>>, t: Table, layer: nat, lo: nat, hi: nat, partial: Option<seq<byte>>, file: Option<seq<byte>>)
    requires lo <= hi
    requires file.Some? ==>
      WrittenTo(source, t, ResumeBase(layer, lo, hi, t.rows, partial), lo, HaveRows(partial, hi - lo), hi - lo, file.value)
    requires file.Some? <==> HaveRows(partial, hi - lo) == hi - lo || RowsAvailable(source, t, lo + (hi - lo), 0)
    ensures Packed(source, t, layer, lo, hi, partial, Outcome(file, hi - lo))
  {
    assert lo + (hi - lo) == hi;
    if file.Some? {
      AllWritten(source, t, layer, lo, hi, partial, file.value);
    }
  }

  // ----- what resuming is worth -----

  /**
    A resume yields the complete file exactly when it starts over, or when the records it keeps are
    the right ones and the partial is not too long.
   */
  lemma ResumeExactly(source: map<string, seq<byte>>, t: Table, layer: nat, lo: nat, hi: nat, partial: Option<seq<byte>>)
    requires TableAvailable(source, t) && lo <= hi <= t.rows
    ensures var file, have := PackedFile(source, t, layer, lo, hi), HaveRows(partial, hi - lo);
      Resumed(source, t, layer, lo, hi, partial) == file <==>
        have == 0 || (|partial.value| <= PackedSize(hi - lo) && partial.value[..PackedSize(have)] == Slice(file, 0, PackedSize(have)))
  {
    if HaveRows(partial, hi - lo) == 0 {
      ResumeFresh(source, t, layer, lo, hi, partial);
    } else {
      ResumeKept(source, t, layer, lo, hi, partial);
    }
  }

  lemma ResumeFresh(source: map<string, seq<byte>>, t: Table, layer: nat, lo: nat, hi: nat, partial: Option<seq<byte>>)
    requires TableAvailable(source, t) && lo <= hi <= t.rows && HaveRows(partial, hi - lo) == 0
    ensures Resumed(source, t, layer, lo, hi, partial) == PackedFile(source, t, layer, lo, hi)
  {
    var head, rest := PackedHeader(layer, lo, hi, t.rows), Records(source, t, lo, hi);
    assert lo + 0 == lo;
  }

  lemma ResumeKept(source: map<string, seq<byte>>, t: Table, layer: nat, lo: nat, hi: nat, partial: Option<seq<byte>>)
    requires TableAvailable(source, t) && lo <= hi <= t.rows && HaveRows(partial, hi - lo) > 0
    ensures var file, have := PackedFile(source, t, layer, lo, hi), HaveRows(partial, hi - lo);
      Resumed(source, t, layer, lo, hi, partial) == file <==>
        |partial.value| <= PackedSize(hi - lo) && partial.value[..PackedSize(have)] == Slice(file, 0, PackedSize(have))
  {
    var have := HaveRows(partial, hi - lo);
    var head, rest := PackedHeader(layer, lo, hi, t.rows) + Records(source, t, lo, lo + have), Records(source, t, lo + have, hi);
    FileParts(source, t, layer, lo, lo + have, hi);
    ResumedKeeps(source, t, layer, lo, hi, partial, have, rest);
    OverwriteFile(partial.value, PackedSize(have), rest, head, PackedFile(source, t, layer, lo, hi));
  }

  lemma ResumedKeeps(source: map<string, seq<byte>>, t: Table, layer: nat, lo: nat, hi: nat, partial: Option<seq<byte>>,
                     have: nat, rest: seq<byte>)
    requires lo <= hi && have == HaveRows(partial, hi - lo) > 0 && rest == Records(source, t, lo + have, hi)
    ensures partial.Some? && PackedSize(have) <= |partial.value|
    ensures Resumed(source, t, layer, lo, hi, partial) == Pwrite(partial.value, PackedSize(have), rest)
  {
  }

  lemma OverwriteFile(base: seq<byte>, at: nat, rest: seq<byte>, head: seq<byte>, file: seq<byte>)
    requires at <= |base| && |head| == at && file == head + rest
    ensures Pwrite(base, at, rest) == file <==> |base| <= |file| && base[..at] == Slice(file, 0, at)
  {
  }

  lemma FileParts(source: map<string, seq<byte>>, t: Table, layer: nat, lo: nat, mid: nat, hi: nat)
    requires TableAvailable(source, t) && lo <= mid <= hi <= t.rows
    ensures var head := PackedHeader(layer, lo, hi, t.rows) + Records(source, t, lo, mid);
      && |head| == PackedSize(mid - lo)
      && |head| + |Records(source, t, mid, hi)| == PackedSize(hi - lo)
      && PackedFile(source, t, layer, lo, hi) == head + Records(source, t, mid, hi)
  {
    RecordsSplit(source, t, lo, mid, hi);
    RecordsSize(source, t, lo, mid);
    RecordsSize(source, t, mid, hi);
    Distribute(mid - lo, hi - mid, PACKED_ROW_BYTES);
  }

  /** Resuming from any truncated prefix of the right file gives the same bytes as an uninterrupted run. */
  lemma TornPrefixResumes(source: map<string, seq<byte>>, t: Table, layer: nat, lo: nat, hi: nat, torn: nat)
    requires TableAvailable(source, t) && lo <= hi <= t.rows
    requires torn <= |PackedFile(source, t, layer, lo, hi)|
    ensures var file := PackedFile(source, t, layer, lo, hi);
      Resumed(source, t, layer, lo, hi, Some(file[..torn])) == Resumed(source, t, layer, lo, hi, None) == file
  {
    var file := PackedFile(source, t, layer, lo, hi);
    var partial := Some(file[..torn]);
    RecordsSize(source, t, lo, hi);
    ResumeExactly(source, t, layer, lo, hi, None);
    ResumeExactly(source, t, layer, lo, hi, partial);
    var have := HaveRows(partial, hi - lo);
    if have > 0 {
      assert file[..torn][..PackedSize(have)] == file[..PackedSize(have)];
    }
  }

  // ----- a partial of another row limit -----

  lemma HeaderField(layer: nat, lo: nat, hi: nat, rows: nat)
    ensures PackedHeader(layer, lo, hi, rows)[24..32] == PackLE(hi, 8)
  {
    FourthField(PackLE(MAGIC, 8), PackLE(layer, 8), PackLE(lo, 8), PackLE(hi, 8),
                PackLE(rows, 8), PackLE(PACKED_ROW_BYTES, 8), Zeros(PACKED_HEADER_BYTES - 48));
  }

  lemma FourthField(a: seq<byte>, b: seq<byte>, c: seq<byte>, d: seq<byte>, e: seq<byte>, f: seq<byte>, z: seq<byte>)
    requires |a| == |b| == |c| == |d| == 8
    ensures (a + b + c + d + e + f + z)[24..32] == d
  {
    var front, back := a + b + c, e + f + z;
    assert a + b + c + d + e + f + z == front + d + back;
  }

  lemma HeadersDiffer(layer: nat, lo: nat, mid: nat, hi: nat, rows: nat)
    requires mid < Pow256(8) && hi < Pow256(8)
    ensures PackedHeader(layer, lo, mid, rows)[24..32] == PackLE(mid, 8)
    ensures PackedHeader(layer, lo, mid, rows) == PackedHeader(layer, lo, hi, rows) <==> mid == hi
  {
    HeaderField(layer, lo, mid, rows);
    HeaderField(layer, lo, hi, rows);
    UnpackPack(mid, 8);
    UnpackPack(hi, 8);
  }

  /**
    A partial of rows `lo..mid`, torn anywhere after its first record, is resumed for rows `lo..hi`: the
    same rank under another `--limit-rows`. Its records are right and kept, and so is its header, which
    still says `mid`. The file has the expected size and is published; it is right only if the limit
    was the same.
   */
  lemma OtherLimitKeepsHeader(source: map<string, seq<byte>>, t: Table, layer: nat, lo: nat, mid: nat, hi: nat, torn: nat)
    requires TableAvailable(source, t) && lo <= mid <= t.rows && lo <= hi <= t.rows && t.rows < Pow256(8)
    requires torn <= |PackedFile(source, t, layer, lo, mid)| && torn <= PackedSize(hi - lo)
    requires HaveRows(Some(PackedFile(source, t, layer, lo, mid)[..torn]), hi - lo) > 0
    ensures var partial, r := Some(PackedFile(source, t, layer, lo, mid)[..torn]),
                PackedHeader(layer, lo, mid, t.rows) + Records(source, t, lo, hi);
      && Packed(source, t, layer, lo, hi, partial, Ok(r))
      && (r == PackedFile(source, t, layer, lo, hi) <==> mid == hi)
  {
    var file := PackedFile(source, t, layer, lo, mid);
    var partial, have := Some(file[..torn]), HaveRows(Some(file[..torn]), hi - lo);
    var header := PackedHeader(layer, lo, mid, t.rows);
    RecordsSize(source, t, lo, mid);
    RecordsSize(source, t, lo, hi);
    KeptFront(source, t, layer, lo, mid, hi, torn, have);
    ResumedKeeps(source, t, layer, lo, hi, partial, have, Records(source, t, lo + have, hi));
    OverwriteFile(file[..torn], PackedSize(have), Records(source, t, lo + have, hi),
                  header + Records(source, t, lo, lo + have), header + Records(source, t, lo, hi));
    FewerRows(source, t, hi, t.rows);
    HeadersDiffer(layer, lo, mid, hi, t.rows);
    SameBody(header, PackedHeader(layer, lo, hi, t.rows), Records(source, t, lo, hi));
  }

  lemma SameBody(header: seq<byte>, other: seq<byte>, body: seq<byte>)
    requires |header| == |other|
    ensures header + body == other + body <==> header == other
  {
    assert (header + body)[..|header|] == header && (other + body)[..|other|] == other;
  }

  /** What the resume keeps of the torn file, and what it goes on to write. */
  lemma KeptFront(source: map<string, seq<byte>>, t: Table, layer: nat, lo: nat, mid: nat, hi: nat, torn: nat, have: nat)
    requires TableAvailable(source, t) && lo <= mid <= t.rows && lo <= hi <= t.rows
    requires torn <= |PackedFile(source, t, layer, lo, mid)| && PackedSize(have) <= torn <= PackedSize(hi - lo)
    ensures lo + have <= mid && lo + have <= hi
    ensures var head := PackedHeader(layer, lo, mid, t.rows) + Records(source, t, lo, lo + have);
      && |head| == PackedSize(have)
      && PackedFile(source, t, layer, lo, mid)[..torn][..PackedSize(have)] == head
      && PackedHeader(layer, lo, mid, t.rows) + Records(source, t, lo, hi) == head + Records(source, t, lo + have, hi)
      && |head + Records(source, t, lo + have, hi)| == PackedSize(hi - lo)
  {
    RecordsSize(source, t, lo, mid);
    RecordsSize(source, t, lo, hi);
    FileParts(source, t, layer, lo, lo + have, mid);
    RecordsSplit(source, t, lo, lo + have, hi);
    var header := PackedHeader(layer, lo, mid, t.rows);
    Front(header + Records(source, t, lo, lo + have), Records(source, t, lo + have, mid), torn);
    Regrouped(header, Records(source, t, lo, lo + have), Records(source, t, lo + have, hi));
  }

  lemma Front(head: seq<byte>, rest: seq<byte>, torn: nat)
    requires |head| <= torn <= |head + rest|
    ensures (head + rest)[..torn][..|head|] == head
  {
  }

  lemma Regrouped(a: seq<byte>, b: seq<byte>, c: seq<byte>)
    ensures a + (b + c) == (a + b) + c
  {
  }

  /** Two rows of ones. */
  function SmallTable(): Table { Table("weights", 0, "scales", 0, 2) }

  function SmallSource(): map<string, seq<byte>> {
    map["weights" := seq(512, _ => 1), "scales" := seq(16, _ => 1)]
  }

  /**
    A run with `--limit-rows 1` stops after its only record; the same rank without a limit then publishes
    a file whose header says that the row range ends at 1, though it holds both rows.
   */
  lemma SmallTableKeepsHeader()
    ensures RankHi(2, 1, 0, Some(1)) == 1 && RankHi(2, 1, 0, None) == 2
    ensures var partial, r := Some(PackedFile(SmallSource(), SmallTable(), 1, 0, 1)),
                PackedHeader(1, 0, 1, 2) + Records(SmallSource(), SmallTable(), 0, 2);
      && Packed(SmallSource(), SmallTable(), 1, 0, 2, partial, Ok(r))
      && r != PackedFile(SmallSource(), SmallTable(), 1, 0, 2)
      && r[24..32] == PackLE(1, 8) != PackLE(2, 8)
  {
    var source, t := SmallSource(), SmallTable();
    var file := PackedFile(source, t, 1, 0, 1);
    assert TableAvailable(source, t);
    assert Pow256(8) > 2;
    RecordsSize(source, t, 0, 1);
    assert file[..|file|] == file;
    OtherLimitKeepsHeader(source, t, 1, 0, 1, 2, |file|);
    HeadersDiffer(1, 0, 1, 2, 2);
    UnpackPack(1, 8);
    UnpackPack(2, 8);
    assert (PackedHeader(1, 0, 1, 2) + Records(source, t, 0, 2))[24..32] == PackedHeader(1, 0, 1, 2)[24..32];
  }

  // ----- taking the planes apart again -----

  /** One plane of `n` records: `width` bytes of each, from offset `at`. */
  function Column(records: seq<byte>, n: nat, at: nat, width: nat): seq<byte>
    requires n * PACKED_ROW_BYTES <= |records| && at + width <= PACKED_ROW_BYTES
  {
    if n == 0 then []
    else
      Column(records, n - 1, at, width)
      + records[(n - 1) * PACKED_ROW_BYTES + at..(n - 1) * PACKED_ROW_BYTES + at + width]
  }

  lemma {:induction false} ColumnPrefix(a: seq<byte>, b: seq<byte>, n: nat, at: nat, width: nat)
    requires n * PACKED_ROW_BYTES <= |a| && at + width <= PACKED_ROW_BYTES
    ensures Column(a + b, n, at, width) == Column(a, n, at, width)
  {
    if n > 0 {
      ColumnPrefix(a, b, n - 1, at, width);
      var p := (n - 1) * PACKED_ROW_BYTES + at;
      assert (a + b)[p..p + width] == a[p..p + width];
    }
  }

  /** A plane of the table: its place in the source, and its place in a record. */
  datatype Part = Part(shard: string, off: nat, at: nat, width: nat)

  function Weights(t: Table): Part { Part(t.weight, t.weightOff, 0, WEIGHT_BYTES) }

  function Scales(t: Table): Part { Part(t.scale, t.scaleOff, WEIGHT_BYTES, SCALE_BYTES) }

  ghost predicate IsPart(source: map<string, seq<byte>>, t: Table, p: Part) {
    && (p == Weights(t) || p == Scales(t))
    && p.off + t.rows * p.width <= |Shard(source, p.shard)|
  }

  /** One more record adds one more row to the plane. */
  lemma DeinterleaveStep(source: map<string, seq<byte>>, t: Table, p: Part, lo: nat, hi: nat)
    requires TableAvailable(source, t) && IsPart(source, t, p) && lo < hi <= t.rows
    requires |Records(source, t, lo, hi - 1)| == (hi - 1 - lo) * PACKED_ROW_BYTES
    ensures |Records(source, t, lo, hi)| == (hi - lo) * PACKED_ROW_BYTES
    ensures Column(Records(source, t, lo, hi), hi - lo, p.at, p.width)
         == Column(Records(source, t, lo, hi - 1), hi - 1 - lo, p.at, p.width) + RowBytesAt(source, p.shard, p.off, hi - 1, p.width)
  {
    ColumnPrefix(Records(source, t, lo, hi - 1), Record(source, t, hi - 1), hi - 1 - lo, p.at, p.width);
  }

  lemma RowsOfPart(source: map<string, seq<byte>>, t: Table, p: Part, lo: nat, hi: nat)
    requires TableAvailable(source, t) && IsPart(source, t, p) && lo < hi <= t.rows
    ensures Slice(Shard(source, p.shard), p.off + lo * p.width, (hi - 1 - lo) * p.width)
              + RowBytesAt(source, p.shard, p.off, hi - 1, p.width)
         == Slice(Shard(source, p.shard), p.off + lo * p.width, (hi - lo) * p.width)
  {
    MulOrder(hi, t.rows, p.width);
  }

  /** One plane of rows `lo..hi`, read back from their records. */
  lemma {:induction false} DeinterleaveRows(source: map<string, seq<byte>>, t: Table, p: Part, lo: nat, hi: nat)
    requires TableAvailable(source, t) && IsPart(source, t, p) && lo <= hi <= t.rows
    ensures |Records(source, t, lo, hi)| == (hi - lo) * PACKED_ROW_BYTES
    ensures Column(Records(source, t, lo, hi), hi - lo, p.at, p.width)
         == Slice(Shard(source, p.shard), p.off + lo * p.width, (hi - lo) * p.width)
    decreases hi - lo
  {
    if lo < hi {
      DeinterleaveRows(source, t, p, lo, hi - 1);
      DeinterleaveStep(source, t, p, lo, hi);
      RowsOfPart(source, t, p, lo, hi);
    } else {
      NoRows(source, t, p, lo);
    }
  }

  lemma NoRows(source: map<string, seq<byte>>, t: Table, p: Part, lo: nat)
    requires IsPart(source, t, p) && lo <= t.rows
    ensures Column(Records(source, t, lo, lo), 0, p.at, p.width) == []
    ensures Slice(Shard(source, p.shard), p.off + lo * p.width, 0 * p.width) == []
  {
    assert 0 * p.width == 0;
  }

  /** One plane, collected from the bytes of the rank files in order: header off, then column by column. */
  function Collected(files: seq<seq<byte>>, at: nat, width: nat): seq<byte>
    requires at + width <= PACKED_ROW_BYTES
  {
    if files == [] then []
    else
      var file := files[|files| - 1];
      var body := if |file| < PACKED_HEADER_BYTES then [] else file[PACKED_HEADER_BYTES..];
      Collected(files[..|files| - 1], at, width) + Column(body, |body| / PACKED_ROW_BYTES, at, width)
  }

  ghost predicate FileOf(source: map<string, seq<byte>>, t: Table, layer: nat, lo: nat, hi: nat, file: seq<byte>) {
    lo <= hi <= t.rows && file == PackedFile(source, t, layer, lo, hi)
  }

  /** One file after the other, each with the rows from its cut to the next. */
  ghost predicate CutFiles(source: map<string, seq<byte>>, t: Table, layer: nat, cuts: seq<nat>, files: seq<seq<byte>>) {
    && |cuts| == |files| + 1 && cuts[0] == 0
    && forall r :: 0 <= r < |files| ==> FileOf(source, t, layer, cuts[r], cuts[r + 1], files[r])
  }

  lemma LastFile(files: seq<seq<byte>>, header: seq<byte>, records: seq<byte>, n: nat, at: nat, width: nat)
    requires files != [] && files[|files| - 1] == header + records && |header| == PACKED_HEADER_BYTES
    requires |records| == n * PACKED_ROW_BYTES && at + width <= PACKED_ROW_BYTES
    ensures Collected(files, at, width) == Collected(files[..|files| - 1], at, width) + Column(records, n, at, width)
  {
    assert (header + records)[PACKED_HEADER_BYTES..] == records;
    assert |records| / PACKED_ROW_BYTES == n;
  }

  /** The last file adds its rows of the plane. */
  lemma FileAddsRows(source: map<string, seq<byte>>, t: Table, layer: nat, p: Part, lo: nat, hi: nat, files: seq<seq<byte>>, rows: seq<byte>)
    requires TableAvailable(source, t) && IsPart(source, t, p) && lo <= hi <= t.rows
    requires files != [] && files[|files| - 1] == PackedFile(source, t, layer, lo, hi)
    requires rows == Slice(Shard(source, p.shard), p.off + lo * p.width, (hi - lo) * p.width)
    ensures Collected(files, p.at, p.width) == Collected(files[..|files| - 1], p.at, p.width) + rows
  {
    var records := Records(source, t, lo, hi);
    assert |records| == (hi - lo) * PACKED_ROW_BYTES && Column(records, hi - lo, p.at, p.width) == rows by {
      DeinterleaveRows(source, t, p, lo, hi);
    }
    LastFile(files, PackedHeader(layer, lo, hi, t.rows), records, hi - lo, p.at, p.width);
  }

  lemma RowsJoin(d: seq<byte>, off: nat, lo: nat, hi: nat, width: nat)
    requires lo <= hi && off + hi * width <= |d|
    ensures Slice(d, off, lo * width) + Slice(d, off + lo * width, (hi - lo) * width) == Slice(d, off, hi * width)
  {
    Distribute(lo, hi - lo, width);
  }

  lemma PlaneGrows(source: map<string, seq<byte>>, t: Table, p: Part, lo: nat, hi: nat, before: seq<byte>, rows: seq<byte>)
    requires IsPart(source, t, p) && lo <= hi <= t.rows
    requires before == Slice(Shard(source, p.shard), p.off, lo * p.width)
    requires rows == Slice(Shard(source, p.shard), p.off + lo * p.width, (hi - lo) * p.width)
    ensures before + rows == Slice(Shard(source, p.shard), p.off, hi * p.width)
  {
    MulOrder(hi, t.rows, p.width);
    RowsJoin(Shard(source, p.shard), p.off, lo, hi, p.width);
  }

  /** The rows of a plane that the last of the files holds. */
  function LastRows(source: map<string, seq<byte>>, p: Part, lo: nat, hi: nat): seq<byte>
    requires lo <= hi
  {
    Slice(Shard(source, p.shard), p.off + lo * p.width, (hi - lo) * p.width)
  }

  lemma {:induction false} FilesGiveBackPlane(source: map<string, seq<byte>>, t: Table, layer: nat, p: Part, cuts: seq<nat>, files: seq<seq<byte>>)
    requires TableAvailable(source, t) && IsPart(source, t, p) && CutFiles(source, t, layer, cuts, files)
    ensures Collected(files, p.at, p.width) == Slice(Shard(source, p.shard), p.off, cuts[|files|] * p.width)
    decreases |files|
  {
    var k := |files|;
    if k > 0 {
      assert FileOf(source, t, layer, cuts[k - 1], cuts[k], files[k - 1]);
      LastFileGivesBack(source, t, layer, p, cuts, files, files[..k - 1]) by {
        FilesGiveBackPlane(source, t, layer, p, cuts[..k], files[..k - 1]);
      }
    } else {
      NoRows(source, t, p, 0);
    }
  }

  lemma LastFileGivesBack(source: map<string, seq<byte>>, t: Table, layer: nat, p: Part, cuts: seq<nat>, files: seq<seq<byte>>, first: seq<seq<byte>>)
    requires TableAvailable(source, t) && IsPart(source, t, p) && |cuts| == |files| + 1 && files != [] && first == files[..|files| - 1]
    requires FileOf(source, t, layer, cuts[|first|], cuts[|files|], files[|first|])
    requires Collected(first, p.at, p.width) == Slice(Shard(source, p.shard), p.off, cuts[|first|] * p.width)
    ensures Collected(files, p.at, p.width) == Slice(Shard(source, p.shard), p.off, cuts[|files|] * p.width)
  {
    var lo, hi := cuts[|first|], cuts[|files|];
    FileAddsRows(source, t, layer, p, lo, hi, files, LastRows(source, p, lo, hi));
    PlaneGrows(source, t, p, lo, hi, Collected(first, p.at, p.width), LastRows(source, p, lo, hi));
  }

  /** The files of all ranks, in rank order, as `build_packed` promises them. */
  ghost predicate RankFiles(source: map<string, seq<byte>>, t: Table, layer: nat, tp: nat, files: seq<seq<byte>>)
    requires tp > 0
  {
    && |files| == tp
    && forall r :: 0 <= r < tp ==> FileOf(source, t, layer, RankLo(t.rows, tp, r), RankLo(t.rows, tp, r + 1), files[r])
  }

  lemma RankCuts(source: map<string, seq<byte>>, t: Table, layer: nat, tp: nat, files: seq<seq<byte>>) returns (cuts: seq<nat>)
    requires tp > 0 && RankFiles(source, t, layer, tp, files)
    ensures CutFiles(source, t, layer, cuts, files) && cuts[tp] == t.rows
  {
    RanksPartition(t.rows, tp);
    cuts := seq(tp + 1, r requires 0 <= r <= tp => RankLo(t.rows, tp, r));
  }

  /** De-interleaving the bytes of the files of all ranks, in order, gives back both planes of the whole table. */
  lemma AllRanksGiveBackTable(source: map<string, seq<byte>>, t: Table, layer: nat, tp: nat, files: seq<seq<byte>>)
    requires tp > 0 && TableAvailable(source, t) && RankFiles(source, t, layer, tp, files)
    ensures Collected(files, 0, WEIGHT_BYTES) == Slice(Shard(source, t.weight), t.weightOff, t.rows * WEIGHT_BYTES)
    ensures Collected(files, WEIGHT_BYTES, SCALE_BYTES) == Slice(Shard(source, t.scale), t.scaleOff, t.rows * SCALE_BYTES)
  {
    var cuts := RankCuts(source, t, layer, tp, files);
    FilesGiveBackPlane(source, t, layer, Weights(t), cuts, files);
    FilesGiveBackPlane(source, t, layer, Scales(t), cuts, files);
  }

  /** Row `i` of a block that was read in one piece. */
  lemma BlockRow(source: map<string, seq<byte>>, shard: string, off: nat, row: nat, n: nat, rowBytes: nat, i: nat)
    requires i < n && off + (row + n) * rowBytes <= |Shard(source, shard)|
    ensures off + row * rowBytes + n * rowBytes == off + (row + n) * rowBytes
    ensures 0 <= i * rowBytes <= (i + 1) * rowBytes <= n * rowBytes
    ensures Slice(Shard(source, shard), off + row * rowBytes, n * rowBytes)[i * rowBytes..(i + 1) * rowBytes]
         == RowBytesAt(source, shard, off, row + i, rowBytes)
  {
    Distribute(i, 1, rowBytes);
    MulOrder(i + 1, n, rowBytes);
    Distribute(row, i, rowBytes);
    Distribute(row, n, rowBytes);
    SliceOfSlice(Shard(source, shard), off + row * rowBytes, n * rowBytes, i * rowBytes, rowBytes);
  }

  lemma SliceOfSlice(d: seq<byte>, base: nat, len: nat, p: nat, n: nat)
    requires base + len <= |d| && p + n <= len
    ensures Slice(d, base, len)[p..p + n] == Slice(d, base + p, n)
  {
    SameBytes(Slice(d, base, len)[p..p + n], Slice(d, base + p, n));
  }
}
