/** Streaming one source range into an output file, in bounded ticks and with short reads. */
module EngramCopy {
  import opened Bytes
  import opened EngramPlan
  import opened EngramBuild

  /** A bounded reader over an open response: `body` is what the response has not handed out yet. */
  class Range {
    var body: seq<byte>
    var left: int

    constructor (body: seq<byte>, remaining: int)
      ensures this.body == body && left == remaining
    {
      this.body, left := body, remaining;
    }

    /**
      One read. The response may hand out fewer bytes than asked, but some unless it is at its end;
      the reader never lets more than `left` bytes through.
     */
    method Read(n: int) returns (data: seq<byte>)
      modifies this
      ensures data <= old(body) && body == old(body)[|data|..]
      ensures left == old(left) - |data|
      ensures old(left) <= 0 ==> data == []
      ensures old(left) > 0 ==> |data| <= old(left) && (n >= 0 ==> |data| <= n)
      ensures data == [] ==> old(left) <= 0 || n == 0 || old(body) == []
    {
      if left <= 0 {
        return [];
      }
      var want := if n < 0 || n > left then left else n;
      var most := if want <= |body| then want else |body|;
      var got :| 0 <= got <= most && (got == 0 ==> most == 0);
      data := body[..got];
      body := body[got..];
      left := left - |data|;
    }
  }

  /** An output file open for positioned writes. */
  class File {
    var bytes: seq<byte>

    constructor (bytes: seq<byte>)
      ensures this.bytes == bytes
    {
      this.bytes := bytes;
    }

    method PwriteAt(data: seq<byte>, off: nat)
      modifies this
      ensures bytes == Pwrite(old(bytes), off, data)
    {
      bytes := Pwrite(bytes, off, data);
    }
  }

  /** The part of `[off, off + n)` that the shard really holds: what a ranged response contains. */
  function Served(shard: seq<byte>, off: nat, n: nat): (s: seq<byte>)
    ensures |s| <= n
  {
    if off >= |shard| then [] else if off + n <= |shard| then shard[off..off + n] else shard[off..]
  }

  /** Two writes in a row are one longer write. */
  lemma PwriteAppend(b: seq<byte>, off: nat, x: seq<byte>, y: seq<byte>)
    ensures Pwrite(Pwrite(b, off, x), off + |x|, y) == Pwrite(b, off, x + y)
  {
    AppendedBytes(b, off, x, y, Pwrite(b, off, x), Pwrite(b, off, x + y));
  }

  lemma AppendedBytes(b: seq<byte>, off: nat, x: seq<byte>, y: seq<byte>, mid: seq<byte>, once: seq<byte>)
    requires mid == Pwrite(b, off, x) && once == Pwrite(b, off, x + y)
    ensures Pwrite(mid, off + |x|, y) == once
  {
    var twice := Pwrite(mid, off + |x|, y);
    assert x == [] ==> x + y == y;
    assert |once| == |twice|;
    forall k | 0 <= k < |once|
      ensures once[k] == twice[k]
    {
      AppendedByte(b, off, x, y, mid, k);
    }
    SameBytes(once, twice);
  }

  lemma AppendedByte(b: seq<byte>, off: nat, x: seq<byte>, y: seq<byte>, mid: seq<byte>, k: nat)
    requires mid == Pwrite(b, off, x) && k < |Pwrite(b, off, x + y)|
    ensures |Pwrite(mid, off + |x|, y)| == |Pwrite(b, off, x + y)|
    ensures Pwrite(b, off, x + y)[k] == Pwrite(mid, off + |x|, y)[k]
  {
    if off <= k < off + |x| {
      assert (x + y)[k - off] == x[k - off];
    } else if off + |x| <= k < off + |x| + |y| {
      assert (x + y)[k - off] == y[k - off - |x|];
    }
  }

  lemma PwriteThen(b: seq<byte>, off: nat, x: seq<byte>, next: nat, y: seq<byte>, xy: seq<byte>)
    requires next == off + |x| && xy == x + y
    ensures Pwrite(Pwrite(b, off, x), next, y) == Pwrite(b, off, xy)
  {
    PwriteAppend(b, off, x, y);
  }

  /** What the destination holds after the first `pos` wanted bytes. */
  ghost predicate CopiedTo(dst: seq<byte>, before: seq<byte>, off: nat, wanted: seq<byte>, pos: nat) {
    pos <= |wanted| && dst == Pwrite(before, off, wanted[..pos])
  }

  lemma TickCopied(dst: seq<byte>, before: seq<byte>, off: nat, wanted: seq<byte>, pos: nat, piece: seq<byte>, after: seq<byte>)
    requires CopiedTo(dst, before, off, wanted, pos) && pos + |piece| <= |wanted| && piece == wanted[pos..pos + |piece|]
    requires after == Pwrite(dst, off + pos, piece)
    ensures CopiedTo(after, before, off, wanted, pos + |piece|)
  {
  }

  lemma FrontOfRest(wanted: seq<byte>, pos: nat, piece: seq<byte>, rest: seq<byte>)
    requires pos <= |wanted| && piece <= wanted[pos..] && rest == wanted[pos..][|piece|..]
    ensures pos + |piece| <= |wanted| && piece == wanted[pos..pos + |piece|] && rest == wanted[pos + |piece|..]
  {
  }

  /** The read of one tick: the next piece of the wanted bytes, empty only at their end. */
  method ReadPiece(r: Range, pos: nat, n: nat, ghost wanted: seq<byte>) returns (piece: seq<byte>)
    requires n > 0 && r.left > 0 && pos <= |wanted| && r.body == wanted[pos..]
    modifies r
    ensures |piece| <= n && |piece| <= old(r.left) && r.left == old(r.left) - |piece|
    ensures pos + |piece| <= |wanted| && piece == wanted[pos..pos + |piece|] && r.body == wanted[pos + |piece|..]
    ensures piece == [] ==> pos == |wanted|
  {
    piece := r.Read(n);
    FrontOfRest(wanted, pos, piece, r.body);
  }

  /** One tick: read a piece, write it where it belongs. */
  method CopyTick(r: Range, dst: File, dstOff: nat, pos: nat, n: nat, ghost before: seq<byte>, ghost wanted: seq<byte>)
    returns (got: nat)
    requires n > 0 && r.left > 0 && pos <= |wanted| && r.body == wanted[pos..]
    requires CopiedTo(dst.bytes, before, dstOff, wanted, pos)
    modifies r, dst
    ensures got <= n && got <= old(r.left) && (got == 0 ==> pos == |wanted|)
    ensures pos + got <= |wanted| && r.left == old(r.left) - got && r.body == wanted[pos + got..]
    ensures CopiedTo(dst.bytes, before, dstOff, wanted, pos + got)
  {
    var piece := ReadPiece(r, pos, n, wanted);
    got := |piece|;
    if got > 0 {
      ghost var was := dst.bytes;
      dst.PwriteAt(piece, dstOff + pos);
      TickCopied(was, before, dstOff, wanted, pos, piece, dst.bytes);
    }
  }

  /**
    `copy_range`: on success the destination holds the source range and nothing else changed; a
    short source is an error, after the bytes it did serve have been written in place.
   */
  method CopyRange(source: map<string, seq<byte>>, shard: string, srcOff: nat, dst: File, dstOff: nat, length: nat)
    returns (ok: bool)
    modifies dst
    ensures ok <==> InShard(source, shard, srcOff, length)
    ensures dst.bytes == Pwrite(old(dst.bytes), dstOff, Served(Shard(source, shard), srcOff, length))
  {
    var wanted := Served(Shard(source, shard), srcOff, length);
    ghost var before := dst.bytes;
    if length <= 0 {
      assert wanted == [];
      return true;
    }
    var r := new Range(wanted, length);
    var pos := 0;
    assert wanted[..0] == [] && wanted[0..] == wanted;
    while pos < length
      invariant 0 <= pos <= |wanted|
      invariant r.body == wanted[pos..] && r.left == length - pos
      invariant CopiedTo(dst.bytes, before, dstOff, wanted, pos)
      decreases length - pos
    {
      var got := CopyTick(r, dst, dstOff, pos, Min(TICK, length - pos), before, wanted);
      if got == 0 {
        assert wanted[..pos] == wanted;
        return false;
      }
      pos := pos + got;
    }
    assert wanted[..pos] == wanted;
    return true;
  }

  /** A successful copy of a plan's segment leaves exactly the range the progress file may then claim. */
  lemma CopiedSegment(source: map<string, seq<byte>>, g: Segment, before: seq<byte>)
    requires InShard(source, g.shard, g.srcOff, g.len) && g.dstOff + g.len <= |before|
    ensures var after := Pwrite(before, g.dstOff, Served(Shard(source, g.shard), g.srcOff, g.len));
      && SegmentIs(after, source, g)
      && |after| == |before|
      && forall x :: 0 <= x < |before| && !(g.dstOff <= x < g.dstOff + g.len) ==> after[x] == before[x]
  {
  }
}
