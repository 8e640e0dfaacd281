/** Planning the safetensors build: where every byte of each output file comes from. */
module EngramPlan {
  import opened Results
  import opened Bytes

  // The two planes of every layer are located, each output file is laid out (header, weight
  // plane, scale plane), and the planes are cut into segments.

  const WEIGHT_BYTES: nat := 256
  const SCALE_BYTES: nat := 8

  /** Keys of a safetensors header: the two embedding tensors of a layer. */
  datatype TensorName = Weight(layer: int) | Scale(layer: int)

  /** Where a tensor lives in the source checkpoint. */
  datatype Tensor = Tensor(shard: string, offset: nat, dtype: string, shape: seq<nat>)

  /** One entry of a safetensors header; `lo` and `hi` are its `data_offsets`. */
  datatype Entry = Entry(dtype: string, shape: seq<nat>, lo: nat, hi: nat)

  type Doc = map<TensorName, Entry>

  /** The JSON library, seen as a pair of functions. */
  datatype Json = Json(encode: Doc -> seq<byte>, decode: seq<byte> -> Option<Doc>)

  function Spaces(n: nat): (s: seq<byte>)
    ensures |s| == n
  {
    seq(n, _ => 32)
  }

  /** What the builder needs of JSON: never empty, and trailing blanks do not matter. */
  ghost predicate JsonContract(json: Json) {
    && (forall d: Doc :: |json.encode(d)| > 0)
    && (forall d: Doc, pad: nat :: json.decode(json.encode(d) + Spaces(pad)) == Some(d))
  }

  // ----- output header -----

  datatype Plane = Plane(name: TensorName, dtype: string, shape: seq<nat>, len: nat)

  function PlaneBytes(planes: seq<Plane>): nat {
    if planes == [] then 0
    else PlaneBytes(planes[..|planes| - 1]) + planes[|planes| - 1].len
  }

  function HeaderDoc(planes: seq<Plane>): Doc {
    if planes == [] then map[]
    else
      var before := planes[..|planes| - 1];
      var p := planes[|planes| - 1];
      HeaderDoc(before)[p.name := Entry(p.dtype, p.shape, PlaneBytes(before), PlaneBytes(before) + p.len)]
  }

  function HeaderBody(json: Json, doc: Doc): seq<byte> {
    var text := json.encode(doc);
    text + Spaces((8 - |text| % 8) % 8)
  }

  function HeaderBytes(json: Json, doc: Doc): (h: seq<byte>) {
    PackLE(|HeaderBody(json, doc)|, 8) + HeaderBody(json, doc)
  }

  /** `build_safetensors_header`; a body whose length does not fit 8 bytes is a `struct.error`. */
  method BuildSafetensorsHeader(json: Json, planes: seq<Plane>) returns (r: Option<seq<byte>>)
    ensures r == if |HeaderBody(json, HeaderDoc(planes))| < Pow256(8)
                 then Some(HeaderBytes(json, HeaderDoc(planes))) else None
  {
    var d: Doc := map[];
    var off := 0;
    var k := 0;
    while k < |planes|
      invariant 0 <= k <= |planes|
      invariant off == PlaneBytes(planes[..k]) && d == HeaderDoc(planes[..k])
    {
      assert planes[..k + 1][..k] == planes[..k];
      d := d[planes[k].name := Entry(planes[k].dtype, planes[k].shape, off, off + planes[k].len)];
      off := off + planes[k].len;
      k := k + 1;
    }
    assert planes[..k] == planes;
    var body := json.encode(d);
    body := body + Spaces((8 - |body| % 8) % 8);
    r := if |body| < Pow256(8) then Some(PackLE(|body|, 8) + body) else None;
  }

  /**
    The header a reader sees: its length field is the body length, is never zero, keeps the
    data 8-byte aligned, and the body decodes to the document that was written.
   */
  lemma HeaderReadsBack(json: Json, doc: Doc)
    requires JsonContract(json) && |HeaderBody(json, doc)| < Pow256(8)
    ensures var h := HeaderBytes(json, doc);
      && |h| > 8 && |h| % 8 == 0
      && UnpackLE(h[..8]) == |h| - 8
      && json.decode(h[8..]) == Some(doc)
  {
    var text := json.encode(doc);
    var pad := (8 - |text| % 8) % 8;
    PadsToEight(|text|, pad);
    assert HeaderBody(json, doc) == text + Spaces(pad);
    assert |text| > 0 && json.decode(text + Spaces(pad)) == Some(doc);
    HeaderAnnounces(text + Spaces(pad), HeaderBytes(json, doc));
  }

  lemma PadsToEight(n: nat, pad: nat)
    requires pad == (8 - n % 8) % 8
    ensures (8 + (n + pad)) % 8 == 0
  {
  }

  lemma HeaderAnnounces(body: seq<byte>, h: seq<byte>)
    requires |body| < Pow256(8) && h == PackLE(|body|, 8) + body
    ensures |h| == 8 + |body| && UnpackLE(h[..8]) == |body| && h[8..] == body
  {
    UnpackPack(|body|, 8);
    assert h[..8] == PackLE(|body|, 8);
  }

  // ----- tasks -----

  /** A plane of an output file: `len` source bytes from `srcOff`, going to `dstOff`. */
  datatype Region = Region(shard: string, srcOff: nat, dstOff: nat, len: nat)

  datatype Task = Task(layer: int, header: seq<byte>, total: nat, regions: seq<Region>)

  datatype PlanError =
    | NoTensor(layer: int)
    | BadShape(layer: int)
    | RowCountDiffers(layer: int)
    | RowSizes(layer: int)
    | HeaderTooLong(layer: int)

  function RowBytes(dims: seq<nat>): nat {
    if dims == [] then 1 else dims[0] * RowBytes(dims[1..])
  }

  function Planes(layer: int, w: Tensor, s: Tensor, rows: nat): seq<Plane> {
    [ Plane(Weight(layer), w.dtype, [rows, WEIGHT_BYTES], rows * WEIGHT_BYTES),
      Plane(Scale(layer), s.dtype, [rows, SCALE_BYTES], rows * SCALE_BYTES) ]
  }

  function RowsWanted(shape: seq<nat>, limitRows: Option<nat>): nat
    requires shape != []
  {
    match limitRows
    case None => shape[0]
    case Some(n) => if n < shape[0] then n else shape[0]
  }

  /** The task of one layer, or the error that stops the build. */
  function MakeTask(json: Json, tensors: map<TensorName, Tensor>, layer: int, limitRows: Option<nat>)
    : Result<Task, PlanError>
  {
    if Weight(layer) !in tensors || Scale(layer) !in tensors then Err(NoTensor(layer))
    else
      var w, s := tensors[Weight(layer)], tensors[Scale(layer)];
      if w.shape == [] || s.shape == [] then Err(BadShape(layer))
      else if w.shape[0] != s.shape[0] then Err(RowCountDiffers(layer))
      else if RowBytes(w.shape[1..]) != WEIGHT_BYTES || RowBytes(s.shape[1..]) != SCALE_BYTES then
        Err(RowSizes(layer))
      else
        var rows := RowsWanted(w.shape, limitRows);
        var doc := HeaderDoc(Planes(layer, w, s, rows));
        if |HeaderBody(json, doc)| >= Pow256(8) then Err(HeaderTooLong(layer))
        else
          var header := HeaderBytes(json, doc);
          var wlen, slen := rows * WEIGHT_BYTES, rows * SCALE_BYTES;
          Ok(Task(layer, header, |header| + wlen + slen,
                  [ Region(w.shard, w.offset, |header|, wlen),
                    Region(s.shard, s.offset, |header| + wlen, slen) ]))
  }

  function MakeTasks(json: Json, tensors: map<TensorName, Tensor>, layers: seq<int>, limitRows: Option<nat>)
    : Result<seq<Task>, PlanError>
  {
    if layers == [] then Ok([])
    else
      var before := MakeTasks(json, tensors, layers[..|layers| - 1], limitRows);
      if before.Err? then before
      else
        var t := MakeTask(json, tensors, layers[|layers| - 1], limitRows);
        if t.Err? then Err(t.error) else Ok(before.value + [t.value])
  }

  lemma {:induction false} FirstLayerError(json: Json, tensors: map<TensorName, Tensor>, layers: seq<int>, limitRows: Option<nat>, k: nat)
    requires k <= |layers| && MakeTasks(json, tensors, layers[..k], limitRows).Err?
    ensures MakeTasks(json, tensors, layers, limitRows) == MakeTasks(json, tensors, layers[..k], limitRows)
    decreases |layers|
  {
    if k < |layers| {
      assert layers[..|layers| - 1][..k] == layers[..k];
      FirstLayerError(json, tensors, layers[..|layers| - 1], limitRows, k);
    } else {
      assert layers[..k] == layers;
    }
  }

  /** The planning loop over the layers: one task each, or the first layer's error. */
  method PlanTasks(json: Json, tensors: map<TensorName, Tensor>, layers: seq<int>, limitRows: Option<nat>)
    returns (r: Result<seq<Task>, PlanError>)
    ensures r == MakeTasks(json, tensors, layers, limitRows)
  {
    var tasks: seq<Task> := [];
    for k := 0 to |layers|
      invariant MakeTasks(json, tensors, layers[..k], limitRows) == Ok(tasks)
    {
      assert layers[..k + 1][..k] == layers[..k];
      var t := MakeTask(json, tensors, layers[k], limitRows);
      if t.Err? {
        FirstLayerError(json, tensors, layers, limitRows, k + 1);
        return Err(t.error);
      }
      tasks := tasks + [t.value];
    }
    assert layers[..|layers|] == layers;
    return Ok(tasks);
  }

  ghost predicate RegionChain(regions: seq<Region>, lo: nat, hi: nat) {
    if regions == [] then lo == hi
    else regions[0].dstOff == lo && RegionChain(regions[1..], lo + regions[0].len, hi)
  }

  /** A file layout: a header that announces its own length, then abutting planes. */
  ghost predicate WfTask(t: Task) {
    && |t.header| > 8
    && UnpackLE(t.header[..8]) == |t.header| - 8
    && RegionChain(t.regions, |t.header|, t.total)
  }

  /** A decoded header provides layer `layer`: both tensors, the wanted row sizes, one row count. */
  predicate EntryOk(doc: Doc, layer: int) {
    && Weight(layer) in doc && Scale(layer) in doc
    && var w, s := doc[Weight(layer)].shape, doc[Scale(layer)].shape;
    && w != [] && s != []
    && RowBytes(w[1..]) == WEIGHT_BYTES && RowBytes(s[1..]) == SCALE_BYTES
    && w[0] == s[0]
  }

  /** The size a file needs before it counts as holding the layer. */
  function NeededSize(headerLen: nat, doc: Doc, layer: int): int
    requires Weight(layer) in doc && Scale(layer) in doc
  {
    headerLen + doc[Weight(layer)].hi + (doc[Scale(layer)].hi - doc[Scale(layer)].lo)
  }

  /** The task's header describes the task's own layer, and no other. */
  ghost predicate Announces(json: Json, t: Task) {
    && |t.header| > 8
    && var doc := json.decode(t.header[8..]);
    && doc.Some? && EntryOk(doc.value, t.layer)
    && NeededSize(|t.header|, doc.value, t.layer) <= t.total
    && forall l :: Weight(l) in doc.value ==> l == t.layer
  }

  lemma TaskAnnounces(json: Json, tensors: map<TensorName, Tensor>, layer: int, limitRows: Option<nat>)
    requires JsonContract(json)
    ensures var r := MakeTask(json, tensors, layer, limitRows);
      r.Ok? ==> Announces(json, r.value)
  {
    var r := MakeTask(json, tensors, layer, limitRows);
    if r.Ok? {
      var w, s := tensors[Weight(layer)], tensors[Scale(layer)];
      var rows := RowsWanted(w.shape, limitRows);
      HeaderReadsBack(json, HeaderDoc(Planes(layer, w, s, rows)));
      TwoPlanes(layer, w, s, rows);
    }
  }

  lemma TaskWf(json: Json, tensors: map<TensorName, Tensor>, layer: int, limitRows: Option<nat>)
    requires JsonContract(json)
    ensures var r := MakeTask(json, tensors, layer, limitRows);
      r.Ok? ==> WfTask(r.value) && r.value.layer == layer
  {
    var r := MakeTask(json, tensors, layer, limitRows);
    if r.Ok? {
      var w, s := tensors[Weight(layer)], tensors[Scale(layer)];
      HeaderReadsBack(json, HeaderDoc(Planes(layer, w, s, RowsWanted(w.shape, limitRows))));
      var t := r.value;
      assert RegionChain(t.regions[1..][1..], t.total, t.total);
      assert RegionChain(t.regions[1..], t.regions[1].dstOff, t.total);
    }
  }

  // ----- source bytes and the wanted file -----

  function Shard(source: map<string, seq<byte>>, name: string): seq<byte> {
    if name in source then source[name] else []
  }

  function PlaneData(source: map<string, seq<byte>>, regions: seq<Region>): (d: seq<byte>) {
    if regions == [] then []
    else Slice(Shard(source, regions[0].shard), regions[0].srcOff, regions[0].len)
         + PlaneData(source, regions[1..])
  }

  /** The file the build promises: header ++ weight plane ++ scale plane. */
  function Expected(source: map<string, seq<byte>>, t: Task): seq<byte> {
    t.header + PlaneData(source, t.regions)
  }

  ghost predicate InShard(source: map<string, seq<byte>>, shard: string, off: nat, n: nat) {
    n == 0 || off + n <= |Shard(source, shard)|
  }

  /** The checkpoint really holds the planes its headers declare. */
  ghost predicate Available(source: map<string, seq<byte>>, regions: seq<Region>) {
    forall r :: r in regions ==> InShard(source, r.shard, r.srcOff, r.len)
  }

  /** `n` bytes of `b` at `dst` are the source bytes at `off`. */
  ghost predicate RangeIs(b: seq<byte>, dst: nat, source: map<string, seq<byte>>, shard: string, off: nat, n: nat) {
    && InShard(source, shard, off, n)
    && dst + n <= |b|
    && forall x :: dst <= x < dst + n ==> b[x] == Shard(source, shard)[off + (x - dst)]
  }

  lemma RangeIsSlice(b: seq<byte>, dst: nat, source: map<string, seq<byte>>, shard: string, off: nat, n: nat)
    requires dst + n <= |b|
    ensures RangeIs(b, dst, source, shard, off, n) <==>
      InShard(source, shard, off, n) && b[dst..dst + n] == Slice(Shard(source, shard), off, n)
  {
    var part, data := b[dst..dst + n], Slice(Shard(source, shard), off, n);
    if InShard(source, shard, off, n) && part == data {
      forall x | dst <= x < dst + n
        ensures b[x] == Shard(source, shard)[off + (x - dst)]
      {
        assert part[x - dst] == data[x - dst];
      }
    }
  }

  // ----- segments -----

  datatype Segment = Segment(layer: int, shard: string, srcOff: nat, dstOff: nat, len: nat)

  function Min(a: nat, b: nat): nat { if a <= b then a else b }

  /** What is left of a region once its first `n` bytes are planned. */
  function Advance(r: Region, n: nat): Region
    requires n <= r.len
  {
    Region(r.shard, r.srcOff + n, r.dstOff + n, r.len - n)
  }

  function RegionSegments(layer: int, r: Region, segment: nat): seq<Segment>
    requires segment > 0
    decreases r.len
  {
    if r.len == 0 then []
    else
      var n := Min(segment, r.len);
      [Segment(layer, r.shard, r.srcOff, r.dstOff, n)] + RegionSegments(layer, Advance(r, n), segment)
  }

  function FileSegments(layer: int, regions: seq<Region>, segment: nat): seq<Segment>
    requires segment > 0
  {
    if regions == [] then []
    else RegionSegments(layer, regions[0], segment) + FileSegments(layer, regions[1..], segment)
  }

  /** The global segment list, file after file, plane after plane. */
  function Plan(tasks: seq<Task>, segment: nat): seq<Segment>
    requires segment > 0
  {
    if tasks == [] then []
    else FileSegments(tasks[0].layer, tasks[0].regions, segment) + Plan(tasks[1..], segment)
  }

  /** The planning loops: every task, every plane, every piece, appended to one list. */
  method PlanSegments(tasks: seq<Task>, segment: nat) returns (segments: seq<Segment>)
    requires segment > 0
    ensures segments == Plan(tasks, segment)
  {
    segments := [];
    var k := 0;
    while k < |tasks|
      invariant 0 <= k <= |tasks|
      invariant segments + Plan(tasks[k..], segment) == Plan(tasks, segment)
    {
      var file := PlanFile(tasks[k].layer, tasks[k].regions, segment);
      assert tasks[k..][1..] == tasks[k + 1..];
      Regroup(segments, file, Plan(tasks[k + 1..], segment));
      segments := segments + file;
      k := k + 1;
    }
  }

  method PlanFile(layer: int, regions: seq<Region>, segment: nat) returns (segments: seq<Segment>)
    requires segment > 0
    ensures segments == FileSegments(layer, regions, segment)
  {
    segments := [];
    var j := 0;
    while j < |regions|
      invariant 0 <= j <= |regions|
      invariant segments + FileSegments(layer, regions[j..], segment) == FileSegments(layer, regions, segment)
    {
      var r, start := regions[j], 0;
      ghost var before := segments;
      while start < r.len
        invariant 0 <= start <= r.len
        invariant segments + RegionSegments(layer, Advance(r, start), segment)
                  == before + RegionSegments(layer, r, segment)
      {
        var n := Min(segment, r.len - start);
        segments := segments + [Segment(layer, r.shard, r.srcOff + start, r.dstOff + start, n)];
        start := start + n;
      }
      assert regions[j..][1..] == regions[j + 1..];
      assert segments == before + RegionSegments(layer, r, segment);
      Regroup(before, RegionSegments(layer, r, segment), FileSegments(layer, regions[j + 1..], segment));
      j := j + 1;
    }
  }

  lemma Regroup(a: seq<Segment>, b: seq<Segment>, c: seq<Segment>)
    ensures (a + b) + c == a + (b + c)
  {
  }

  /** Segments that cover `[lo, hi)` of one file exactly, in order, in pieces of at most `segment`. */
  ghost predicate Tiles(segs: seq<Segment>, layer: int, segment: nat, lo: nat, hi: nat) {
    if segs == [] then lo == hi
    else
      && segs[0].layer == layer
      && segs[0].dstOff == lo
      && 0 < segs[0].len <= segment
      && Tiles(segs[1..], layer, segment, lo + segs[0].len, hi)
  }

  lemma {:induction false} TilesConcat(a: seq<Segment>, b: seq<Segment>, layer: int, segment: nat, lo: nat, mid: nat, hi: nat)
    requires Tiles(a, layer, segment, lo, mid) && Tiles(b, layer, segment, mid, hi)
    ensures Tiles(a + b, layer, segment, lo, hi)
  {
    if a == [] {
      assert a + b == b;
    } else {
      TilesConcat(a[1..], b, layer, segment, lo + a[0].len, mid, hi);
      assert (a + b)[1..] == a[1..] + b;
    }
  }

  lemma {:induction false} RegionTiles(layer: int, r: Region, segment: nat)
    requires segment > 0
    ensures Tiles(RegionSegments(layer, r, segment), layer, segment, r.dstOff, r.dstOff + r.len)
    decreases r.len
  {
    if r.len > 0 {
      var rest := Advance(r, Min(segment, r.len));
      RegionTiles(layer, rest, segment);
      assert RegionSegments(layer, r, segment)[1..] == RegionSegments(layer, rest, segment);
    }
  }

  /** The segments of one file tile everything after its header. */
  lemma {:induction false} FileTiles(layer: int, regions: seq<Region>, segment: nat, lo: nat, hi: nat)
    requires segment > 0 && RegionChain(regions, lo, hi)
    ensures Tiles(FileSegments(layer, regions, segment), layer, segment, lo, hi)
  {
    if regions != [] {
      var mid := lo + regions[0].len;
      RegionTiles(layer, regions[0], segment);
      FileTiles(layer, regions[1..], segment, mid, hi);
      TilesConcat(RegionSegments(layer, regions[0], segment), FileSegments(layer, regions[1..], segment),
                  layer, segment, lo, mid, hi);
    }
  }

  lemma {:induction false} TilesBounds(segs: seq<Segment>, layer: int, segment: nat, lo: nat, hi: nat, i: nat)
    requires Tiles(segs, layer, segment, lo, hi) && i < |segs|
    ensures segs[i].layer == layer && 0 < segs[i].len <= segment
    ensures lo <= segs[i].dstOff && segs[i].dstOff + segs[i].len <= hi
  {
    TilesRise(segs[1..], layer, segment, lo + segs[0].len, hi);
    if i > 0 {
      TilesBounds(segs[1..], layer, segment, lo + segs[0].len, hi, i - 1);
    }
  }

  lemma {:induction false} TilesRise(segs: seq<Segment>, layer: int, segment: nat, lo: nat, hi: nat)
    requires Tiles(segs, layer, segment, lo, hi)
    ensures lo <= hi
  {
    if segs != [] {
      TilesRise(segs[1..], layer, segment, lo + segs[0].len, hi);
    }
  }

  lemma {:induction false} TilesApart(segs: seq<Segment>, layer: int, segment: nat, lo: nat, hi: nat, i: nat, j: nat)
    requires Tiles(segs, layer, segment, lo, hi) && i < j < |segs|
    ensures segs[i].dstOff + segs[i].len <= segs[j].dstOff
  {
    if i == 0 {
      TilesBounds(segs[1..], layer, segment, lo + segs[0].len, hi, j - 1);
    } else {
      TilesApart(segs[1..], layer, segment, lo + segs[0].len, hi, i - 1, j - 1);
    }
  }

  lemma {:induction false} TilesCover(segs: seq<Segment>, layer: int, segment: nat, lo: nat, hi: nat, x: nat)
    requires Tiles(segs, layer, segment, lo, hi) && lo <= x < hi
    ensures exists i :: 0 <= i < |segs| && segs[i].dstOff <= x < segs[i].dstOff + segs[i].len
  {
    if x < lo + segs[0].len {
      assert segs[0].dstOff <= x;
    } else {
      TilesCover(segs[1..], layer, segment, lo + segs[0].len, hi, x);
      var i :| 0 <= i < |segs[1..]| && segs[1..][i].dstOff <= x < segs[1..][i].dstOff + segs[1..][i].len;
      assert segs[1..][i] == segs[i + 1];
    }
  }

  ghost predicate LayerTask(json: Json, layer: int, t: Task) {
    t.layer == layer && WfTask(t) && Announces(json, t)
  }

  lemma {:induction false} TasksOfLayers(json: Json, tensors: map<TensorName, Tensor>, layers: seq<int>, limitRows: Option<nat>)
    requires JsonContract(json) && MakeTasks(json, tensors, layers, limitRows).Ok?
    ensures var tasks := MakeTasks(json, tensors, layers, limitRows).value;
      |tasks| == |layers| && forall k :: 0 <= k < |layers| ==> LayerTask(json, layers[k], tasks[k])
  {
    if layers != [] {
      TasksOfLayers(json, tensors, layers[..|layers| - 1], limitRows);
      var t := LastTask(json, tensors, layers, limitRows);
      OneMoreTask(json, layers, MakeTasks(json, tensors, layers[..|layers| - 1], limitRows).value, t);
    }
  }

  lemma OneMoreTask(json: Json, layers: seq<int>, before: seq<Task>, t: Task)
    requires layers != [] && |before| == |layers| - 1 && LayerTask(json, layers[|layers| - 1], t)
    requires forall k :: 0 <= k < |layers| - 1 ==> LayerTask(json, layers[..|layers| - 1][k], before[k])
    ensures forall k :: 0 <= k < |layers| ==> LayerTask(json, layers[k], (before + [t])[k])
  {
    forall k | 0 <= k < |layers| - 1
      ensures LayerTask(json, layers[k], before[k])
    {
      assert layers[..|layers| - 1][k] == layers[k];
    }
  }

  lemma LastTask(json: Json, tensors: map<TensorName, Tensor>, layers: seq<int>, limitRows: Option<nat>) returns (t: Task)
    requires JsonContract(json) && layers != [] && MakeTasks(json, tensors, layers, limitRows).Ok?
    ensures var before := MakeTasks(json, tensors, layers[..|layers| - 1], limitRows);
      before.Ok? && MakeTasks(json, tensors, layers, limitRows).value == before.value + [t]
    ensures LayerTask(json, layers[|layers| - 1], t)
  {
    t := MakeTask(json, tensors, layers[|layers| - 1], limitRows).value;
    TaskWf(json, tensors, layers[|layers| - 1], limitRows);
    TaskAnnounces(json, tensors, layers[|layers| - 1], limitRows);
  }

  /** For distinct layers the planned tasks are well formed: what the build's theorems ask for. */
  lemma PlannedTasksWf(json: Json, tensors: map<TensorName, Tensor>, layers: seq<int>, limitRows: Option<nat>)
    requires JsonContract(json) && MakeTasks(json, tensors, layers, limitRows).Ok?
    requires forall i, j :: 0 <= i < j < |layers| ==> layers[i] != layers[j]
    ensures var tasks := MakeTasks(json, tensors, layers, limitRows).value;
      WfTasks(tasks) && forall t :: t in tasks ==> Announces(json, t)
  {
    TasksOfLayers(json, tensors, layers, limitRows);
    var tasks := MakeTasks(json, tensors, layers, limitRows).value;
    assert forall k :: 0 <= k < |layers| ==> LayerTask(json, layers[k], tasks[k]);
  }

  // ----- the whole plan -----

  ghost predicate DistinctLayers(tasks: seq<Task>) {
    forall i, j :: 0 <= i < j < |tasks| ==> tasks[i].layer != tasks[j].layer
  }

  ghost predicate WfTasks(tasks: seq<Task>) {
    && DistinctLayers(tasks)
    && forall t :: t in tasks ==> WfTask(t)
  }

  /** Every segment is a positive piece of its own file, past the header and inside the file. */
  lemma {:induction false} PlanBounds(tasks: seq<Task>, segment: nat, i: nat) returns (t: Task)
    requires segment > 0 && WfTasks(tasks) && i < |Plan(tasks, segment)|
    ensures t in tasks && Plan(tasks, segment)[i] in FileSegments(t.layer, t.regions, segment)
    ensures var s := Plan(tasks, segment)[i];
      && s.layer == t.layer && 0 < s.len <= segment
      && |t.header| <= s.dstOff && s.dstOff + s.len <= t.total
  {
    t := tasks[0];
    assert t in tasks;
    var segs := FileSegments(t.layer, t.regions, segment);
    if i < |segs| {
      FileTiles(t.layer, t.regions, segment, |t.header|, t.total);
      TilesBounds(segs, t.layer, segment, |t.header|, t.total, i);
    } else {
      t := PlanBounds(tasks[1..], segment, i - |segs|);
    }
  }

  /** Two segments of one file never share a byte. */
  lemma {:induction false} PlanApart(tasks: seq<Task>, segment: nat, i: nat, j: nat)
    requires segment > 0 && WfTasks(tasks) && i < j < |Plan(tasks, segment)|
    requires Plan(tasks, segment)[i].layer == Plan(tasks, segment)[j].layer
    ensures Plan(tasks, segment)[i].dstOff + Plan(tasks, segment)[i].len <= Plan(tasks, segment)[j].dstOff
  {
    var t, segs := tasks[0], FileSegments(tasks[0].layer, tasks[0].regions, segment);
    assert t in tasks;
    FileTiles(t.layer, t.regions, segment, |t.header|, t.total);
    if j < |segs| {
      TilesApart(segs, t.layer, segment, |t.header|, t.total, i, j);
    } else if i < |segs| {
      TilesBounds(segs, t.layer, segment, |t.header|, t.total, i);
      var u := PlanBounds(tasks[1..], segment, j - |segs|);
      assert false;
    } else {
      PlanApart(tasks[1..], segment, i - |segs|, j - |segs|);
    }
  }

  lemma {:induction false} PlanHasFile(tasks: seq<Task>, segment: nat, t: Task, s: Segment)
    requires segment > 0 && t in tasks && s in FileSegments(t.layer, t.regions, segment)
    ensures s in Plan(tasks, segment)
  {
    if t != tasks[0] {
      PlanHasFile(tasks[1..], segment, t, s);
    }
  }

  /** Every byte after the header lies in exactly one segment of the plan. */
  lemma PlanTiles(tasks: seq<Task>, segment: nat, t: Task, x: nat) returns (i: nat)
    requires segment > 0 && WfTasks(tasks) && t in tasks && |t.header| <= x < t.total
    ensures i < |Plan(tasks, segment)|
    ensures var s := Plan(tasks, segment)[i]; s.layer == t.layer && s.dstOff <= x < s.dstOff + s.len
    ensures forall j :: 0 <= j < |Plan(tasks, segment)| && j != i ==>
              var s := Plan(tasks, segment)[j]; !(s.layer == t.layer && s.dstOff <= x < s.dstOff + s.len)
  {
    var segs, plan := FileSegments(t.layer, t.regions, segment), Plan(tasks, segment);
    FileTiles(t.layer, t.regions, segment, |t.header|, t.total);
    TilesCover(segs, t.layer, segment, |t.header|, t.total, x);
    var k :| 0 <= k < |segs| && segs[k].dstOff <= x < segs[k].dstOff + segs[k].len;
    TilesBounds(segs, t.layer, segment, |t.header|, t.total, k);
    PlanHasFile(tasks, segment, t, segs[k]);
    i :| 0 <= i < |plan| && plan[i] == segs[k];
    forall j | 0 <= j < |plan| && j != i
      ensures !(plan[j].layer == t.layer && plan[j].dstOff <= x < plan[j].dstOff + plan[j].len)
    {
      if plan[j].layer == t.layer {
        if i < j { PlanApart(tasks, segment, i, j); } else { PlanApart(tasks, segment, j, i); }
      }
    }
  }

  // ----- segments and planes -----

  ghost predicate SegmentIs(b: seq<byte>, source: map<string, seq<byte>>, s: Segment) {
    RangeIs(b, s.dstOff, source, s.shard, s.srcOff, s.len)
  }

  ghost predicate AllSegments(b: seq<byte>, source: map<string, seq<byte>>, segs: seq<Segment>) {
    forall s :: s in segs ==> SegmentIs(b, source, s)
  }

  lemma {:induction false} RegionFilled(b: seq<byte>, source: map<string, seq<byte>>, layer: int, r: Region, segment: nat)
    requires segment > 0 && r.dstOff + r.len <= |b|
    ensures AllSegments(b, source, RegionSegments(layer, r, segment))
       <==> RangeIs(b, r.dstOff, source, r.shard, r.srcOff, r.len)
    decreases r.len
  {
    if r.len > 0 {
      var n := Min(segment, r.len);
      RegionFilled(b, source, layer, Advance(r, n), segment);
      FirstThenRest(b, source, Segment(layer, r.shard, r.srcOff, r.dstOff, n),
                    RegionSegments(layer, Advance(r, n), segment));
    }
  }

  lemma FirstThenRest(b: seq<byte>, source: map<string, seq<byte>>, first: Segment, rest: seq<Segment>)
    ensures AllSegments(b, source, [first] + rest) <==> SegmentIs(b, source, first) && AllSegments(b, source, rest)
  {
    assert first in [first];
  }

  lemma SplitAt(b: seq<byte>, off: nat, n: nat, len: nat)
    requires n <= len && off + len <= |b|
    ensures b[off..off + len] == b[off..off + n] + b[off + n..off + n + (len - n)]
    ensures b[off..off + len][..n] == b[off..off + n]
    ensures b[off..off + len][n..] == b[off + n..off + n + (len - n)]
  {
  }

  /** A file body is its planes exactly when each segment of it has arrived. */
  lemma {:induction false} BodyFilled(b: seq<byte>, source: map<string, seq<byte>>, layer: int, regions: seq<Region>, segment: nat, lo: nat, hi: nat)
    requires segment > 0 && RegionChain(regions, lo, hi) && hi <= |b| && lo <= hi
    ensures AllSegments(b, source, FileSegments(layer, regions, segment))
       <==> Available(source, regions) && b[lo..hi] == PlaneData(source, regions)
  {
    if regions != [] {
      var r, rest := regions[0], regions[1..];
      var mid := lo + r.len;
      FileTiles(layer, rest, segment, mid, hi);
      TilesRise(FileSegments(layer, rest, segment), layer, segment, mid, hi);
      RegionFilled(b, source, layer, r, segment);
      BodyFilled(b, source, layer, rest, segment, mid, hi);
      BodySplit(b, source, regions, lo, mid, hi);
    }
  }

  lemma BodySplit(b: seq<byte>, source: map<string, seq<byte>>, regions: seq<Region>, lo: nat, mid: nat, hi: nat)
    requires regions != [] && regions[0].dstOff == lo && mid == lo + regions[0].len && mid <= hi <= |b|
    ensures Available(source, regions) && b[lo..hi] == PlaneData(source, regions) <==>
      && RangeIs(b, lo, source, regions[0].shard, regions[0].srcOff, regions[0].len)
      && Available(source, regions[1..]) && b[mid..hi] == PlaneData(source, regions[1..])
  {
    var r, rest := regions[0], regions[1..];
    var first := Slice(Shard(source, r.shard), r.srcOff, r.len);
    assert forall q :: q in regions <==> q == r || q in rest;
    SplitAt(b, lo, r.len, hi - lo);
    RangeIsSlice(b, lo, source, r.shard, r.srcOff, r.len);
    if InShard(source, r.shard, r.srcOff, r.len) {
      var tail := PlaneData(source, rest);
      assert |first| == r.len;
      assert (first + tail)[..r.len] == first && (first + tail)[r.len..] == tail;
    }
  }

  /**
    A file is what the build promises exactly when it has the right size and header and every
    one of its segments holds its source range.
   */
  lemma FileComplete(b: seq<byte>, source: map<string, seq<byte>>, t: Task, segment: nat)
    requires segment > 0 && WfTask(t) && |b| == t.total
    ensures |t.header| <= t.total
    ensures Available(source, t.regions) && b == Expected(source, t) <==>
      b[..|t.header|] == t.header && AllSegments(b, source, FileSegments(t.layer, t.regions, segment))
  {
    FileTiles(t.layer, t.regions, segment, |t.header|, t.total);
    TilesRise(FileSegments(t.layer, t.regions, segment), t.layer, segment, |t.header|, t.total);
    BodyFilled(b, source, t.layer, t.regions, segment, |t.header|, t.total);
    assert b == b[..|t.header|] + b[|t.header|..t.total];
    if b == Expected(source, t) {
      assert b[..|t.header|] == t.header;
      assert b[|t.header|..t.total] == PlaneData(source, t.regions);
    }
  }

  // ----- the reader's rule -----

  /** The header a reader finds at the front of the promised file: its length, and both entries. */
  lemma ReaderFindsHeader(json: Json, tensors: map<TensorName, Tensor>, source: map<string, seq<byte>>, layer: int, limitRows: Option<nat>)
    requires JsonContract(json)
    requires MakeTask(json, tensors, layer, limitRows).Ok?
    ensures var t := MakeTask(json, tensors, layer, limitRows).value;
      var file, rows := Expected(source, t), RowsWanted(tensors[Weight(layer)].shape, limitRows);
      && |file| >= |t.header| && |t.header| % 8 == 0
      && 8 + UnpackLE(file[..8]) == |t.header|
      && json.decode(file[8..|t.header|]) == Some(HeaderDoc(Planes(layer, tensors[Weight(layer)], tensors[Scale(layer)], rows)))
  {
    var t := MakeTask(json, tensors, layer, limitRows).value;
    var w, s := tensors[Weight(layer)], tensors[Scale(layer)];
    HeaderInFile(json, HeaderDoc(Planes(layer, w, s, RowsWanted(w.shape, limitRows))), Expected(source, t));
  }

  /** The address of row `row`, from the offsets the header announces. */
  function RowAddress(headerLen: nat, entry: Entry, rowBytes: nat, row: nat): nat {
    headerLen + entry.lo + row * rowBytes
  }

  /** The promised file holds row `row` of `tensor` at the address that `entry` announces. */
  ghost predicate RowFound(source: map<string, seq<byte>>, t: Task, entry: Entry, tensor: Tensor, rowBytes: nat, row: nat) {
    RangeIs(Expected(source, t), RowAddress(|t.header|, entry, rowBytes, row),
            source, tensor.shard, tensor.offset + row * rowBytes, rowBytes)
  }

  /**
    In the promised file the reader's address `8 + header_len + data_offsets[0] + r * row_bytes`
    holds source row `r`, in both planes.
   */
  lemma ReaderFindsRow(json: Json, tensors: map<TensorName, Tensor>, source: map<string, seq<byte>>,
                       layer: int, limitRows: Option<nat>, name: TensorName, row: nat)
    requires MakeTask(json, tensors, layer, limitRows).Ok?
    requires Available(source, MakeTask(json, tensors, layer, limitRows).value.regions)
    requires name == Weight(layer) || name == Scale(layer)
    requires row < RowsWanted(tensors[Weight(layer)].shape, limitRows)
    ensures var t := MakeTask(json, tensors, layer, limitRows).value;
      var doc := HeaderDoc(Planes(layer, tensors[Weight(layer)], tensors[Scale(layer)], RowsWanted(tensors[Weight(layer)].shape, limitRows)));
      var rowBytes := if name.Weight? then WEIGHT_BYTES else SCALE_BYTES;
      name in doc && RowFound(source, t, doc[name], tensors[name], rowBytes, row)
  {
    var t := MakeTask(json, tensors, layer, limitRows).value;
    var w, s := tensors[Weight(layer)], tensors[Scale(layer)];
    var rows := RowsWanted(w.shape, limitRows);
    assert t.regions == [ Region(w.shard, w.offset, |t.header|, rows * WEIGHT_BYTES),
                          Region(s.shard, s.offset, |t.header| + rows * WEIGHT_BYTES, rows * SCALE_BYTES) ] by {
      TaskRegions(json, tensors, layer, limitRows);
    }
    assert tensors[name] == if name.Weight? then w else s;
    PlaneRow(source, t, layer, w, s, rows, name, row);
  }

  lemma PlaneRow(source: map<string, seq<byte>>, t: Task, layer: int, w: Tensor, s: Tensor, rows: nat, name: TensorName, row: nat)
    requires t.regions == [ Region(w.shard, w.offset, |t.header|, rows * WEIGHT_BYTES),
                            Region(s.shard, s.offset, |t.header| + rows * WEIGHT_BYTES, rows * SCALE_BYTES) ]
    requires Available(source, t.regions) && row < rows && (name == Weight(layer) || name == Scale(layer))
    ensures var doc := HeaderDoc(Planes(layer, w, s, rows));
      var tensor, rowBytes := if name.Weight? then w else s, if name.Weight? then WEIGHT_BYTES else SCALE_BYTES;
      name in doc && RowFound(source, t, doc[name], tensor, rowBytes, row)
  {
    TwoPlanes(layer, w, s, rows);
    var doc := HeaderDoc(Planes(layer, w, s, rows));
    FindsRow(source, t, w, s, rows, row, doc[Weight(layer)], doc[Scale(layer)]);
  }

  lemma FindsRow(source: map<string, seq<byte>>, t: Task, w: Tensor, s: Tensor, rows: nat, row: nat, we: Entry, se: Entry)
    requires t.regions == [ Region(w.shard, w.offset, |t.header|, rows * WEIGHT_BYTES),
                            Region(s.shard, s.offset, |t.header| + rows * WEIGHT_BYTES, rows * SCALE_BYTES) ]
    requires Available(source, t.regions) && row < rows
    requires we.lo == 0 && se.lo == rows * WEIGHT_BYTES
    ensures RowFound(source, t, we, w, WEIGHT_BYTES, row) && RowFound(source, t, se, s, SCALE_BYTES, row)
  {
    RowInPlane(source, t, 0, rows, WEIGHT_BYTES, row, we, w);
    RowInPlane(source, t, 1, rows, SCALE_BYTES, row, se, s);
  }

  lemma TaskRegions(json: Json, tensors: map<TensorName, Tensor>, layer: int, limitRows: Option<nat>)
    requires MakeTask(json, tensors, layer, limitRows).Ok?
    ensures var t := MakeTask(json, tensors, layer, limitRows).value;
      var w, s, rows := tensors[Weight(layer)], tensors[Scale(layer)], RowsWanted(tensors[Weight(layer)].shape, limitRows);
      t.regions == [ Region(w.shard, w.offset, |t.header|, rows * WEIGHT_BYTES),
                     Region(s.shard, s.offset, |t.header| + rows * WEIGHT_BYTES, rows * SCALE_BYTES) ]
  {
  }

  lemma RowInPlane(source: map<string, seq<byte>>, t: Task, k: nat, rows: nat, rowBytes: nat, row: nat, entry: Entry, tensor: Tensor)
    requires |t.regions| == 2 && Available(source, t.regions)
    requires t.regions[0].dstOff == |t.header| && t.regions[1].dstOff == |t.header| + t.regions[0].len
    requires k < 2 && t.regions[k].len == rows * rowBytes && row < rows && rowBytes > 0
    requires var r := t.regions[k]; |t.header| + entry.lo == r.dstOff && tensor.shard == r.shard && tensor.offset == r.srcOff
    ensures RowFound(source, t, entry, tensor, rowBytes, row)
  {
    var r := t.regions[k];
    assert r in t.regions;
    PlanesInFile(source, t);
    RowOf(Expected(source, t), r.dstOff, source, r.shard, r.srcOff, rows, rowBytes, row);
  }

  lemma HeaderInFile(json: Json, doc: Doc, file: seq<byte>)
    requires JsonContract(json) && |HeaderBody(json, doc)| < Pow256(8)
    requires HeaderBytes(json, doc) <= file
    ensures var hlen := UnpackLE(file[..8]);
      && 8 + hlen == |HeaderBytes(json, doc)| && (8 + hlen) % 8 == 0
      && json.decode(file[8..8 + hlen]) == Some(doc)
  {
    var h := HeaderBytes(json, doc);
    HeaderReadsBack(json, doc);
    assert file[..8] == h[..8] && file[8..|h|] == h[8..];
  }

  lemma PlanesInFile(source: map<string, seq<byte>>, t: Task)
    requires |t.regions| == 2 && Available(source, t.regions)
    requires t.regions[0].dstOff == |t.header| && t.regions[1].dstOff == |t.header| + t.regions[0].len
    ensures t.header <= Expected(source, t)
    ensures forall r :: r in t.regions ==> RangeIs(Expected(source, t), r.dstOff, source, r.shard, r.srcOff, r.len)
  {
    var a, c := t.regions[0], t.regions[1];
    assert a in t.regions && c in t.regions;
    var x := Slice(Shard(source, a.shard), a.srcOff, a.len);
    var y := Slice(Shard(source, c.shard), c.srcOff, c.len);
    assert t.regions[1..] == [c] && t.regions[1..][1..] == [];
    assert PlaneData(source, t.regions[1..]) == y;
    assert Expected(source, t) == t.header + (x + y);
  }

  lemma TwoPlanes(layer: int, w: Tensor, s: Tensor, rows: nat)
    ensures var doc := HeaderDoc(Planes(layer, w, s, rows));
      && Weight(layer) in doc && Scale(layer) in doc
      && doc[Weight(layer)] == Entry(w.dtype, [rows, WEIGHT_BYTES], 0, rows * WEIGHT_BYTES)
      && doc[Scale(layer)] == Entry(s.dtype, [rows, SCALE_BYTES], rows * WEIGHT_BYTES, rows * WEIGHT_BYTES + rows * SCALE_BYTES)
      && doc.Keys == {Weight(layer), Scale(layer)}
  {
    var planes := Planes(layer, w, s, rows);
    assert planes[..1][..0] == [];
    assert PlaneBytes(planes[..1]) == rows * WEIGHT_BYTES;
    assert HeaderDoc(planes[..1]) == map[Weight(layer) := Entry(w.dtype, [rows, WEIGHT_BYTES], 0, rows * WEIGHT_BYTES)];
  }

  lemma RowOf(b: seq<byte>, dst: nat, source: map<string, seq<byte>>, shard: string, off: nat, rows: nat, rowBytes: nat, row: nat)
    requires rowBytes > 0 && row < rows
    requires RangeIs(b, dst, source, shard, off, rows * rowBytes)
    ensures RangeIs(b, dst + row * rowBytes, source, shard, off + row * rowBytes, rowBytes)
  {
    assert row * rowBytes + rowBytes == (row + 1) * rowBytes <= rows * rowBytes;
  }
}
