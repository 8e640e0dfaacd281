/**
  `check_output`: the loop over a directory's files, against the condition it decides. A file is
  whole when it is at least as long as its header announces, and files are read in name order.
 */
module EngramCheck {
  import opened Results
  import opened Bytes
  import opened EngramPlan
  import opened EngramBuild
  import opened Sorting
  import opened Text

  /** The contents of the directory's `*.safetensors` files, by name. */
  type Files = map<string, seq<byte>>

  // ----- the condition -----

  /** A truncated file does no harm after a whole one. */
  ghost predicate Excused(json: Json, files: Files, layer: int, name: string)
    requires name in files
  {
    Provides(json, files[name], layer) && !BigEnough(json, files[name], layer) ==>
      exists m :: m in files && Whole(json, files[m], layer) && StrLe(m, name) && m != name
  }

  /** Every file readable, some file holds the layer whole, no truncated one before it, no stray partial. */
  ghost predicate Passes(json: Json, files: Files, stray: bool, layer: int) {
    && (forall n :: n in files ==> ReadHeader(json, files[n]).Some?)
    && (exists n :: n in files && Whole(json, files[n], layer))
    && (forall n :: n in files ==> Excused(json, files, layer, n))
    && !stray
  }

  // ----- the loop -----

  ghost predicate Fine(json: Json, files: Files, layer: int, names: seq<string>, x: nat)
    requires x < |names| && forall x :: 0 <= x < |names| ==> names[x] in files
  {
    && ReadHeader(json, files[names[x]]).Some?
    && (Provides(json, files[names[x]], layer) && !BigEnough(json, files[names[x]], layer) ==>
          exists y :: 0 <= y < x && Whole(json, files[names[y]], layer))
  }

  /** The files seen so far: the layer was found in one of them, and no truncated one came before it. */
  ghost predicate Seen(json: Json, files: Files, layer: int, names: seq<string>, k: nat, found: bool, ok: bool)
    requires k <= |names| && forall x :: 0 <= x < |names| ==> names[x] in files
  {
    && (found <==> exists x :: 0 <= x < k && Whole(json, files[names[x]], layer))
    && (ok <==> forall x :: 0 <= x < k ==> Fine(json, files, layer, names, x))
  }

  /** Whether nothing is wrong for one layer among the files seen so far. */
  ghost predicate FineTo(json: Json, files: Files, layer: int, names: seq<string>, k: nat)
    requires k <= |names| && forall x :: 0 <= x < |names| ==> names[x] in files
  {
    forall x :: 0 <= x < k ==> Fine(json, files, layer, names, x)
  }

  ghost predicate ReadableTo(json: Json, files: Files, names: seq<string>, k: nat)
    requires k <= |names| && forall x :: 0 <= x < |names| ==> names[x] in files
  {
    forall x :: 0 <= x < k ==> ReadHeader(json, files[names[x]]).Some?
  }

  /** The files seen so far, for all layers: which are found, and whether anything is wrong. */
  ghost predicate AllSeen(json: Json, files: Files, layers: seq<int>, names: seq<string>, k: nat, found: set<int>, ok: bool)
    requires k <= |names| && forall x :: 0 <= x < |names| ==> names[x] in files
  {
    && (forall l :: l in found ==> l in layers)
    && (ok <==> ReadableTo(json, files, names, k) && forall l :: l in layers ==> FineTo(json, files, l, names, k))
    && (forall l :: l in layers ==> Seen(json, files, l, names, k, l in found, FineTo(json, files, l, names, k)))
  }

  lemma SeenAll(json: Json, files: Files, stray: bool, layer: int, names: seq<string>, found: bool, ok: bool)
    requires forall n :: n in names <==> n in files
    requires forall x :: 0 <= x < |names| ==> names[x] in files
    requires Increasing(names, StrLe)
    requires Seen(json, files, layer, names, |names|, found, ok)
    ensures ok && found && !stray <==> Passes(json, files, stray, layer)
  {
    if ok {
      forall n | n in files
        ensures ReadHeader(json, files[n]).Some? && Excused(json, files, layer, n)
      {
        var x :| 0 <= x < |names| && names[x] == n;
        FineIs(json, files, layer, names, x);
      }
    }
    if Passes(json, files, stray, layer) {
      forall x: nat | x < |names|
        ensures Fine(json, files, layer, names, x)
      {
        assert Excused(json, files, layer, names[x]);
        FineIs(json, files, layer, names, x);
      }
      var n :| n in files && Whole(json, files[n], layer);
      var x :| 0 <= x < |names| && names[x] == n;
    }
  }

  lemma FineIs(json: Json, files: Files, layer: int, names: seq<string>, x: nat)
    requires forall n :: n in names <==> n in files
    requires x < |names| && Increasing(names, StrLe) && forall y :: 0 <= y < |names| ==> names[y] in files
    ensures Fine(json, files, layer, names, x) <==> ReadHeader(json, files[names[x]]).Some? && Excused(json, files, layer, names[x])
  {
    if m :| m in files && Whole(json, files[m], layer) && StrLe(m, names[x]) && m != names[x] {
      var y :| 0 <= y < |names| && names[y] == m;
      if x < y {
        StrLeAntisymmetric(names[x], names[y]);
      }
    }
  }

  lemma SeenOne(json: Json, files: Files, layer: int, names: seq<string>, k: nat, found: bool, ok: bool)
    requires k < |names| && (forall x :: 0 <= x < |names| ==> names[x] in files)
    requires Seen(json, files, layer, names, k, found, ok)
    ensures var file := files[names[k]];
            && Seen(json, files, layer, names, k + 1, found || Whole(json, file, layer), ok && Fine(json, files, layer, names, k))
            && (Fine(json, files, layer, names, k) <==>
                  ReadHeader(json, file).Some? && (found || !Provides(json, file, layer) || BigEnough(json, file, layer)))
  {
  }

  /** What one file does to one layer: found if the file is whole, wrong if it is truncated and the layer not found yet. */
  ghost predicate FileJudged(json: Json, file: seq<byte>, layers: seq<int>, before: set<int>, found: set<int>, ok: bool) {
    && found == before + (set l | l in layers && Whole(json, file, l))
    && (ok <==> forall l :: l in layers ==> l in before || !Provides(json, file, l) || BigEnough(json, file, l))
  }

  /** The inner loop: every layer that is not found yet is looked for in one readable file. */
  method CheckFile(json: Json, file: seq<byte>, layers: seq<int>, before: set<int>) returns (found: set<int>, ok: bool)
    ensures FileJudged(json, file, layers, before, found, ok)
  {
    found, ok := before, true;
    for m := 0 to |layers|
      invariant FileJudged(json, file, layers[..m], before, found, ok)
    {
      var layer := layers[m];
      assert forall l :: l in layers[..m + 1] <==> l in layers[..m] || l == layer;
      if layer !in found && Provides(json, file, layer) {
        if BigEnough(json, file, layer) {
          found := found + {layer};
        } else {
          ok := false;
        }
      }
    }
    assert layers[..|layers|] == layers;
  }

  lemma NextSeen(json: Json, files: Files, layers: seq<int>, names: seq<string>, k: nat, before: set<int>, okBefore: bool, found: set<int>, ok: bool)
    requires k < |names| && (forall x :: 0 <= x < |names| ==> names[x] in files)
    requires AllSeen(json, files, layers, names, k, before, okBefore)
    requires if ReadHeader(json, files[names[k]]).Some? then FileJudged(json, files[names[k]], layers, before, found, ok)
             else found == before && !ok
    ensures AllSeen(json, files, layers, names, k + 1, found, okBefore && ok)
  {
    forall l | l in layers
      ensures Seen(json, files, l, names, k + 1, l in found, FineTo(json, files, l, names, k + 1))
      ensures FineTo(json, files, l, names, k + 1) <==> FineTo(json, files, l, names, k) && Fine(json, files, l, names, k)
    {
      SeenOne(json, files, l, names, k, l in before, FineTo(json, files, l, names, k));
    }
    forall l | l in layers
      ensures Fine(json, files, l, names, k) <==>
        ReadHeader(json, files[names[k]]).Some? &&
        (l in before || !Provides(json, files[names[k]], l) || BigEnough(json, files[names[k]], l))
    {
      SeenOne(json, files, l, names, k, l in before, FineTo(json, files, l, names, k));
    }
  }

  /** The loop over the files, in the given order. */
  method CheckFiles(json: Json, files: Files, layers: seq<int>, names: seq<string>) returns (ok: bool, found: set<int>)
    requires forall x :: 0 <= x < |names| ==> names[x] in files
    ensures AllSeen(json, files, layers, names, |names|, found, ok)
  {
    ok, found := true, {};
    for k := 0 to |names|
      invariant AllSeen(json, files, layers, names, k, found, ok)
    {
      var file := files[names[k]];
      ghost var before, okBefore := found, ok;
      if ReadHeader(json, file).None? {
        ok := false;
        NextSeen(json, files, layers, names, k, before, okBefore, found, false);
      } else {
        var fine;
        found, fine := CheckFile(json, file, layers, found);
        ok := ok && fine;
        NextSeen(json, files, layers, names, k, before, okBefore, found, fine);
      }
    }
  }

  lemma AllPass(json: Json, files: Files, stray: bool, layers: seq<int>, names: seq<string>, found: set<int>, ok: bool)
    requires forall n :: n in names <==> n in files
    requires forall x :: 0 <= x < |names| ==> names[x] in files
    requires Increasing(names, StrLe) && AllSeen(json, files, layers, names, |names|, found, ok)
    ensures ok && (forall l :: l in layers ==> l in found) && !stray <==>
      !stray && (forall n :: n in files ==> ReadHeader(json, files[n]).Some?) && forall l :: l in layers ==> Passes(json, files, stray, l)
  {
    forall l | l in layers
      ensures FineTo(json, files, l, names, |names|) && l in found && !stray <==> Passes(json, files, stray, l)
    {
      SeenAll(json, files, stray, l, names, l in found, FineTo(json, files, l, names, |names|));
    }
    forall n | n in files
      ensures exists x :: 0 <= x < |names| && names[x] == n
    {
    }
  }

  /**
    The check of a list of layers over the files of a directory, whatever they are called, in the order of
    their names: every file is readable, no partial is left, and every layer passes.
   */
  method CheckLayers(json: Json, files: Files, stray: bool, layers: seq<int>) returns (r: bool)
    ensures r <==>
      !stray && (forall n :: n in files ==> ReadHeader(json, files[n]).Some?) && forall l :: l in layers ==> Passes(json, files, stray, l)
  {
    StrLeOrder();
    var names := SortedSet(files.Keys, StrLe);
    var ok, found := CheckFiles(json, files, layers, names);
    AllPass(json, files, stray, layers, names, found, ok);
    r := ok && (forall l :: l in layers ==> l in found) && !stray;
  }

  // ----- a directory of the build's own files -----

  lemma NamesDiffer(l: int, m: int)
    requires FileName(l) == FileName(m)
    ensures l == m
  {
    Middles(l, Middle(l));
    Middles(m, Middle(m));
    MiddlesDiffer(l, m);
  }

  lemma MiddlesDiffer(l: int, m: int)
    requires Middle(l) == Middle(m)
    ensures l == m
  {
    var a, b := if l < 0 then -l else l, if m < 0 then -m else m;
    ReadDecimal(a);
    ReadDecimal(b);
    assert Middle(l)[0] == '-' <==> l < 0;
    assert Middle(m)[0] == '-' <==> m < 0;
    assert l < 0 ==> Middle(l)[1..] == Decimal(a);
    assert m < 0 ==> Middle(m)[1..] == Decimal(b);
  }

  function Middle(l: int): string { if l < 0 then "-" + Decimal(-l) else Decimal(l) }

  lemma Middles(l: int, s: string)
    requires s == Middle(l)
    ensures |FileName(l)| == |s| + 20 && FileName(l)[8..8 + |s|] == s
  {
    assert FileName(l) == "engram-l" + (s + ".safetensors");
  }

  /** The build's own files under their names. */
  ghost predicate Named(d: Disk, files: Files) {
    && (forall l :: l in d.finals ==> FileName(l) in files && files[FileName(l)] == d.finals[l])
    && (forall n :: n in files ==> exists l :: l in d.finals && FileName(l) == n)
  }

  /** Different layers have different file names, so every directory has such a listing. */
  lemma ListingExists(d: Disk) returns (files: Files)
    ensures Named(d, files)
  {
    forall l, m | l in d.finals && m in d.finals && FileName(l) == FileName(m)
      ensures l == m
    {
      NamesDiffer(l, m);
    }
    files := map l | l in d.finals :: FileName(l) := d.finals[l];
  }

  /** What the step system asks of a directory is what the loop answers over its files. */
  lemma CheckIsLoop(json: Json, d: Disk, files: Files, layer: int)
    requires Named(d, files)
    ensures Passes(json, files, d.partials != map[], layer) <==> CheckOutput(json, d, layer)
  {
    forall l | l in d.finals
      ensures Excused(json, files, layer, FileName(l)) <==> TruncatedAfterWhole(json, d, layer, l)
    {
      ExcusedIs(json, d, files, layer, l);
    }
    forall n | n in files
      ensures exists l :: l in d.finals && FileName(l) == n && files[n] == d.finals[l]
    {
    }
  }

  lemma ExcusedIs(json: Json, d: Disk, files: Files, layer: int, l: int)
    requires Named(d, files) && l in d.finals
    ensures Excused(json, files, layer, FileName(l)) <==> TruncatedAfterWhole(json, d, layer, l)
  {
    if n :| n in files && Whole(json, files[n], layer) && StrLe(n, FileName(l)) && n != FileName(l) {
      var m :| m in d.finals && FileName(m) == n;
      assert Before(m, l);
    }
  }
}
