/**
 * The auto-labeling pass of src/auto_label.py: for every image of a class
 * directory, the detector's boxes whose class name maps onto a project class
 * become normalized label lines in `<stem>.txt` next to the image.
 * The detector is an input: per image, the list of `(class name, box)` records
 * it returns with the confidence threshold already applied, or `None` when the
 * model call raised.
 */
module AutoLabel {
  import opened Wrappers
  import PyStr
  import opened Layout
  import opened BoxMath
  import opened ClassMatch

  /** One detection: the detector's class name and its corner box in pixels. */
  datatype Detection = Detection(className: string, box: PixelBox)

  /** Image size as read by `cv2.imread`. */
  datatype Dims = Dims(width: nat, height: nat)

  /**
   * A directory entry. `detections` is `None` when the model call raises;
   * `dims` is `None` when `cv2.imread` cannot read the file.
   */
  datatype RawFile = RawFile(name: string, detections: Option<seq<Detection>>, dims: Option<Dims>)

  /**
   * The project class a detection name maps to: the first class with a name
   * part inside the lower-cased detection name. `FallbacksNeverMap` proves this
   * equals `FindClosestClass`, fallbacks included.
   */
  function MappedClass(classes: seq<string>, name: string): int
  {
    FirstMatch(classes, PyStr.Lower(name), 0)
  }

  /** What the labeling of one image produces: nothing, or a label file with these lines. */
  datatype Outcome = Skipped | Labelled(lines: seq<LabelLine>)

  /**
   * The label lines kept from `dets`, in detector order: one per detection
   * whose class maps to a project class. `None` when a mapped detection meets
   * a zero image dimension (the division by zero the source raises).
   */
  function KeptLines(classes: seq<string>, dets: seq<Detection>, dims: Dims): Option<seq<LabelLine>>
    decreases |dets|
  {
    if dets == [] then Some([])
    else
      match KeptLines(classes, dets[..|dets| - 1], dims)
      case None => None
      case Some(lines) =>
        var d := dets[|dets| - 1];
        var id := MappedClass(classes, d.className);
        if id < 0 then Some(lines)
        else if dims.width == 0 || dims.height == 0 then None
        else Some(lines + [LabelLine(id, NormalizeBbox(d.box, dims.width as real, dims.height as real))])
  }

  /** The effect of the `try` block of `auto_label_directory` on one image file. */
  function ImageOutcome(classes: seq<string>, f: RawFile): Outcome
  {
    if f.detections.None? || f.dims.None? then Skipped
    else
      match KeptLines(classes, f.detections.value, f.dims.value)
      case None => Skipped
      case Some(lines) => Labelled(lines)
  }

  /** `img_file.with_suffix(".txt")` inside directory `dir`. */
  function LabelPath(dir: seq<string>, name: string): Path
  {
    Path(dir, PyStr.Stem(name) + ".txt")
  }

  /** The label write one directory entry causes. */
  function EntryWrites(classes: seq<string>, dir: seq<string>, f: RawFile): seq<Write>
  {
    if !IsImageFile(f.name) then []
    else
      match ImageOutcome(classes, f)
      case Skipped => []
      case Labelled(lines) => [Write(LabelPath(dir, f.name), LabelFile(lines))]
  }

  /** The label writes of a directory listing, in listing order. */
  function DirWrites(classes: seq<string>, dir: seq<string>, listing: seq<RawFile>): seq<Write>
    decreases |listing|
  {
    if listing == [] then []
    else DirWrites(classes, dir, listing[..|listing| - 1]) + EntryWrites(classes, dir, listing[|listing| - 1])
  }

  /** The number of image-suffixed entries (`total_count`). */
  function CountImages(listing: seq<RawFile>): nat
    decreases |listing|
  {
    if listing == [] then 0
    else CountImages(listing[..|listing| - 1]) + (if IsImageFile(listing[|listing| - 1].name) then 1 else 0)
  }

  /** The number of image entries that got a non-empty label file (`labeled_count`). */
  function CountLabelled(classes: seq<string>, listing: seq<RawFile>): nat
    decreases |listing|
  {
    if listing == [] then 0
    else
      var f := listing[|listing| - 1];
      CountLabelled(classes, listing[..|listing| - 1])
        + (if IsImageFile(f.name) && ImageOutcome(classes, f).Labelled? && ImageOutcome(classes, f).lines != [] then 1 else 0)
  }

  /** Once a prefix of the detections raised, the whole list does. */
  lemma {:induction false} KeptLinesFailurePersists(classes: seq<string>, dets: seq<Detection>, k: nat, dims: Dims)
    requires k <= |dets| && KeptLines(classes, dets[..k], dims) == None
    ensures KeptLines(classes, dets, dims) == None
    decreases |dets| - k
  {
    if k < |dets| {
      assert dets[..k + 1][..k] == dets[..k];
      KeptLinesFailurePersists(classes, dets, k + 1, dims);
    } else {
      assert dets[..k] == dets;
    }
  }

  /** The body of the `try` block for one image: inference, reading, the detection loop. */
  method LabelImage(classes: seq<string>, f: RawFile) returns (outcome: Outcome)
    ensures outcome == ImageOutcome(classes, f)
  {
    if f.detections.None? {
      return Skipped;
    }
    if f.dims.None? {
      return Skipped;
    }
    var dets, dims := f.detections.value, f.dims.value;
    var lines: seq<LabelLine> := [];
    var i := 0;
    while i < |dets|
      invariant 0 <= i <= |dets|
      invariant KeptLines(classes, dets[..i], dims) == Some(lines)
    {
      assert dets[..i + 1][..i] == dets[..i];
      var id := FindClosestClass(classes, dets[i].className);
      FallbacksNeverMap(classes, dets[i].className);
      if id >= 0 {
        if dims.width == 0 || dims.height == 0 {
          KeptLinesFailurePersists(classes, dets, i + 1, dims);
          return Skipped;
        }
        lines := lines + [LabelLine(id, NormalizeBbox(dets[i].box, dims.width as real, dims.height as real))];
      }
      i := i + 1;
    }
    assert dets[..i] == dets;
    return Labelled(lines);
  }

  /** Extending a listing prefix by one entry extends the counters and the writes by that entry's share. */
  lemma DirStep(classes: seq<string>, dir: seq<string>, listing: seq<RawFile>, i: nat)
    requires i < |listing|
    ensures var f, pre, post := listing[i], listing[..i], listing[..i + 1];
      && CountImages(post) == CountImages(pre) + (if IsImageFile(f.name) then 1 else 0)
      && CountLabelled(classes, post) == CountLabelled(classes, pre)
           + (if IsImageFile(f.name) && ImageOutcome(classes, f).Labelled? && ImageOutcome(classes, f).lines != [] then 1 else 0)
      && DirWrites(classes, dir, post) == DirWrites(classes, dir, pre) + EntryWrites(classes, dir, f)
  {
    assert listing[..i + 1][..i] == listing[..i];
  }

  /**
   * `auto_label_directory`: walks the (sorted) listing, counts every image
   * file in `total`, writes one label file per image whose labeling did not
   * fail, and counts in `labelled` the images whose label file is non-empty.
   */
  method AutoLabelDirectory(classes: seq<string>, dir: seq<string>, listing: seq<RawFile>, fs0: FileSystem)
    returns (total: nat, labelled: nat, fs: FileSystem)
    ensures total == CountImages(listing)
    ensures labelled == CountLabelled(classes, listing)
    ensures labelled <= total
    ensures fs == ApplyWrites(fs0, DirWrites(classes, dir, listing))
  {
    total, labelled, fs := 0, 0, fs0;
    var i := 0;
    while i < |listing|
      invariant 0 <= i <= |listing|
      invariant total == CountImages(listing[..i])
      invariant labelled == CountLabelled(classes, listing[..i])
      invariant labelled <= total
      invariant fs == ApplyWrites(fs0, DirWrites(classes, dir, listing[..i]))
    {
      var f := listing[i];
      DirStep(classes, dir, listing, i);
      ApplyAppend(fs0, DirWrites(classes, dir, listing[..i]), EntryWrites(classes, dir, f));
      var isImage, nonEmpty;
      isImage, nonEmpty, fs := LabelEntry(classes, dir, f, fs);
      if isImage {
        total := total + 1;
      }
      if nonEmpty {
        labelled := labelled + 1;
      }
      i := i + 1;
    }
    assert listing[..i] == listing;
  }

  /**
   * One entry of the listing: a file without an image suffix is skipped;
   * an image is counted, and when its labeling did not fail its label file
   * is written, and counted as labelled when non-empty.
   */
  method LabelEntry(classes: seq<string>, dir: seq<string>, f: RawFile, fs0: FileSystem)
    returns (isImage: bool, nonEmpty: bool, fs: FileSystem)
    ensures isImage == IsImageFile(f.name)
    ensures nonEmpty == (isImage && ImageOutcome(classes, f).Labelled? && ImageOutcome(classes, f).lines != [])
    ensures fs == ApplyWrites(fs0, EntryWrites(classes, dir, f))
  {
    isImage, nonEmpty, fs := false, false, fs0;
    if !IsImageFile(f.name) {
      return;
    }
    isImage := true;
    var outcome := LabelImage(classes, f);
    if outcome.Labelled? {
      var w := Write(LabelPath(dir, f.name), LabelFile(outcome.lines));
      fs := ApplyWrites(fs0, [w]);
      nonEmpty := outcome.lines != [];
    }
  }

  /** The (total, labelled) pair `auto_label_all` records for class `c`. */
  function ClassCounts(classes: seq<string>, tree: map<string, seq<RawFile>>, c: string): (nat, nat)
  {
    if c in tree then (CountImages(tree[c]), CountLabelled(classes, tree[c])) else (0, 0)
  }

  /** The label writes of `auto_label_all` over the class list `cs`, in order; a missing directory writes nothing. */
  function AllWrites(classes: seq<string>, rawDir: seq<string>, tree: map<string, seq<RawFile>>, cs: seq<string>): seq<Write>
    decreases |cs|
  {
    if cs == [] then []
    else
      var c := cs[|cs| - 1];
      AllWrites(classes, rawDir, tree, cs[..|cs| - 1])
        + (if c in tree then DirWrites(classes, rawDir + [c], tree[c]) else [])
  }

  /**
   * `auto_label_all`: every class gets an entry, `(0, 0)` when its directory
   * `<raw_dir>/<class>` is missing. `tree` maps each existing class directory
   * to its sorted listing.
   */
  method AutoLabelAll(classes: seq<string>, rawDir: seq<string>, tree: map<string, seq<RawFile>>, fs0: FileSystem)
    returns (results: map<string, (nat, nat)>, fs: FileSystem)
    ensures forall c :: c in results <==> c in classes
    ensures forall c :: c in classes ==> results[c] == ClassCounts(classes, tree, c)
    ensures forall c :: c in results ==> results[c].1 <= results[c].0
    ensures fs == ApplyWrites(fs0, AllWrites(classes, rawDir, tree, classes))
  {
    results, fs := map[], fs0;
    var i := 0;
    while i < |classes|
      invariant 0 <= i <= |classes|
      invariant forall c :: c in results <==> c in classes[..i]
      invariant forall c :: c in results ==> results[c] == ClassCounts(classes, tree, c)
      invariant forall c :: c in results ==> results[c].1 <= results[c].0
      invariant fs == ApplyWrites(fs0, AllWrites(classes, rawDir, tree, classes[..i]))
    {
      var c := classes[i];
      var counts;
      AllWritesStep(classes, rawDir, tree, fs0, i);
      counts, fs := LabelClass(classes, rawDir, tree, c, fs);
      results := results[c := counts];
      assert forall x :: x in classes[..i + 1] <==> x in classes[..i] || x == c;
      i := i + 1;
    }
    assert classes[..i] == classes;
  }

  /** The writes of `auto_label_all` over one more class are those of the earlier classes, then that class's. */
  lemma AllWritesStep(classes: seq<string>, rawDir: seq<string>, tree: map<string, seq<RawFile>>, fs0: FileSystem, i: nat)
    requires i < |classes|
    ensures var c := classes[i];
      ApplyWrites(fs0, AllWrites(classes, rawDir, tree, classes[..i + 1]))
      == ApplyWrites(ApplyWrites(fs0, AllWrites(classes, rawDir, tree, classes[..i])), if c in tree then DirWrites(classes, rawDir + [c], tree[c]) else [])
  {
    var c := classes[i];
    assert classes[..i + 1][..i] == classes[..i];
    ApplyAppend(fs0, AllWrites(classes, rawDir, tree, classes[..i]), if c in tree then DirWrites(classes, rawDir + [c], tree[c]) else []);
  }

  /**
   * One class of `auto_label_all`: the directory's counts and label writes
   * when `<raw_dir>/<class>` exists, else `(0, 0)` and nothing written.
   */
  method LabelClass(classes: seq<string>, rawDir: seq<string>, tree: map<string, seq<RawFile>>, c: string, fs0: FileSystem)
    returns (counts: (nat, nat), fs: FileSystem)
    ensures counts == ClassCounts(classes, tree, c)
    ensures counts.1 <= counts.0
    ensures fs == ApplyWrites(fs0, if c in tree then DirWrites(classes, rawDir + [c], tree[c]) else [])
  {
    if c in tree {
      var total, labelled;
      total, labelled, fs := AutoLabelDirectory(classes, rawDir + [c], tree[c], fs0);
      counts := (total, labelled);
    } else {
      counts, fs := (0, 0), fs0;
    }
  }

  /** No more images are labelled than counted. */
  lemma {:induction false} LabelledAtMostImages(classes: seq<string>, listing: seq<RawFile>)
    ensures CountLabelled(classes, listing) <= CountImages(listing)
    decreases |listing|
  {
    if listing != [] {
      LabelledAtMostImages(classes, listing[..|listing| - 1]);
    }
  }

  /** The kept lines are empty exactly when no detection's class maps onto a project class. */
  lemma {:induction false} KeptLinesEmptyIff(classes: seq<string>, dets: seq<Detection>, dims: Dims, lines: seq<LabelLine>)
    requires KeptLines(classes, dets, dims) == Some(lines)
    ensures lines == [] <==> forall k :: 0 <= k < |dets| ==> MappedClass(classes, dets[k].className) < 0
    decreases |dets|
  {
    if dets != [] {
      var init, d := dets[..|dets| - 1], dets[|dets| - 1];
      var prev := KeptLines(classes, init, dims).value;
      KeptLinesEmptyIff(classes, init, dims, prev);
      var id := MappedClass(classes, d.className);
      if id < 0 {
        assert lines == prev;
        forall k | 0 <= k < |dets|
          ensures MappedClass(classes, dets[k].className) < 0 <==> (k < |init| ==> MappedClass(classes, init[k].className) < 0)
        {
          if k < |init| {
            assert init[k] == dets[k];
          }
        }
      } else {
        assert lines == prev + [LabelLine(id, NormalizeBbox(d.box, dims.width as real, dims.height as real))];
        assert MappedClass(classes, dets[|dets| - 1].className) >= 0;
      }
    }
  }

  /** Labeling raises exactly when the image has a zero dimension and some detection maps. */
  lemma {:induction false} KeptLinesFailsIff(classes: seq<string>, dets: seq<Detection>, dims: Dims)
    ensures KeptLines(classes, dets, dims) == None
        <==> (dims.width == 0 || dims.height == 0)
             && exists k :: 0 <= k < |dets| && MappedClass(classes, dets[k].className) >= 0
    decreases |dets|
  {
    if dets != [] {
      var init, d := dets[..|dets| - 1], dets[|dets| - 1];
      KeptLinesFailsIff(classes, init, dims);
      var id := MappedClass(classes, d.className);
      var someMapped := exists k :: 0 <= k < |dets| && MappedClass(classes, dets[k].className) >= 0;
      var initMapped := exists k :: 0 <= k < |init| && MappedClass(classes, init[k].className) >= 0;
      assert someMapped <==> initMapped || id >= 0 by {
        if initMapped {
          var k :| 0 <= k < |init| && MappedClass(classes, init[k].className) >= 0;
          assert init[k] == dets[k];
        }
        if someMapped {
          var k :| 0 <= k < |dets| && MappedClass(classes, dets[k].className) >= 0;
          if k < |init| {
            assert init[k] == dets[k];
          }
        }
      }
    }
  }

  /**
   * Every kept line carries a valid project class index, and when every mapped
   * box lies inside the image all four normalized values lie in [0, 1].
   */
  lemma {:induction false} KeptLinesWellFormed(classes: seq<string>, dets: seq<Detection>, dims: Dims, lines: seq<LabelLine>)
    requires KeptLines(classes, dets, dims) == Some(lines)
    ensures forall j :: 0 <= j < |lines| ==> 0 <= lines[j].classId < |classes|
    ensures (forall k :: 0 <= k < |dets| && MappedClass(classes, dets[k].className) >= 0
               ==> InsideImage(dets[k].box, dims.width, dims.height))
        ==> forall j :: 0 <= j < |lines| ==> InUnit(lines[j].box)
    decreases |dets|
  {
    if dets != [] {
      var init := dets[..|dets| - 1];
      var prev := KeptLines(classes, init, dims).value;
      KeptLinesWellFormed(classes, init, dims, prev);
      assert forall k :: 0 <= k < |init| ==> init[k] == dets[k];
      var d := dets[|dets| - 1];
      if MappedClass(classes, d.className) >= 0 && InsideImage(d.box, dims.width, dims.height) {
        NormalizeInUnit(d.box, dims.width, dims.height);
      }
    }
  }

  /** A write of the directory pass comes from one of the listing's entries. */
  lemma {:induction false} DirWritesFrom(classes: seq<string>, dir: seq<string>, listing: seq<RawFile>, w: Write)
    requires w in DirWrites(classes, dir, listing)
    ensures exists k :: 0 <= k < |listing| && w in EntryWrites(classes, dir, listing[k])
    decreases |listing|
  {
    var init := listing[..|listing| - 1];
    if w in DirWrites(classes, dir, init) {
      DirWritesFrom(classes, dir, init, w);
      var k :| 0 <= k < |init| && w in EntryWrites(classes, dir, init[k]);
      assert init[k] == listing[k];
    }
  }

  /** The writes of a listing prefix come first among the writes of the whole listing. */
  lemma {:induction false} DirWritesPrefix(classes: seq<string>, dir: seq<string>, listing: seq<RawFile>, j: nat)
    requires j <= |listing|
    ensures DirWrites(classes, dir, listing[..j]) <= DirWrites(classes, dir, listing)
    decreases |listing| - j
  {
    if j == |listing| {
      assert listing[..j] == listing;
    } else {
      DirWritesPrefix(classes, dir, listing, j + 1);
      DirStep(classes, dir, listing, j);
    }
  }

  /** Every entry's write is among the directory pass's writes. */
  lemma DirWritesInclude(classes: seq<string>, dir: seq<string>, listing: seq<RawFile>, k: nat)
    requires k < |listing|
    ensures forall w :: w in EntryWrites(classes, dir, listing[k]) ==> w in DirWrites(classes, dir, listing)
  {
    DirStep(classes, dir, listing, k);
    DirWritesPrefix(classes, dir, listing, k + 1);
    var whole, upto := DirWrites(classes, dir, listing), DirWrites(classes, dir, listing[..k + 1]);
    assert upto == whole[..|upto|];
    forall w | w in EntryWrites(classes, dir, listing[k])
      ensures w in whole
    {
      assert w in upto;
      var m :| 0 <= m < |upto| && upto[m] == w;
      assert whole[m] == w;
    }
  }

  /** Image entries of one listing have pairwise different stems. */
  predicate StemsDistinct(listing: seq<RawFile>)
  {
    forall i, j :: 0 <= i < j < |listing| && IsImageFile(listing[i].name) && IsImageFile(listing[j].name)
      ==> PyStr.Stem(listing[i].name) != PyStr.Stem(listing[j].name)
  }

  /** Equal label paths mean equal stems. */
  lemma LabelPathStem(dir: seq<string>, a: string, b: string)
    requires LabelPath(dir, a) == LabelPath(dir, b)
    ensures PyStr.Stem(a) == PyStr.Stem(b)
  {
    var x, y := PyStr.Stem(a) + ".txt", PyStr.Stem(b) + ".txt";
    assert x[..|x| - 4] == PyStr.Stem(a);
    assert y[..|y| - 4] == PyStr.Stem(b);
  }

  /**
   * With distinct stems, the directory pass leaves exactly one label file per
   * image whose labeling succeeded, holding its kept lines (empty when none
   * was kept), and touches nothing for an image whose labeling failed.
   */
  lemma OneLabelFilePerImage(classes: seq<string>, dir: seq<string>, listing: seq<RawFile>, fs: FileSystem, k: nat)
    requires k < |listing| && IsImageFile(listing[k].name) && StemsDistinct(listing)
    ensures var after := ApplyWrites(fs, DirWrites(classes, dir, listing));
      var p := LabelPath(dir, listing[k].name);
      match ImageOutcome(classes, listing[k])
      case Labelled(lines) => p in after && after[p] == LabelFile(lines)
      case Skipped => (p in after <==> p in fs) && (p in fs ==> after[p] == fs[p])
  {
    var ws := DirWrites(classes, dir, listing);
    var p := LabelPath(dir, listing[k].name);
    forall w | w in ws && w.path == p
      ensures w in EntryWrites(classes, dir, listing[k])
    {
      DirWritesFrom(classes, dir, listing, w);
      var j :| 0 <= j < |listing| && w in EntryWrites(classes, dir, listing[j]);
      LabelPathStem(dir, listing[j].name, listing[k].name);
      assert j == k;
    }
    match ImageOutcome(classes, listing[k])
    case Labelled(lines) => {
      DirWritesInclude(classes, dir, listing, k);
      assert Write(p, LabelFile(lines)) in ws;
      ApplyAgreeing(fs, ws, p, LabelFile(lines));
    }
    case Skipped => {
      ApplyUntouched(fs, ws, p);
    }
  }

  /** An image entry whose stem is that of `other`, so that both label into one file. */
  predicate SameStemImage(f: RawFile, other: RawFile)
  {
    IsImageFile(f.name) && PyStr.Stem(f.name) == PyStr.Stem(other.name)
  }

  /**
   * Without any assumption on stems: an image whose labeling succeeded leaves
   * its lines in `<stem>.txt` unless a later image entry with the same stem
   * (`a.jpg` then `a.png`) also succeeded, since both write the same file
   * and the later write stays.
   */
  lemma {:induction false} LastLabelledWins(classes: seq<string>, dir: seq<string>, listing: seq<RawFile>, fs: FileSystem, k: nat)
    requires k < |listing| && IsImageFile(listing[k].name) && ImageOutcome(classes, listing[k]).Labelled?
    requires forall j :: k < j < |listing| && SameStemImage(listing[j], listing[k]) ==> ImageOutcome(classes, listing[j]).Skipped?
    ensures var after := ApplyWrites(fs, DirWrites(classes, dir, listing));
      var p := LabelPath(dir, listing[k].name);
      p in after && after[p] == LabelFile(ImageOutcome(classes, listing[k]).lines)
    decreases |listing|
  {
    var init, last := listing[..|listing| - 1], listing[|listing| - 1];
    var before, mine := DirWrites(classes, dir, init), EntryWrites(classes, dir, last);
    assert DirWrites(classes, dir, listing) == before + mine;
    ApplyAppend(fs, before, mine);
    var p := LabelPath(dir, listing[k].name);
    var c := LabelFile(ImageOutcome(classes, listing[k]).lines);
    if k == |listing| - 1 {
      assert mine == [Write(p, c)];
      ApplyAgreeing(ApplyWrites(fs, before), mine, p, c);
    } else {
      assert init[k] == listing[k];
      forall j | k < j < |init| && SameStemImage(init[j], init[k])
        ensures ImageOutcome(classes, init[j]).Skipped?
      {
        assert init[j] == listing[j];
      }
      LastLabelledWins(classes, dir, init, fs, k);
      forall w | w in mine
        ensures w.path != p
      {
        if w.path == p {
          LabelPathStem(dir, last.name, listing[k].name);
        }
      }
      ApplyUntouched(ApplyWrites(fs, before), mine, p);
    }
  }

  /**
   * Two image entries with the same stem share one label file: when the
   * later one's labeling succeeds, the file holds its lines, whatever the
   * earlier one produced.
   */
  lemma SameStemLaterLabelWins(classes: seq<string>, dir: seq<string>, a: RawFile, b: RawFile, fs: FileSystem)
    requires IsImageFile(a.name) && IsImageFile(b.name) && PyStr.Stem(a.name) == PyStr.Stem(b.name)
    requires ImageOutcome(classes, b).Labelled?
    ensures var after := ApplyWrites(fs, DirWrites(classes, dir, [a, b]));
      LabelPath(dir, a.name) in after && after[LabelPath(dir, a.name)] == LabelFile(ImageOutcome(classes, b).lines)
  {
    LastLabelledWins(classes, dir, [a, b], fs, 1);
  }
}
