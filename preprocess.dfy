/**
 * The output phase of `DataPreprocessor.preprocess_and_split` and
 * `_augment_image` (src/preprocess.py): every image of each split is
 * re-encoded as `<split dir>/<stem>.jpg` with a one-line full-image label
 * `<processed>/images/labels/<stem>.txt`, and training images get
 * `aug_factor - 1` augmented variants when augmentation is on.
 */
module Preprocess {
  import opened Wrappers
  import PyStr
  import Config
  import opened Layout
  import opened Splitting
  import opened Collect
  import Augmentation

  /**
   * What `DataPreprocessor.__init__` reads from the configuration.
   * `testSplit` is read but never used; `augTransforms` is the
   * `augmentation.transforms` section (an empty dictionary when absent).
   */
  datatype Settings = Settings(
    classes: seq<string>,
    processedDir: seq<string>,
    trainSplit: real,
    valSplit: real,
    testSplit: real,
    augEnabled: bool,
    augFactor: int,
    augTransforms: Config.Value)

  /** The three splits, processed in this order. */
  datatype Split = Train | Val | Test

  function SplitName(s: Split): string
  {
    match s
    case Train => "train"
    case Val => "val"
    case Test => "test"
  }

  const SplitOrder: seq<Split> := [Train, Val, Test]

  /** `processed_dir / "images" / split`. */
  function ImagesDir(cfg: Settings, s: Split): seq<string>
  {
    cfg.processedDir + ["images", SplitName(s)]
  }

  /** `processed_dir / "images" / "labels"`, shared by every split. */
  function LabelsDir(cfg: Settings): seq<string>
  {
    cfg.processedDir + ["images", "labels"]
  }

  /** `Path.parent` of a directory. */
  function Parent(dir: seq<string>): seq<string>
  {
    if dir == [] then [] else dir[..|dir| - 1]
  }

  /** The label file of an output image `name` written into `outputDir`: `output_dir.parent / "labels" / <stem>.txt`. */
  function LabelFor(outputDir: seq<string>, name: string): Path
  {
    Path(Parent(outputDir) + ["labels"], PyStr.Stem(name) + ".txt")
  }

  /** The label `<class_id> 0.5 0.5 1.0 1.0`: one box covering the whole image. */
  function FullImageLabel(classId: int): Content
  {
    LabelFile([LabelLine(classId, NormBox(0.5, 0.5, 1.0, 1.0))])
  }

  /** `f"{base_name}_aug_{i}"`. */
  function VariantStem(src: Source, i: nat): string
  {
    PyStr.Stem(src.name) + "_aug_" + PyStr.NatToString(i)
  }

  /** Variant `i` of `src`: `output_dir / f"{base_name}_aug_{i}.jpg"`. */
  function VariantImage(src: Source, outputDir: seq<string>, i: nat): Path
  {
    Path(outputDir, VariantStem(src, i) + ".jpg")
  }

  /** The label file of variant `i`: `<stem>_aug_<i>.txt` in the labels directory beside `outputDir`. */
  function VariantLabel(src: Source, outputDir: seq<string>, i: nat): Path
  {
    Path(Parent(outputDir) + ["labels"], VariantStem(src, i) + ".txt")
  }

  /** The writes of augmentation iterations `0 .. n - 1`: each variant image, then its label. */
  function VariantWrites(src: Source, classId: int, outputDir: seq<string>, n: nat): seq<Write>
    decreases n
  {
    if n == 0 then []
    else
      var image := VariantImage(src, outputDir, n - 1);
      VariantWrites(src, classId, outputDir, n - 1)
        + [Write(image, Jpeg(src, Some(n - 1))), Write(VariantLabel(src, outputDir, n - 1), FullImageLabel(classId))]
  }

  /** The paths `_augment_image` returns after `n` iterations. */
  function VariantFiles(src: Source, outputDir: seq<string>, n: nat): seq<Path>
  {
    if n == 0 then [] else VariantFiles(src, outputDir, n - 1) + [VariantImage(src, outputDir, n - 1)]
  }

  /** Iteration `i` contributes the `i`-th returned path. */
  lemma {:induction false} VariantFilesSpec(src: Source, outputDir: seq<string>, n: nat)
    ensures |VariantFiles(src, outputDir, n)| == n
    ensures forall i :: 0 <= i < n ==> VariantFiles(src, outputDir, n)[i] == VariantImage(src, outputDir, i)
  {
    if n > 0 {
      VariantFilesSpec(src, outputDir, n - 1);
    }
  }

  /**
   * The writes of `_augment_image(src, class_id, output_dir, count)`: none
   * when the source cannot be loaded or building the pipeline raises (the
   * transform section is not a dictionary, or `blur` is truthy), else `count` variants
   * (`range(count)` is empty for `count <= 0`).
   */
  function AugmentWrites(augTransforms: Config.Value, src: Source, classId: int, outputDir: seq<string>, count: int): seq<Write>
  {
    if !src.loadable || Augmentation.PipelineRaises(augTransforms) then []
    else VariantWrites(src, classId, outputDir, if count > 0 then count else 0)
  }

  /** `aug_count`: the augmentation factor for train, 1 otherwise. */
  function AugCount(cfg: Settings, s: Split): int
  {
    if s == Train then cfg.augFactor else 1
  }

  /** Whether an image of split `s` is augmented. */
  predicate Augments(cfg: Settings, s: Split)
  {
    cfg.augEnabled && s == Train && AugCount(cfg, s) > 1
  }

  /** `output_dir / f"{base_name}.jpg"`: where the copy of `src` goes in split `s`. */
  function CopyPath(cfg: Settings, s: Split, src: Source): Path
  {
    Path(ImagesDir(cfg, s), PyStr.Stem(src.name) + ".jpg")
  }

  /**
   * The writes of the `try` block for one image: nothing when the image
   * cannot be opened; else the JPEG copy, its label, and the variants.
   */
  function ImageWrites(cfg: Settings, s: Split, src: Source, classId: int): seq<Write>
  {
    if !src.loadable then []
    else
      var outputDir := ImagesDir(cfg, s);
      var image := CopyPath(cfg, s, src);
      [Write(image, Jpeg(src, None)), Write(LabelFor(outputDir, image.name), FullImageLabel(classId))]
        + (if Augments(cfg, s) then AugmentWrites(cfg.augTransforms, src, classId, outputDir, AugCount(cfg, s) - 1) else [])
  }

  /** The writes of one split's image loop, each image tagged with the index of its class. */
  function SplitWrites(cfg: Settings, s: Split, images: seq<Source>): seq<Write>
    decreases |images|
  {
    if images == [] then []
    else
      var src := images[|images| - 1];
      SplitWrites(cfg, s, images[..|images| - 1]) + ImageWrites(cfg, s, src, LastIndex(cfg.classes, src.classDir))
  }

  /** The images of split `s`. */
  function PartOf(parts: Parts<Source>, s: Split): seq<Source>
  {
    match s
    case Train => parts.train
    case Val => parts.val
    case Test => parts.test
  }

  /** The writes of the first `k` splits, in processing order. */
  function RunWrites(cfg: Settings, parts: Parts<Source>, k: nat): seq<Write>
    requires k <= |SplitOrder|
  {
    if k == 0 then []
    else RunWrites(cfg, parts, k - 1) + SplitWrites(cfg, SplitOrder[k - 1], PartOf(parts, SplitOrder[k - 1]))
  }

  /** The split of the shuffled collection, as `preprocess_and_split` cuts it. */
  function Cut(cfg: Settings, shuffled: seq<Source>): Parts<Source>
  {
    SplitImages(shuffled, cfg.trainSplit, cfg.valSplit)
  }

  /** The writes of a whole run over the shuffled collection. */
  function AllWrites(cfg: Settings, shuffled: seq<Source>): seq<Write>
  {
    RunWrites(cfg, Cut(cfg, shuffled), |SplitOrder|)
  }

  // ---------------------------------------------------------------------
  // Methods
  // ---------------------------------------------------------------------

  /**
   * `_augment_image`: writes `count` variants `<stem>_aug_<i>.jpg`, each with
   * the full-image label, and returns their paths. An unloadable source
   * returns `[]`; when building the pipeline raises (a transform section that
   * is not a dictionary, or a truthy `blur`) it raises (`raised`) before
   * anything is written.
   */
  method AugmentImage(augTransforms: Config.Value, src: Source, classId: int, outputDir: seq<string>, count: int, fs0: FileSystem)
    returns (outputFiles: seq<Path>, raised: bool, fs: FileSystem)
    ensures raised <==> src.loadable && Augmentation.PipelineRaises(augTransforms)
    ensures fs == ApplyWrites(fs0, AugmentWrites(augTransforms, src, classId, outputDir, count))
    ensures !src.loadable || raised ==> outputFiles == []
    ensures src.loadable && !raised ==> outputFiles == VariantFiles(src, outputDir, if count > 0 then count else 0)
  {
    if !src.loadable {
      return [], false, fs0;
    }
    var transform := Augmentation.GetAugmentationTransform(augTransforms);
    if transform.None? {
      return [], true, fs0;
    }
    outputFiles, fs := SaveVariants(src, classId, outputDir, count, fs0);
    raised := false;
  }

  /** The loop of `_augment_image`, once the image is loaded and the pipeline built: `count` variants, in order. */
  method SaveVariants(src: Source, classId: int, outputDir: seq<string>, count: int, fs0: FileSystem)
    returns (outputFiles: seq<Path>, fs: FileSystem)
    ensures var n := if count > 0 then count else 0;
      fs == ApplyWrites(fs0, VariantWrites(src, classId, outputDir, n)) && outputFiles == VariantFiles(src, outputDir, n)
  {
    outputFiles, fs := [], fs0;
    var n := if count > 0 then count else 0;
    var i := 0;
    while i < count
      invariant 0 <= i <= n
      invariant fs == AfterVariants(fs0, src, classId, outputDir, i)
      invariant outputFiles == VariantFiles(src, outputDir, i)
    {
      var outputFile;
      outputFile, fs := SaveVariant(src, classId, outputDir, i, fs);
      outputFiles := outputFiles + [outputFile];
      i := i + 1;
    }
    AfterVariantsApplies(fs0, src, classId, outputDir, i);
  }

  /** One iteration of the augmentation loop: the variant image `<stem>_aug_<i>.jpg`, then its label. */
  method SaveVariant(src: Source, classId: int, outputDir: seq<string>, i: nat, fs0: FileSystem)
    returns (outputFile: Path, fs: FileSystem)
    ensures outputFile == VariantImage(src, outputDir, i)
    ensures fs == fs0[outputFile := Jpeg(src, Some(i))][VariantLabel(src, outputDir, i) := FullImageLabel(classId)]
  {
    var baseName := PyStr.Stem(src.name);
    outputFile := Path(outputDir, baseName + "_aug_" + PyStr.NatToString(i) + ".jpg");
    fs := fs0[outputFile := Jpeg(src, Some(i))];
    var labelFile := LabelFor(outputDir, outputFile.name);
    PyStr.StemWithExtension(VariantStem(src, i), ".jpg");
    fs := fs[labelFile := FullImageLabel(classId)];
  }

  /** The file system after `n` augmentation iterations, one variant and its label at a time. */
  function AfterVariants(fs0: FileSystem, src: Source, classId: int, outputDir: seq<string>, n: nat): FileSystem
  {
    if n == 0 then fs0
    else AfterVariants(fs0, src, classId, outputDir, n - 1)
      [VariantImage(src, outputDir, n - 1) := Jpeg(src, Some(n - 1))]
      [VariantLabel(src, outputDir, n - 1) := FullImageLabel(classId)]
  }

  /** Iteration by iteration, the loop performs the writes of `VariantWrites`. */
  lemma {:induction false} AfterVariantsApplies(fs0: FileSystem, src: Source, classId: int, outputDir: seq<string>, n: nat)
    ensures AfterVariants(fs0, src, classId, outputDir, n) == ApplyWrites(fs0, VariantWrites(src, classId, outputDir, n))
  {
    if n > 0 {
      AfterVariantsApplies(fs0, src, classId, outputDir, n - 1);
      var ws := VariantWrites(src, classId, outputDir, n - 1);
      var w1 := Write(VariantImage(src, outputDir, n - 1), Jpeg(src, Some(n - 1)));
      var w2 := Write(VariantLabel(src, outputDir, n - 1), FullImageLabel(classId));
      assert VariantWrites(src, classId, outputDir, n) == ws + [w1] + [w2];
      ApplyOneMore(fs0, ws, w1);
      ApplyOneMore(fs0, ws + [w1], w2);
    }
  }

  /** The `try` block of the image loop for one image of split `s`. */
  method ProcessImage(cfg: Settings, s: Split, src: Source, classId: int, fs0: FileSystem) returns (fs: FileSystem)
    ensures fs == ApplyWrites(fs0, ImageWrites(cfg, s, src, classId))
  {
    if !src.loadable {
      return fs0;
    }
    var outputDir := ImagesDir(cfg, s);
    var augCount := AugCount(cfg, s);
    var baseName := PyStr.Stem(src.name);
    var outputImg := Path(outputDir, baseName + ".jpg");
    var labelFile := LabelFor(outputDir, outputImg.name);
    var w1, w2 := Write(outputImg, Jpeg(src, None)), Write(labelFile, FullImageLabel(classId));
    fs := fs0[outputImg := Jpeg(src, None)][labelFile := FullImageLabel(classId)];
    ApplyOneMore(fs0, [], w1);
    ApplyOneMore(fs0, [w1], w2);
    assert fs == ApplyWrites(fs0, [w1, w2]) by {
      assert [w1] + [w2] == [w1, w2];
    }
    if cfg.augEnabled && s == Train && augCount > 1 {
      var files, raised, fs' := AugmentImage(cfg.augTransforms, src, classId, outputDir, augCount - 1, fs);
      ApplyAppend(fs0, [w1, w2], AugmentWrites(cfg.augTransforms, src, classId, outputDir, augCount - 1));
      fs := fs';
    } else {
      assert [w1, w2] + [] == [w1, w2];
    }
  }

  /** The image loop of one split. */
  method ProcessSplit(cfg: Settings, s: Split, images: seq<Source>, imageToClass: map<Source, int>, fs0: FileSystem)
    returns (fs: FileSystem)
    requires forall y :: y in images ==> y in imageToClass
    requires forall y :: y in imageToClass ==> imageToClass[y] == LastIndex(cfg.classes, y.classDir)
    ensures fs == ApplyWrites(fs0, SplitWrites(cfg, s, images))
  {
    fs := fs0;
    var i := 0;
    while i < |images|
      invariant 0 <= i <= |images|
      invariant fs == ApplyWrites(fs0, SplitWrites(cfg, s, images[..i]))
    {
      var imgPath := images[i];
      var classId := imageToClass[imgPath];
      assert images[..i + 1][..i] == images[..i];
      ghost var prev := SplitWrites(cfg, s, images[..i]);
      fs := ProcessImage(cfg, s, imgPath, classId, fs);
      ApplyAppend(fs0, prev, ImageWrites(cfg, s, imgPath, classId));
      i := i + 1;
    }
    assert images[..i] == images;
  }

  /** The JPEG counts the run reports for the splits `SplitOrder[..k]`. */
  ghost predicate StatsFor(cfg: Settings, stats: map<string, nat>, fs: FileSystem, k: nat)
    requires k <= |SplitOrder|
  {
    && stats.Keys == (set j | 0 <= j < k :: SplitName(SplitOrder[j]))
    && (forall j :: 0 <= j < k ==>
          SplitName(SplitOrder[j]) in stats
          && stats[SplitName(SplitOrder[j])] == |JpegsIn(fs, ImagesDir(cfg, SplitOrder[j]))|)
  }

  /**
   * `preprocess_and_split`. `shuffled` is the collection after
   * `random.shuffle`, any reordering of it. With nothing collected it
   * returns `{}` and writes nothing. Otherwise every split is written and
   * `stats[split]` is the number of `*.jpg` files in that split's
   * directory once the run is over.
   */
  method PreprocessAndSplit(cfg: Settings, raw: map<string, seq<RawEntry>>, shuffled: seq<Source>, fs0: FileSystem)
    returns (stats: map<string, nat>, fs: FileSystem)
    requires multiset(shuffled) == multiset(Collected(cfg.classes, raw))
    ensures Collected(cfg.classes, raw) == [] ==> stats == map[] && fs == fs0
    ensures Collected(cfg.classes, raw) != [] ==>
      && fs == ApplyWrites(fs0, AllWrites(cfg, shuffled))
      && StatsFor(cfg, stats, fs, |SplitOrder|)
  {
    var allImages, imageToClass := CollectImages(cfg.classes, raw);
    if allImages == [] {
      return map[], fs0;
    }
    SameMembers(shuffled, allImages);
    var parts := SplitImages(shuffled, cfg.trainSplit, cfg.valSplit);
    PartsWithin(shuffled, cfg.trainSplit, cfg.valSplit);
    stats, fs := WriteSplits(cfg, parts, imageToClass, fs0);
  }

  /** Lists holding the same multiset have the same members. */
  lemma SameMembers<T>(a: seq<T>, b: seq<T>)
    requires multiset(a) == multiset(b)
    ensures forall y :: y in a <==> y in b
  {
    forall y ensures y in a <==> y in b {
      assert y in a <==> y in multiset(a);
      assert y in b <==> y in multiset(b);
    }
  }

  /** The loop over the three splits, in the order train, val, test. */
  method WriteSplits(cfg: Settings, parts: Parts<Source>, imageToClass: map<Source, int>, fs0: FileSystem)
    returns (stats: map<string, nat>, fs: FileSystem)
    requires forall s: Split, y :: y in PartOf(parts, s) ==> y in imageToClass
    requires forall y :: y in imageToClass ==> imageToClass[y] == LastIndex(cfg.classes, y.classDir)
    ensures fs == ApplyWrites(fs0, RunWrites(cfg, parts, |SplitOrder|))
    ensures StatsFor(cfg, stats, fs, |SplitOrder|)
  {
    stats, fs := map[], fs0;
    var k := 0;
    while k < |SplitOrder|
      invariant 0 <= k <= |SplitOrder|
      invariant fs == ApplyWrites(fs0, RunWrites(cfg, parts, k))
      invariant StatsFor(cfg, stats, fs, k)
    {
      var split := SplitOrder[k];
      var images := PartOf(parts, split);
      var outputDir := ImagesDir(cfg, split);
      ghost var before, stats0 := fs, stats;
      fs := ProcessSplit(cfg, split, images, imageToClass, fs);
      ApplyAppend(fs0, RunWrites(cfg, parts, k), SplitWrites(cfg, split, images));
      stats := stats[SplitName(split) := |JpegsIn(fs, outputDir)|];
      StatsStep(cfg, stats0, before, images, k);
      k := k + 1;
    }
  }

  // ---------------------------------------------------------------------
  // Lemmas
  // ---------------------------------------------------------------------

  /** Every split is made of images of the shuffled list. */
  lemma PartsWithin(s: seq<Source>, trainSplit: real, valSplit: real)
    ensures forall split: Split, y :: y in PartOf(SplitImages(s, trainSplit, valSplit), split) ==> y in s
  {
    var tc := SplitCount(|s|, trainSplit);
    var vc := SplitCount(|s|, valSplit);
    SliceWithin(s, 0, tc);
    SliceWithin(s, tc, tc + vc);
    SliceWithin(s, tc + vc, |s|);
  }

  /**
   * Writing split `SplitOrder[k]` leaves the JPEG listings of the splits
   * written before it as they were, and records its own count.
   */
  lemma StatsStep(cfg: Settings, stats: map<string, nat>, before: FileSystem, images: seq<Source>, k: nat)
    requires k < |SplitOrder|
    requires StatsFor(cfg, stats, before, k)
    ensures var fs := ApplyWrites(before, SplitWrites(cfg, SplitOrder[k], images));
      StatsFor(cfg, stats[SplitName(SplitOrder[k]) := |JpegsIn(fs, ImagesDir(cfg, SplitOrder[k]))|], fs, k + 1)
  {
    var split := SplitOrder[k];
    var fs := ApplyWrites(before, SplitWrites(cfg, split, images));
    var stats' := stats[SplitName(split) := |JpegsIn(fs, ImagesDir(cfg, split))|];
    SplitWritesDirs(cfg, split, images);
    forall j | 0 <= j < k
      ensures JpegsIn(fs, ImagesDir(cfg, SplitOrder[j])) == JpegsIn(before, ImagesDir(cfg, SplitOrder[j]))
    {
      SplitDirsDiffer(cfg, split, SplitOrder[j]);
      JpegsUntouched(before, SplitWrites(cfg, split, images), ImagesDir(cfg, SplitOrder[j]));
    }
    assert SplitName(Train) != SplitName(Val) && SplitName(Val) != SplitName(Test) && SplitName(Test) != SplitName(Train);
    assert stats'.Keys == (set j | 0 <= j < k + 1 :: SplitName(SplitOrder[j]));
  }

  /** A Python slice holds elements of the sliced list. */
  lemma SliceWithin<T>(s: seq<T>, a: int, b: int)
    ensures forall y :: y in Slice(s, a, b) ==> y in s
  {
    var i, j := Bound(a, |s|), Bound(b, |s|);
    if i < j {
      forall y | y in s[i..j] ensures y in s {
        var k :| i <= k < j && s[k] == y;
      }
    }
  }

  /** The label path of an output image is the labels directory next to the split directories. */
  lemma LabelsShared(cfg: Settings, s: Split, name: string)
    ensures LabelFor(ImagesDir(cfg, s), name).dir == LabelsDir(cfg)
  {
    var d := ImagesDir(cfg, s);
    assert Parent(d) == cfg.processedDir + ["images"];
  }

  /** The augmentation loop writes nothing but variants numbered below `n` of `src` and their labels. */
  lemma {:induction false} VariantWritesOnly(src: Source, classId: int, outputDir: seq<string>, n: nat)
    ensures forall w :: w in VariantWrites(src, classId, outputDir, n) ==>
      if w.content.Jpeg? then
        w.content.source == src && w.content.variant.Some? && w.content.variant.value < n
        && w.path == VariantImage(src, outputDir, w.content.variant.value)
      else
        w.content == FullImageLabel(classId) && w.path.dir == Parent(outputDir) + ["labels"]
  {
    if n > 0 {
      VariantWritesOnly(src, classId, outputDir, n - 1);
      var prev := VariantWrites(src, classId, outputDir, n - 1);
      var w1 := Write(VariantImage(src, outputDir, n - 1), Jpeg(src, Some(n - 1)));
      var w2 := Write(VariantLabel(src, outputDir, n - 1), FullImageLabel(classId));
      assert VariantWrites(src, classId, outputDir, n) == prev + [w1, w2];
    }
  }

  /**
   * Every JPEG written for an image re-encodes it into its split
   * directory: the copy at `<stem>.jpg`, or a variant numbered below
   * `aug_factor - 1` when the split is augmented. Every label file written holds
   * the image's class and goes to the shared labels directory.
   */
  lemma ImageWritesOnly(cfg: Settings, s: Split, src: Source, classId: int)
    ensures forall w :: w in ImageWrites(cfg, s, src, classId) && w.content.Jpeg? ==>
      && src.loadable && w.content.source == src && w.path.dir == ImagesDir(cfg, s)
      && (w.content.variant.None? ==> w.path == CopyPath(cfg, s, src))
      && (w.content.variant.Some? ==> Augments(cfg, s) && w.content.variant.value < cfg.augFactor - 1)
    ensures forall w :: w in ImageWrites(cfg, s, src, classId) && w.content.LabelFile? ==>
      w.content == FullImageLabel(classId) && w.path.dir == LabelsDir(cfg)
  {
    if src.loadable {
      var d := ImagesDir(cfg, s);
      var copy := Write(CopyPath(cfg, s, src), Jpeg(src, None));
      var lbl := Write(LabelFor(d, CopyPath(cfg, s, src).name), FullImageLabel(classId));
      var aug := if Augments(cfg, s) then AugmentWrites(cfg.augTransforms, src, classId, d, AugCount(cfg, s) - 1) else [];
      assert ImageWrites(cfg, s, src, classId) == [copy, lbl] + aug;
      assert lbl.path.dir == LabelsDir(cfg) by {
        LabelsShared(cfg, s, CopyPath(cfg, s, src).name);
      }
      if Augments(cfg, s) && !Augmentation.PipelineRaises(cfg.augTransforms) {
        VariantWritesOnly(src, classId, d, cfg.augFactor - 1);
        assert Parent(d) + ["labels"] == LabelsDir(cfg);
        assert aug == VariantWrites(src, classId, d, cfg.augFactor - 1);
      } else {
        assert aug == [];
      }
      forall w | w in ImageWrites(cfg, s, src, classId)
        ensures w == copy || w == lbl || w in aug
      {
      }
    }
  }

  /**
   * Every JPEG a split writes re-encodes a loadable image of the split into
   * the split directory, a variant only when the split is augmented; every
   * label file goes to the shared labels directory and holds the class index of
   * an image of the split.
   */
  lemma {:induction false} SplitWritesOnly(cfg: Settings, s: Split, images: seq<Source>)
    ensures forall w :: w in SplitWrites(cfg, s, images) && w.content.Jpeg? ==>
      && w.content.source in images && w.content.source.loadable && w.path.dir == ImagesDir(cfg, s)
      && (w.content.variant.None? ==> w.path == CopyPath(cfg, s, w.content.source))
      && (w.content.variant.Some? ==> Augments(cfg, s) && w.content.variant.value < cfg.augFactor - 1)
    ensures forall w :: w in SplitWrites(cfg, s, images) && w.content.LabelFile? ==>
      && w.path.dir == LabelsDir(cfg)
      && exists src :: src in images && w.content == FullImageLabel(LastIndex(cfg.classes, src.classDir))
    decreases |images|
  {
    if images != [] {
      var init, last := images[..|images| - 1], images[|images| - 1];
      var prev, mine := SplitWrites(cfg, s, init), ImageWrites(cfg, s, last, LastIndex(cfg.classes, last.classDir));
      SplitWritesOnly(cfg, s, init);
      ImageWritesOnly(cfg, s, last, LastIndex(cfg.classes, last.classDir));
      assert SplitWrites(cfg, s, images) == prev + mine;
      assert forall y :: y in init ==> y in images;
      assert last in images;
    }
  }

  /** A split writes only into its own directory and into the shared labels directory. */
  lemma SplitWritesDirs(cfg: Settings, s: Split, images: seq<Source>)
    ensures forall w :: w in SplitWrites(cfg, s, images) ==> w.path.dir == ImagesDir(cfg, s) || w.path.dir == LabelsDir(cfg)
  {
    SplitWritesOnly(cfg, s, images);
  }

  /** The split directories and the labels directory are pairwise different. */
  lemma SplitDirsDiffer(cfg: Settings, s: Split, t: Split)
    ensures s != t ==> ImagesDir(cfg, s) != ImagesDir(cfg, t)
    ensures ImagesDir(cfg, s) != LabelsDir(cfg)
  {
    var n := |cfg.processedDir| + 1;
    assert ImagesDir(cfg, s)[n] == SplitName(s);
    assert ImagesDir(cfg, t)[n] == SplitName(t);
    assert LabelsDir(cfg)[n] == "labels";
  }
}
